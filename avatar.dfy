/**
 * The avatar component: a picture when it has a source, otherwise a circle
 * with up to two initials taken from the alternative text. Sizes come from a
 * fixed table of utility classes, `md` when none is given.
 */
module Avatar {
  import opened Wrappers

  datatype Size = Sm | Md | Lg | Xl

  /** The `SIZES` table: height and width classes per size. */
  function SizeClasses(size: Size): (c: string)
  {
    match size
    case Sm => "h-8 w-8"
    case Md => "h-10 w-10"
    case Lg => "h-12 w-12"
    case Xl => "h-24 w-24"
  }

  /** The `sizes` attribute of the picture. */
  function SizesAttribute(size: Size): (a: string)
  {
    var hint := if size == Xl then "96px" else "48px";
    "(max-width: 768px) " + hint + ", " + hint
  }

  /** The class of the initials. */
  function TextClass(size: Size): (c: string)
  {
    if size == Xl then "text-2xl" else "text-sm"
  }

  /** What the component renders. */
  datatype View =
    | Placeholder(sizeClasses: string, className: Option<string>, textClass: string, initials: string)
    | Picture(sizeClasses: string, className: Option<string>, src: string, alt: string, sizes: string)

  /** `s.split(' ')`: the pieces between single spaces; the empty string gives one empty piece. */
  function Split(s: string): (parts: seq<string>)
    ensures |parts| >= 1
    ensures forall k :: 0 <= k < |parts| ==> ' ' !in parts[k]
  {
    if |s| == 0 then [""]
    else
      var rest := Split(s[1..]);
      if s[0] == ' ' then [""] + rest
      else [[s[0]] + rest[0]] + rest[1..]
  }

  /** `parts.join(' ')`. */
  function JoinSpaces(parts: seq<string>): (s: string)
    requires |parts| >= 1
  {
    if |parts| == 1 then parts[0] else parts[0] + " " + JoinSpaces(parts[1..])
  }

  /** Splitting loses nothing: joining the pieces with spaces gives the text back. */
  lemma {:induction false} SplitJoin(s: string)
    ensures JoinSpaces(Split(s)) == s
  {
    if |s| > 0 {
      SplitJoin(s[1..]);
      var rest := Split(s[1..]);
      if s[0] == ' ' {
        assert ([""] + rest)[1..] == rest;
        assert s == [' '] + s[1..];
      } else {
        var parts := [[s[0]] + rest[0]] + rest[1..];
        if |rest| == 1 {
          assert s == [s[0]] + s[1..];
        } else {
          assert parts[1..] == rest[1..];
          assert JoinSpaces(rest) == rest[0] + " " + JoinSpaces(rest[1..]);
          assert s == [s[0]] + s[1..];
        }
      }
    }
  }

  /** `.map(n => n[0]).join('')`: the first character of every non-empty piece, in order. */
  function Heads(parts: seq<string>): (h: string)
    ensures |h| <= |parts|
    ensures (forall k :: 0 <= k < |parts| ==> ' ' !in parts[k]) ==> forall i :: 0 <= i < |h| ==> h[i] != ' '
  {
    if |parts| == 0 then ""
    else (if |parts[0]| == 0 then "" else [parts[0][0]]) + Heads(parts[1..])
  }

  /** ASCII upper case. */
  function Upper(c: char): (u: char)
    ensures !('a' <= u <= 'z')
    ensures 'a' <= c <= 'z' ==> 'A' <= u <= 'Z' && u as int + 32 == c as int
    ensures !('a' <= c <= 'z') ==> u == c
  {
    if 'a' <= c <= 'z' then (c as int - 32) as char else c
  }

  function UpperAll(s: string): (u: string)
    ensures |u| == |s| && forall i :: 0 <= i < |s| ==> u[i] == Upper(s[i])
    ensures forall i :: 0 <= i < |u| ==> !('a' <= u[i] <= 'z')
    ensures (forall i :: 0 <= i < |s| ==> s[i] != ' ') ==> forall i :: 0 <= i < |u| ==> u[i] != ' '
  {
    if |s| == 0 then "" else [Upper(s[0])] + UpperAll(s[1..])
  }

  /** `.slice(0, 2)`. */
  function TakeTwo(s: string): (t: string)
    ensures |t| == (if |s| <= 2 then |s| else 2) && t == s[..|t|]
  {
    if |s| <= 2 then s else s[..2]
  }

  /** The placeholder's initials. */
  function Initials(alt: string): (r: string)
    ensures |r| <= 2
    ensures forall i :: 0 <= i < |r| ==> r[i] != ' ' && !('a' <= r[i] <= 'z')
  {
    TakeTwo(UpperAll(Heads(Split(alt))))
  }

  /**
   * An independent description of the heads: each character that is not a
   * space and starts the text or follows a space. `atStart` says whether
   * the previous character was a space (or there was none).
   */
  function WordStarts(s: string, atStart: bool): (w: string)
    ensures |w| <= |s| && forall i :: 0 <= i < |w| ==> w[i] != ' '
  {
    if |s| == 0 then ""
    else (if atStart && s[0] != ' ' then [s[0]] else "") + WordStarts(s[1..], s[0] == ' ')
  }

  /** Taking the first character of every piece picks exactly the word starts. */
  lemma {:induction false} HeadsAreWordStarts(s: string)
    ensures Heads(Split(s)) == WordStarts(s, true)
    ensures Heads(Split(s)[1..]) == WordStarts(s, false)
  {
    if |s| > 0 {
      HeadsAreWordStarts(s[1..]);
      var rest := Split(s[1..]);
      if s[0] == ' ' {
        assert ([""] + rest)[1..] == rest;
      } else {
        var parts := [[s[0]] + rest[0]] + rest[1..];
        assert parts[1..] == rest[1..];
      }
    }
  }

  /**
   * The initials are the first two word starts, upper-cased; there are never
   * more than two of them.
   */
  lemma InitialsRule(alt: string)
    ensures Initials(alt) == TakeTwo(UpperAll(WordStarts(alt, true)))
    ensures |Initials(alt)| <= 2
  {
    HeadsAreWordStarts(alt);
  }

  /** Two words give two initials, however many spaces lie between them. */
  lemma InitialsOfTwoWords()
    ensures Initials("a  b") == "AB"
  {
    InitialsRule("a  b");
    var w := WordStarts("a  b", true);
    assert WordStarts("b", true) == "b";
    assert WordStarts(" b", true) == "b";
    assert WordStarts("  b", false) == "b";
    assert w == "ab";
    assert UpperAll(w) == "AB";
  }

  /** A tab does not separate words. */
  lemma TabDoesNotSeparate()
    ensures Initials("a\tb") == "A"
  {
    InitialsRule("a\tb");
    assert WordStarts("b", false) == "";
    assert WordStarts("\tb", false) == "";
    assert WordStarts("a\tb", true) == "a";
    assert UpperAll("a") == "A";
  }

  /** A leading space is skipped, and no text gives no initials. */
  lemma LeadingSpaceAndEmpty()
    ensures Initials(" b") == "B"
    ensures Initials("") == ""
  {
    InitialsRule(" b");
    InitialsRule("");
    assert WordStarts("b", true) == "b";
    assert WordStarts(" b", true) == "b";
    assert UpperAll("b") == "B";
  }

  /** Which branch renders: the placeholder exactly when the source is missing or empty. */
  function Render(src: Option<string>, alt: string, size: Option<Size>, className: Option<string>): (v: View)
    ensures v.Placeholder? <==> src.None? || src.value == ""
    ensures v.sizeClasses == SizeClasses(size.GetOr(Md))
    ensures v.Picture? ==> v.src == src.value && v.alt == alt
    ensures v.Placeholder? ==> v.initials == Initials(alt) && |v.initials| <= 2
  {
    var s := size.GetOr(Md);
    if src.None? || src.value == "" then
      InitialsRule(alt);
      Placeholder(SizeClasses(s), className, TextClass(s), Initials(alt))
    else
      Picture(SizeClasses(s), className, src.value, alt, SizesAttribute(s))
  }

  /** Without a size the avatar is the medium one. */
  lemma DefaultSize(src: Option<string>, alt: string, className: Option<string>)
    ensures Render(src, alt, None, className) == Render(src, alt, Some(Md), className)
    ensures Render(src, alt, None, className).sizeClasses == "h-10 w-10"
  {
  }

  /** The sizes are told apart by their classes, and only the largest uses the large text. */
  lemma SizesDistinct(a: Size, b: Size)
    ensures SizeClasses(a) == SizeClasses(b) <==> a == b
    ensures TextClass(a) == "text-2xl" <==> a == Xl
  {
  }
}
