/**
 * The request values the DTO validators look at, and the class-validator
 * checks the DTOs use (`@IsString`, `@IsInt`, `@Min`, `@Max`, `@MinLength`,
 * `@MaxLength`, `@IsEmail`), each as a predicate on one JSON value.
 */
module Validation {
  import opened Wrappers

  /** A property of a parsed JSON body; `Absent` is a property the body does not carry. */
  datatype Value = Absent | Null | Bool(b: bool) | Number(n: real) | Str(s: string) | Composite

  /** `@IsString()`. */
  predicate IsString(v: Value)
  {
    v.Str?
  }

  /** `@IsInt()`: a number with no fractional part. */
  predicate IsInt(v: Value)
  {
    v.Number? && v.n.Floor as real == v.n
  }

  /** `@Min(bound)`: a number not below `bound`. */
  predicate Min(v: Value, bound: int)
  {
    v.Number? && v.n >= bound as real
  }

  /** `@Max(bound)`: a number not above `bound`. */
  predicate Max(v: Value, bound: int)
  {
    v.Number? && v.n <= bound as real
  }

  /** The two variation selectors the length check does not count. */
  predicate IsVariationSelector(c: char)
  {
    c == '\U{FE0E}' || c == '\U{FE0F}'
  }

  /**
   * The length `@MinLength`/`@MaxLength` measure: characters (code points),
   * not counting variation selectors.
   */
  function ValidatorLength(s: string): (n: nat)
    ensures n <= |s|
    ensures n == |s| <==> forall i :: 0 <= i < |s| ==> !IsVariationSelector(s[i])
  {
    if |s| == 0 then 0
    else (if IsVariationSelector(s[0]) then 0 else 1) + ValidatorLength(s[1..])
  }

  /** `@MinLength(bound)`: a string at least `bound` long. */
  predicate MinLength(v: Value, bound: nat)
  {
    v.Str? && ValidatorLength(v.s) >= bound
  }

  /** `@MaxLength(bound)`: a string at most `bound` long. */
  predicate MaxLength(v: Value, bound: nat)
  {
    v.Str? && ValidatorLength(v.s) <= bound
  }

  /** `@IsEmail()`: a string the library's email syntax accepts, given here as `isEmail`. */
  predicate IsEmail(v: Value, isEmail: string -> bool)
  {
    v.Str? && isEmail(v.s)
  }

  /** The integer a value holds, when `@IsInt()` accepts it. */
  function AsInteger(v: Value): (r: Option<int>)
    ensures r.Some? <==> IsInt(v)
    ensures r.Some? ==> v == Number(r.value as real)
  {
    if IsInt(v) then Some(v.n.Floor) else None
  }

  /** `@IsInt() @Min(lo) @Max(hi)`. */
  predicate IntInRange(v: Value, lo: int, hi: int)
  {
    IsInt(v) && Min(v, lo) && Max(v, hi)
  }

  /** The three checks together accept exactly the integers from `lo` to `hi`. */
  lemma IntInRangeIff(v: Value, lo: int, hi: int)
    ensures IntInRange(v, lo, hi) <==> AsInteger(v).Some? && lo <= AsInteger(v).value <= hi
  {
  }
}
