/**
 * The bodies of the availability endpoints: `CreateAvailabilityDto` (a day of
 * the week and a start and end time) and `UpdateAvailabilityDto` (the four
 * time fields). Each field is checked on its own with `@IsInt`, `@Min` and
 * `@Max`; no field is marked `@IsOptional`.
 */
module AvailabilityDto {
  import opened Wrappers
  import opened Validation

  datatype CreateAvailabilityBody = CreateAvailabilityBody(
    dayOfWeek: Value, startHour: Value, startMinute: Value, endHour: Value, endMinute: Value)

  datatype UpdateAvailabilityBody = UpdateAvailabilityBody(
    startHour: Value, startMinute: Value, endHour: Value, endMinute: Value)

  predicate DayOfWeekValid(v: Value) { IntInRange(v, 1, 7) }
  predicate HourValid(v: Value) { IntInRange(v, 0, 23) }
  predicate MinuteValid(v: Value) { IntInRange(v, 0, 59) }

  function CreateAvailabilityValid(b: CreateAvailabilityBody): (ok: bool)
    ensures ok ==> AsInteger(b.dayOfWeek).Some? && 1 <= AsInteger(b.dayOfWeek).value <= 7
    ensures ok ==> AsInteger(b.startHour).Some? && 0 <= AsInteger(b.startHour).value <= 23
    ensures ok ==> AsInteger(b.startMinute).Some? && 0 <= AsInteger(b.startMinute).value <= 59
    ensures ok ==> AsInteger(b.endHour).Some? && 0 <= AsInteger(b.endHour).value <= 23
    ensures ok ==> AsInteger(b.endMinute).Some? && 0 <= AsInteger(b.endMinute).value <= 59
  {
    && DayOfWeekValid(b.dayOfWeek)
    && HourValid(b.startHour) && MinuteValid(b.startMinute)
    && HourValid(b.endHour) && MinuteValid(b.endMinute)
  }

  /** As written: each of the four fields must be present and in range. */
  function UpdateAvailabilityValid(b: UpdateAvailabilityBody): (ok: bool)
    ensures ok ==> b.startHour.Number? && b.startMinute.Number? && b.endHour.Number? && b.endMinute.Number?
    ensures ok ==> AsInteger(b.startHour).Some? && 0 <= AsInteger(b.startHour).value <= 23
    ensures ok ==> AsInteger(b.startMinute).Some? && 0 <= AsInteger(b.startMinute).value <= 59
    ensures ok ==> AsInteger(b.endHour).Some? && 0 <= AsInteger(b.endHour).value <= 23
    ensures ok ==> AsInteger(b.endMinute).Some? && 0 <= AsInteger(b.endMinute).value <= 59
  {
    && HourValid(b.startHour) && MinuteValid(b.startMinute)
    && HourValid(b.endHour) && MinuteValid(b.endMinute)
  }

  /** The time of day an hour and a minute field name, in minutes after midnight. */
  function MinuteOfDay(hour: Value, minute: Value): (m: int)
    requires HourValid(hour) && MinuteValid(minute)
    ensures 0 <= m <= 1439
  {
    var h := AsInteger(hour).value;
    var mm := AsInteger(minute).value;
    assert 0 <= h * 60 <= 23 * 60;
    h * 60 + mm
  }

  /** Each field accepts exactly the integers of its range. */
  lemma FieldRanges(v: Value)
    ensures DayOfWeekValid(v) <==> AsInteger(v).Some? && 1 <= AsInteger(v).value <= 7
    ensures HourValid(v) <==> AsInteger(v).Some? && 0 <= AsInteger(v).value <= 23
    ensures MinuteValid(v) <==> AsInteger(v).Some? && 0 <= AsInteger(v).value <= 59
  {
    IntInRangeIff(v, 1, 7);
    IntInRangeIff(v, 0, 23);
    IntInRangeIff(v, 0, 59);
  }

  /** A fractional or missing value is never accepted. */
  lemma NonIntegersRejected(x: real)
    requires x.Floor as real != x
    ensures !HourValid(Number(x)) && !MinuteValid(Number(x)) && !DayOfWeekValid(Number(x))
    ensures !HourValid(Absent) && !MinuteValid(Absent) && !DayOfWeekValid(Absent)
  {
  }

  /** No relation between start and end is checked: a slot ending before it starts is accepted. */
  lemma SlotMayEndBeforeStart()
    ensures
      var b := CreateAvailabilityBody(Number(1.0), Number(10.0), Number(30.0), Number(9.0), Number(0.0));
      && CreateAvailabilityValid(b)
      && MinuteOfDay(b.endHour, b.endMinute) < MinuteOfDay(b.startHour, b.startMinute)
  {
    var b := CreateAvailabilityBody(Number(1.0), Number(10.0), Number(30.0), Number(9.0), Number(0.0));
    assert AsInteger(b.startHour) == Some(10) && AsInteger(b.startMinute) == Some(30);
    assert AsInteger(b.endHour) == Some(9) && AsInteger(b.endMinute) == Some(0);
  }

  /** The update body applies the create body's bounds to its four time fields, and has no day. */
  lemma UpdateSameBounds(day: Value, b: UpdateAvailabilityBody)
    requires DayOfWeekValid(day)
    ensures UpdateAvailabilityValid(b) <==>
      CreateAvailabilityValid(CreateAvailabilityBody(day, b.startHour, b.startMinute, b.endHour, b.endMinute))
  {
  }

  /** As written, an update that leaves out a field is refused (the partial update it is meant to be). */
  lemma PartialUpdateRejected()
    ensures !UpdateAvailabilityValid(UpdateAvailabilityBody(Number(9.0), Absent, Absent, Absent))
  {
  }

  /** A value `@IsOptional()` does not skip: anything but missing or null. */
  predicate Present(v: Value) { !v.Absent? && !v.Null? }

  /** A field as `@IsOptional()` would check it: missing or null, or else in range. */
  predicate OptionalIntInRange(v: Value, lo: int, hi: int)
  {
    v.Absent? || v.Null? || IntInRange(v, lo, hi)
  }

  /** The update body with its fields optional, as its type and documentation declare them. */
  function UpdateAvailabilityValidOptional(b: UpdateAvailabilityBody): (ok: bool)
    ensures ok ==> (Present(b.startHour) ==> AsInteger(b.startHour).Some? && 0 <= AsInteger(b.startHour).value <= 23)
    ensures ok ==> (Present(b.startMinute) ==> AsInteger(b.startMinute).Some? && 0 <= AsInteger(b.startMinute).value <= 59)
    ensures ok ==> (Present(b.endHour) ==> AsInteger(b.endHour).Some? && 0 <= AsInteger(b.endHour).value <= 23)
    ensures ok ==> (Present(b.endMinute) ==> AsInteger(b.endMinute).Some? && 0 <= AsInteger(b.endMinute).value <= 59)
  {
    && OptionalIntInRange(b.startHour, 0, 23) && OptionalIntInRange(b.startMinute, 0, 59)
    && OptionalIntInRange(b.endHour, 0, 23) && OptionalIntInRange(b.endMinute, 0, 59)
  }

  /**
   * With optional fields, a body is accepted exactly when every field it
   * carries is an integer in its range: a partial update is accepted, a
   * present string, boolean or object is refused, and every body the update
   * as written accepts is still accepted.
   */
  lemma OptionalUpdateRule(b: UpdateAvailabilityBody)
    ensures UpdateAvailabilityValidOptional(UpdateAvailabilityBody(Number(9.0), Absent, Absent, Absent))
    ensures UpdateAvailabilityValidOptional(b) <==>
      && (Present(b.startHour) ==> AsInteger(b.startHour).Some? && 0 <= AsInteger(b.startHour).value <= 23)
      && (Present(b.startMinute) ==> AsInteger(b.startMinute).Some? && 0 <= AsInteger(b.startMinute).value <= 59)
      && (Present(b.endHour) ==> AsInteger(b.endHour).Some? && 0 <= AsInteger(b.endHour).value <= 23)
      && (Present(b.endMinute) ==> AsInteger(b.endMinute).Some? && 0 <= AsInteger(b.endMinute).value <= 59)
    ensures b.startHour.Str? || b.startHour.Bool? || b.startHour.Composite? ==> !UpdateAvailabilityValidOptional(b)
    ensures b.endMinute.Str? || b.endMinute.Bool? || b.endMinute.Composite? ==> !UpdateAvailabilityValidOptional(b)
    ensures UpdateAvailabilityValid(b) ==> UpdateAvailabilityValidOptional(b)
    ensures Present(b.startHour) && Present(b.startMinute) && Present(b.endHour) && Present(b.endMinute) ==>
      (UpdateAvailabilityValidOptional(b) <==> UpdateAvailabilityValid(b))
  {
    IntInRangeIff(b.startHour, 0, 23);
    IntInRangeIff(b.startMinute, 0, 59);
    IntInRangeIff(b.endHour, 0, 23);
    IntInRangeIff(b.endMinute, 0, 59);
  }
}
