/**
 * The weekly program of a Besmart room: seven days from Sunday, each split
 * into 48 half-hour slots holding the setpoint mark active in that slot.
 * The thermostat reads the mark of the current slot from the room data.
 */
module Schedule {
  import opened Wrappers
  import opened Json

  /** The local time the thermostat reads: ISO weekday (Monday 1 .. Sunday 7), hour and minute. */
  datatype Clock = Clock(isoWeekday: int, hour: int, minute: int)

  predicate Valid(c: Clock) {
    1 <= c.isoWeekday <= 7 && 0 <= c.hour < 24 && 0 <= c.minute < 60
  }

  const DAYS_PER_WEEK := 7
  const SLOTS_PER_DAY := 48

  /** The mark used when the program cannot be read. */
  const FALLBACK_MARK := Str("2")

  /** The program's day: Sunday is 0, Monday 1, .. Saturday 6. */
  function Day(c: Clock): (d: nat)
    ensures Valid(c) ==> d < DAYS_PER_WEEK
    ensures Valid(c) ==> (d == 0 <==> c.isoWeekday == 7)
    ensures Valid(c) && c.isoWeekday < 7 ==> d == c.isoWeekday
  {
    c.isoWeekday % 7
  }

  /** The half-hour slot of the day: minute 30 still belongs to the first half of the hour. */
  function Slot(c: Clock): int {
    c.hour * 2 + (if c.minute > 30 then 1 else 0)
  }

  /** A valid clock falls in one of the 48 slots, two per hour, the second one from minute 31 on. */
  lemma SlotOfClock(c: Clock)
    requires Valid(c)
    ensures 0 <= Slot(c) < SLOTS_PER_DAY
    ensures Slot(c) / 2 == c.hour
    ensures Slot(c) % 2 == 1 <==> c.minute > 30
  {
  }

  /**
   * The slot is the number of whole half hours since midnight, except at
   * minute 30 of each hour, which is counted in the hour's first slot.
   */
  lemma SlotIsHalfHours(c: Clock)
    requires Valid(c)
    ensures c.minute != 30 ==> Slot(c) == (60 * c.hour + c.minute) / 30
    ensures c.minute == 30 ==> Slot(c) == (60 * c.hour + c.minute) / 30 - 1
  {
  }

  /**
   * `programWeek[day][slot]` of the room data; the fallback mark when the
   * program is missing or that entry cannot be indexed.
   */
  function Mark(fields: map<string, Value>, c: Clock): Value
    requires Valid(c)
  {
    if "programWeek" !in fields then FALLBACK_MARK
    else
      match Index(fields["programWeek"], Day(c))
      case None => FALLBACK_MARK
      case Some(day) =>
        match Index(day, Slot(c))
        case None => FALLBACK_MARK
        case Some(mark) => mark
  }

  /** A program of seven days of 48 slots each. */
  predicate WellFormed(program: Value) {
    program.Arr? && |program.items| == DAYS_PER_WEEK
    && forall d :: 0 <= d < |program.items| ==>
         program.items[d].Arr? && |program.items[d].items| == SLOTS_PER_DAY
  }

  /** With a well-formed program the mark is the entry of the current day and slot, never the fallback. */
  lemma MarkOfWellFormed(fields: map<string, Value>, c: Clock)
    requires Valid(c) && "programWeek" in fields && WellFormed(fields["programWeek"])
    ensures Mark(fields, c) == fields["programWeek"].items[Day(c)].items[Slot(c)]
  {
  }

  /**
   * Whenever `programWeek[day][slot]` cannot be taken, the mark is the
   * fallback: no program, a program that is null or cannot be indexed or is
   * too short for the day, and a day entry that cannot be indexed or is too
   * short for the slot. Otherwise it is that entry.
   */
  lemma MarkFallback(fields: map<string, Value>, c: Clock)
    requires Valid(c)
    ensures var week := if "programWeek" in fields then Some(fields["programWeek"]) else None;
      var day := if week.Some? then Index(week.value, Day(c)) else None;
      var mark := if day.Some? then Index(day.value, Slot(c)) else None;
      (mark.None? ==> Mark(fields, c) == FALLBACK_MARK)
      && (mark.Some? ==> Mark(fields, c) == mark.value)
    ensures "programWeek" in fields && !fields["programWeek"].Arr? && !fields["programWeek"].Str?
      ==> Mark(fields, c) == FALLBACK_MARK
    ensures "programWeek" in fields && fields["programWeek"].Arr? && |fields["programWeek"].items| <= Day(c)
      ==> Mark(fields, c) == FALLBACK_MARK
    ensures "programWeek" in fields && fields["programWeek"].Arr? && Day(c) < |fields["programWeek"].items| ==>
      var day := fields["programWeek"].items[Day(c)];
      ((!day.Arr? && !day.Str?) || (day.Arr? && |day.items| <= Slot(c))) ==> Mark(fields, c) == FALLBACK_MARK
  {
  }
}
