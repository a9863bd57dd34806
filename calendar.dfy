/** The instants a query works on, and the calendar-arithmetic primitive
    (`instant + relativedelta(**kwargs)`) that the query applies once per step. */
module Calendar {
  import opened Wrappers

  /** A naive date-time, field by field, as Python's `datetime` exposes it. */
  datatype Instant = Instant(year: int, month: int, day: int,
                             hour: int, minute: int, second: int, microsecond: int)

  /** What `datetime.date()` keeps. */
  datatype CalendarDate = CalendarDate(year: int, month: int, day: int)

  /** What `datetime.time()` keeps. */
  datatype TimeOfDay = TimeOfDay(hour: int, minute: int, second: int, microsecond: int)

  function DateOf(t: Instant): CalendarDate {
    CalendarDate(t.year, t.month, t.day)
  }

  function TimeOf(t: Instant): TimeOfDay {
    TimeOfDay(t.hour, t.minute, t.second, t.microsecond)
  }

  /** The date part and the time-of-day part together lose nothing: two
      instants that agree on both are the same instant. */
  lemma DateAndTimeDetermineInstant(t1: Instant, t2: Instant)
    ensures DateOf(t1) == DateOf(t2) && TimeOf(t1) == TimeOf(t2) <==> t1 == t2
  {
  }

  /** The keyword arguments of `relativedelta` that the transform table uses.
      In a spec, a field under `absolute` is a singular keyword (`month=1`,
      `weekday=0`, `hour=0`, ...) that sets the field; a field under `relative`
      is a plural keyword (`years=1`, `weeks=-1`, ...) that adds an offset. */
  datatype Field = Year | Month | Week | Day | Weekday | Hour | Minute | Second | Microsecond

  /** The keyword arguments of one `relativedelta(**kwargs)` call. */
  datatype Spec = Spec(absolute: map<Field, int>, relative: map<Field, int>)

  /** Python truthiness of the kwargs dict: an empty dict is false. */
  predicate IsEmpty(s: Spec) {
    |s.absolute| == 0 && |s.relative| == 0
  }

  /** The calendar-arithmetic primitive: `instant + relativedelta(**spec)`,
      or None where it raises (a result outside the years 1 to 9999, say).
      It belongs to a library outside this model and is passed in as a value;
      everything proved about a query holds for every such primitive. */
  type Primitive = (Instant, Spec) -> Option<Instant>

  /** The smallest value a field can be set to. */
  function Least(f: Field): int {
    if f == Month || f == Day then 1 else 0
  }

  /** An absolute assignment the primitive can perform as a plain overwrite:
      no offsets, no weekday, every value in range, and a month only together
      with a day of at most 28. A day that is kept, or set above 28, may be
      clamped to the end of the new month, so neither case is plain. */
  predicate IsPlainOverwrite(s: Spec) {
    && s.relative == map[]
    && (forall f :: f in s.absolute ==> f in {Month, Day, Hour, Minute, Second, Microsecond})
    && (Month in s.absolute ==> Day in s.absolute)
    && (Month in s.absolute ==> 1 <= s.absolute[Month] <= 12)
    && (Day in s.absolute ==> 1 <= s.absolute[Day] <= 28)
    && (Hour in s.absolute ==> 0 <= s.absolute[Hour] <= 23)
    && (Minute in s.absolute ==> 0 <= s.absolute[Minute] <= 59)
    && (Second in s.absolute ==> 0 <= s.absolute[Second] <= 59)
    && (Microsecond in s.absolute ==> 0 <= s.absolute[Microsecond] <= 999999)
  }

  /** `t` with every field named in `fields` replaced by its value there. */
  function Overwrite(t: Instant, fields: map<Field, int>): Instant {
    Instant(t.year,
            if Month in fields then fields[Month] else t.month,
            if Day in fields then fields[Day] else t.day,
            if Hour in fields then fields[Hour] else t.hour,
            if Minute in fields then fields[Minute] else t.minute,
            if Second in fields then fields[Second] else t.second,
            if Microsecond in fields then fields[Microsecond] else t.microsecond)
  }

  /** The primitive replaces the fields of a plain overwrite, keeps the
      other fields and does not fail. On a real date this is what
      `relativedelta` does with such arguments: the new day exists in every
      month and no field leaves its range. */
  ghost predicate ExactOnPlainOverwrites(cal: Primitive) {
    forall t: Instant, s: Spec :: IsPlainOverwrite(s) ==> cal(t, s) == Some(Overwrite(t, s.absolute))
  }
}
