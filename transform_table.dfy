/** The fixed configuration of `Query`: the transform types and units, the
    table from (type, unit) to relativedelta keyword arguments, the alias
    table, and the names under which the shortcut methods are registered. */
module TransformTable {
  import opened Wrappers
  import opened Calendar

  /** The transform types; `Name()` is the string the Python code uses. */
  datatype TransformType = BeginningOf | Next | Last {
    function Name(): string {
      match this
      case BeginningOf => "beginning_of"
      case Next => "next"
      case Last => "last"
    }
  }

  /** The transform units; `Name()` is the string the Python code uses. */
  datatype Unit = YearUnit | MonthUnit | WeekUnit | DayUnit | HourUnit | MinuteUnit {
    function Name(): string {
      match this
      case YearUnit => "year"
      case MonthUnit => "month"
      case WeekUnit => "week"
      case DayUnit => "day"
      case HourUnit => "hour"
      case MinuteUnit => "minute"
    }

    /** The calendar field the unit names. */
    function OffsetField(): Field {
      match this
      case YearUnit => Year
      case MonthUnit => Month
      case WeekUnit => Week
      case DayUnit => Day
      case HourUnit => Hour
      case MinuteUnit => Minute
    }
  }

  const TYPES: set<TransformType> := {BeginningOf, Next, Last}
  const UNITS: set<Unit> := {YearUnit, MonthUnit, WeekUnit, DayUnit, HourUnit, MinuteUnit}

  /** One link of a chain: (transform type, transform unit). */
  type Step = (TransformType, Unit)

  /** The keyword arguments each transform hands to `relativedelta`: never
      empty; `beginning_of` assigns fields, `next` and `last` only add one
      offset. */
  function TransformKwargs(t: TransformType, u: Unit): (r: Spec)
    ensures !IsEmpty(r)
    ensures t == BeginningOf <==> r.absolute != map[]
    ensures t != BeginningOf ==> |r.relative| == 1
  {
    match t
    case BeginningOf =>
      (match u
       case YearUnit => Spec(map[Month := 1, Day := 1], map[])
       case MonthUnit => Spec(map[Day := 1], map[])
       case WeekUnit => Spec(map[Weekday := 0], map[Week := -1])
       case DayUnit => Spec(map[Hour := 0, Minute := 0, Second := 0, Microsecond := 0], map[])
       case HourUnit => Spec(map[Minute := 0, Second := 0, Microsecond := 0], map[])
       case MinuteUnit => Spec(map[Second := 0, Microsecond := 0], map[]))
    case Next =>
      (match u
       case YearUnit => Spec(map[], map[Year := 1])
       case MonthUnit => Spec(map[], map[Month := 1])
       case WeekUnit => Spec(map[], map[Week := 1])
       case DayUnit => Spec(map[], map[Day := 1])
       case HourUnit => Spec(map[], map[Hour := 1])
       case MinuteUnit => Spec(map[], map[Minute := 1]))
    case Last =>
      (match u
       case YearUnit => Spec(map[], map[Year := -1])
       case MonthUnit => Spec(map[], map[Month := -1])
       case WeekUnit => Spec(map[], map[Week := -1])
       case DayUnit => Spec(map[], map[Day := -1])
       case HourUnit => Spec(map[], map[Hour := -1])
       case MinuteUnit => Spec(map[], map[Minute := -1]))
  }

  function SpecOf(s: Step): Spec {
    TransformKwargs(s.0, s.1)
  }

  /** Friendly names that forward to a table entry. */
  const ALIASES: map<string, Step> := map[
    "midnight" := (BeginningOf, DayUnit),
    "yesterday" := (Last, DayUnit),
    "tomorrow" := (Next, DayUnit)
  ]

  /** The type a string names, as the outer dict lookup finds it. */
  function ParseType(s: string): (r: Option<TransformType>)
    ensures r.Some? ==> r.value.Name() == s
  {
    if s == "beginning_of" then Some(BeginningOf)
    else if s == "next" then Some(Next)
    else if s == "last" then Some(Last)
    else None
  }

  /** The unit a string names, as the inner dict lookup finds it. */
  function ParseUnit(s: string): (r: Option<Unit>)
    ensures r.Some? ==> r.value.Name() == s
  {
    if s == "year" then Some(YearUnit)
    else if s == "month" then Some(MonthUnit)
    else if s == "week" then Some(WeekUnit)
    else if s == "day" then Some(DayUnit)
    else if s == "hour" then Some(HourUnit)
    else if s == "minute" then Some(MinuteUnit)
    else None
  }

  /** Every type and every unit is found under its own name. */
  lemma NamesParseBack(t: TransformType, u: Unit)
    ensures ParseType(t.Name()) == Some(t)
    ensures ParseUnit(u.Name()) == Some(u)
  {
  }

  /** The exceptions `_add_transform` raises. The unit branch formats its
      message with the misspelt name `trasnform_unit`, so what it raises is a
      NameError for that name, not the intended ValueError. */
  datatype TransformError =
    | UnknownTransformType(typeName: string)
    | UndefinedName(name: string)

  /** The validation half of `_add_transform`: look the type up, then the
      unit, and fail on a missing or empty (falsy) entry. */
  function Lookup(typeName: string, unitName: string): (r: Result<Step, TransformError>)
    ensures r.Success? <==> ParseType(typeName).Some? && ParseUnit(unitName).Some?
    ensures r.Success? ==> r.value.0.Name() == typeName && r.value.1.Name() == unitName
    ensures r.Success? ==> !IsEmpty(SpecOf(r.value))
    ensures ParseType(typeName).None? ==> r == Failure(UnknownTransformType(typeName))
    ensures ParseType(typeName).Some? && ParseUnit(unitName).None? ==>
              r == Failure(UndefinedName("trasnform_unit"))
  {
    match ParseType(typeName)
    case None => Failure(UnknownTransformType(typeName))
    case Some(t) =>
      match ParseUnit(unitName)
      case None => Failure(UndefinedName("trasnform_unit"))
      case Some(u) =>
        if IsEmpty(TransformKwargs(t, u)) then Failure(UndefinedName("trasnform_unit"))
        else Success((t, u))
  }

  /** Every (type, unit) pair of the table. */
  function ValidSteps(): set<Step> {
    set t, u | t in TYPES && u in UNITS :: (t, u)
  }

  function Product<A, B>(xs: set<A>, ys: set<B>): set<(A, B)> {
    set x, y | x in xs && y in ys :: (x, y)
  }

  lemma {:induction false} RowSize<A, B>(x: A, ys: set<B>)
    ensures |Product({x}, ys)| == |ys|
    decreases |ys|
  {
    if ys != {} {
      var y :| y in ys;
      RowSize(x, ys - {y});
      assert Product({x}, ys) == Product({x}, ys - {y}) + {(x, y)};
    } else {
      assert Product({x}, ys) == {};
    }
  }

  lemma MulDistributes(m: int, n: int)
    ensures m * n + n == (m + 1) * n
  {
  }

  lemma {:induction false} ProductSize<A, B>(xs: set<A>, ys: set<B>)
    ensures |Product(xs, ys)| == |xs| * |ys|
    decreases |xs|
  {
    if xs != {} {
      var x :| x in xs;
      var rest, row := Product(xs - {x}, ys), Product({x}, ys);
      ProductSize(xs - {x}, ys);
      RowSize(x, ys);
      assert Product(xs, ys) == rest + row by {
        forall p | p in Product(xs, ys)
          ensures p in rest + row
        {
          if p.0 == x {
            assert p in row;
          } else {
            assert p in rest;
          }
        }
      }
      assert rest !! row by {
        forall p | p in rest
          ensures p !in row
        {
        }
      }
      assert |xs - {x}| == |xs| - 1;
      calc {
        |Product(xs, ys)|;
        |rest| + |row|;
        (|xs| - 1) * |ys| + |ys|;
        { MulDistributes(|xs| - 1, |ys|); }
        |xs| * |ys|;
      }
    } else {
      assert Product(xs, ys) == {};
    }
  }

  /** The table is total: all 3 x 6 = 18 pairs are valid, and none of their
      keyword-argument dicts is empty. */
  lemma TableIsTotal()
    ensures |TYPES| == 3 && |UNITS| == 6 && |ValidSteps()| == 18
    ensures forall t, u :: (t, u) in ValidSteps()
    ensures forall s :: !IsEmpty(SpecOf(s))
  {
    assert ValidSteps() == Product(TYPES, UNITS);
    ProductSize(TYPES, UNITS);
    forall t: TransformType, u: Unit ensures (t, u) in ValidSteps() {
      assert t in TYPES by {
        match t
        case BeginningOf =>
        case Next =>
        case Last =>
      }
      assert u in UNITS by {
        match u
        case YearUnit =>
        case MonthUnit =>
        case WeekUnit =>
        case DayUnit =>
        case HourUnit =>
        case MinuteUnit =>
      }
    }
  }

  /** `next` and `last` each add a single offset, +1 and -1, to the field the
      unit names, and do nothing else. */
  lemma NextAndLastAreOppositeOffsets(u: Unit)
    ensures SpecOf((Next, u)) == Spec(map[], map[u.OffsetField() := 1])
    ensures SpecOf((Last, u)) == Spec(map[], map[u.OffsetField() := -1])
  {
  }

  /** The time-of-day fields strictly finer than a unit (none below a
      minute is a unit of its own). */
  function FinerTimeFields(u: Unit): set<Field> {
    match u
    case MinuteUnit => {Second, Microsecond}
    case HourUnit => {Minute, Second, Microsecond}
    case _ => {Hour, Minute, Second, Microsecond}
  }

  /** `beginning_of` a day, an hour or a minute sets every finer field to 0
      and adds no offset; `beginning_of` a year or a month sets only the
      finer date fields (to 1) and leaves the time of day alone;
      `beginning_of` a week pins the weekday to Monday after stepping back
      one week. */
  lemma BeginningOfTruncates(u: Unit)
    ensures u in {DayUnit, HourUnit, MinuteUnit} ==>
              SpecOf((BeginningOf, u)) == Spec(map f | f in FinerTimeFields(u) :: 0, map[])
    ensures u == YearUnit ==> SpecOf((BeginningOf, u)) == Spec(map[Month := Least(Month), Day := Least(Day)], map[])
    ensures u == MonthUnit ==> SpecOf((BeginningOf, u)) == Spec(map[Day := Least(Day)], map[])
    ensures u == WeekUnit ==> SpecOf((BeginningOf, u)) == Spec(map[Weekday := 0], map[Week := -1])
  {
  }

  /** Every `beginning_of` entry except the week's is a plain overwrite; the
      week's carries an offset and a weekday. */
  lemma BeginningOfIsPlainExceptWeek(u: Unit)
    ensures u != WeekUnit <==> IsPlainOverwrite(SpecOf((BeginningOf, u)))
  {
    var sp := SpecOf((BeginningOf, u));
    match u
    case YearUnit =>
      assert sp == Spec(map[Month := 1, Day := 1], map[]);
      assert sp.absolute.Keys == {Month, Day};
    case MonthUnit =>
      assert sp == Spec(map[Day := 1], map[]);
      assert sp.absolute.Keys == {Day};
    case WeekUnit =>
      assert Weekday in sp.absolute;
    case DayUnit =>
      assert sp == Spec(map[Hour := 0, Minute := 0, Second := 0, Microsecond := 0], map[]);
      assert sp.absolute.Keys == {Hour, Minute, Second, Microsecond};
    case HourUnit =>
      assert sp == Spec(map[Minute := 0, Second := 0, Microsecond := 0], map[]);
      assert sp.absolute.Keys == {Minute, Second, Microsecond};
    case MinuteUnit =>
      assert sp == Spec(map[Second := 0, Microsecond := 0], map[]);
      assert sp.absolute.Keys == {Second, Microsecond};
  }

  /** The name a shortcut method is registered under: type and unit joined
      by an underscore, such as "beginning_of_month". */
  function ShortcutName(s: Step): string {
    s.0.Name() + "_" + s.1.Name()
  }

  /** In `a + "_" + b`, with no underscore in `b`, the last underscore is
      the joining one. */
  lemma LastUnderscore(a: string, b: string)
    requires '_' !in b
    ensures (a + "_" + b)[|a|] == '_'
    ensures forall k :: |a| < k < |a + "_" + b| ==> (a + "_" + b)[k] != '_'
  {
    forall k | |a| < k < |a + "_" + b|
      ensures (a + "_" + b)[k] != '_'
    {
      assert (a + "_" + b)[k] == b[k - |a| - 1];
    }
  }

  /** Two names joined by an underscore can be split again at the last
      underscore, as long as the second parts contain none. */
  lemma {:induction false} JoinIsInjective(a: string, b: string, c: string, d: string)
    requires '_' !in b && '_' !in d
    requires a + "_" + b == c + "_" + d
    ensures a == c && b == d
  {
    LastUnderscore(a, b);
    LastUnderscore(c, d);
    assert |a| == |c|;
    var x := a + "_" + b;
    assert a == x[..|a|] == c;
    assert b == x[|a| + 1..] == d;
  }

  /** The 18 registered shortcut names are pairwise distinct, so no
      registration overwrites another. */
  lemma ShortcutNamesAreDistinct(s1: Step, s2: Step)
    requires ShortcutName(s1) == ShortcutName(s2)
    ensures s1 == s2
  {
    JoinIsInjective(s1.0.Name(), s1.1.Name(), s2.0.Name(), s2.1.Name());
    NamesParseBack(s1.0, s1.1);
    NamesParseBack(s2.0, s2.1);
  }

  /** The methods the registration loop attaches, by name. */
  function Shortcuts(): (m: map<string, Step>)
    ensures forall s :: ShortcutName(s) in m && m[ShortcutName(s)] == s
    ensures forall name :: name in m ==> ShortcutName(m[name]) == name
  {
    forall s1, s2 | ShortcutName(s1) == ShortcutName(s2)
      ensures s1 == s2
    {
      ShortcutNamesAreDistinct(s1, s2);
    }
    TableIsTotal();
    map s | s in ValidSteps() :: ShortcutName(s) := s
  }

  /** Alias names contain no underscore, so none of them is a shortcut name
      and registering the aliases replaces no shortcut. */
  lemma AliasesAreNotShortcutNames(s: Step)
    ensures ShortcutName(s) !in ALIASES
  {
    assert ShortcutName(s)[|s.0.Name()|] == '_';
  }

  /** The step a registered method stands for: a shortcut by its joined
      name, an alias through the shortcut whose name it forwards to. */
  function Resolve(name: string): (r: Option<Step>)
    ensures name in ALIASES ==> r == Some(ALIASES[name])
    ensures forall s :: ShortcutName(s) == name ==> r == Some(s)
    ensures r.Some? ==> name in ALIASES || ShortcutName(r.value) == name
  {
    if name in ALIASES then
      assert forall s :: ShortcutName(s) != name by {
        forall s ensures ShortcutName(s) != name {
          AliasesAreNotShortcutNames(s);
        }
      }
      Get(Shortcuts(), ShortcutName(ALIASES[name]))
    else
      Get(Shortcuts(), name)
  }

  /** midnight, yesterday and tomorrow do what beginning_of_day, last_day
      and next_day do. */
  lemma AliasesMatchShortcuts()
    ensures Resolve("midnight") == Resolve("beginning_of_day") == Some((BeginningOf, DayUnit))
    ensures Resolve("yesterday") == Resolve("last_day") == Some((Last, DayUnit))
    ensures Resolve("tomorrow") == Resolve("next_day") == Some((Next, DayUnit))
  {
    assert ShortcutName((BeginningOf, DayUnit)) == "beginning_of_day";
    assert ShortcutName((Last, DayUnit)) == "last_day";
    assert ShortcutName((Next, DayUnit)) == "next_day";
  }
}
