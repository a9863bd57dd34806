/** The `Query` builder: a reference instant, a chain of transform steps that
    chaining extends on a fresh copy, and a result that is computed on first
    successful use and then kept. */
module Queries {
  import opened Wrappers
  import opened Calendar
  import opened TransformTable

  /** The instant evaluation starts from: `as_of`, or the clock reading when
      `as_of` is unset. */
  function StartOf(asOf: Option<Instant>, now: Instant): Instant {
    match asOf
    case Some(t) => t
    case None => now
  }

  /** The clock reading matters only when `as_of` is unset. */
  lemma ClockReadOnlyWithoutAsOf(asOf: Option<Instant>, now1: Instant, now2: Instant)
    ensures asOf.Some? ==> StartOf(asOf, now1) == StartOf(asOf, now2) == asOf.value
    ensures asOf.None? ==> StartOf(asOf, now1) == now1
  {
  }

  /** The chain applied step after step: the primitive is called once per
      step with that step's keyword arguments, on the previous step's output;
      the first step it fails on ends the evaluation with that failure. A
      primitive that never fails makes every chain evaluate. */
  function Fold(cal: Primitive, start: Instant, steps: seq<Step>): (r: Option<Instant>)
    ensures (forall t, s :: cal(t, s).Some?) ==> r.Some?
    decreases |steps|
  {
    if steps == [] then Some(start)
    else
      match Fold(cal, start, steps[..|steps| - 1])
      case None => None
      case Some(t) => cal(t, SpecOf(steps[|steps| - 1]))
  }

  /** Evaluating a chain is evaluating its first part and then, from there,
      the rest; a failure in the first part is the failure of the whole. */
  lemma {:induction false} FoldAppend(cal: Primitive, start: Instant, a: seq<Step>, b: seq<Step>)
    ensures Fold(cal, start, a).None? ==> Fold(cal, start, a + b) == None
    ensures Fold(cal, start, a).Some? ==> Fold(cal, start, a + b) == Fold(cal, Fold(cal, start, a).value, b)
    decreases |b|
  {
    if b == [] {
      assert a + b == a;
    } else {
      var init := b[..|b| - 1];
      assert (a + b)[..|a + b| - 1] == a + init;
      assert (a + b)[|a + b| - 1] == b[|b| - 1];
      FoldAppend(cal, start, a, init);
    }
  }

  /** The empty chain yields the start instant; otherwise the first step is
      applied to the start and the rest of the chain to its output. */
  lemma FoldFromTheFront(cal: Primitive, start: Instant, steps: seq<Step>)
    ensures steps == [] ==> Fold(cal, start, steps) == Some(start)
    ensures steps != [] ==>
              Fold(cal, start, steps) ==
                match cal(start, SpecOf(steps[0]))
                case None => None
                case Some(t) => Fold(cal, t, steps[1..])
  {
    if steps != [] {
      var first := [steps[0]];
      assert first + steps[1..] == steps;
      assert first[..0] == [];
      assert Fold(cal, start, first) == cal(start, SpecOf(steps[0]));
      FoldAppend(cal, start, first, steps[1..]);
      match cal(start, SpecOf(steps[0]))
      case None =>
      case Some(t) =>
    }
  }

  /** With a primitive that performs plain overwrites exactly, `beginning_of`
      a year or a month resets the date fields and keeps the time of day,
      while `beginning_of` a day, an hour or a minute zeroes the finer
      time-of-day fields and keeps the rest. */
  lemma BeginningOfResults(cal: Primitive, start: Instant, u: Unit)
    requires ExactOnPlainOverwrites(cal)
    ensures u == YearUnit ==> Fold(cal, start, [(BeginningOf, u)]) == Some(start.(month := 1, day := 1))
    ensures u == MonthUnit ==> Fold(cal, start, [(BeginningOf, u)]) == Some(start.(day := 1))
    ensures u == DayUnit ==>
              Fold(cal, start, [(BeginningOf, u)]) == Some(start.(hour := 0, minute := 0, second := 0, microsecond := 0))
    ensures u == HourUnit ==>
              Fold(cal, start, [(BeginningOf, u)]) == Some(start.(minute := 0, second := 0, microsecond := 0))
    ensures u == MinuteUnit ==>
              Fold(cal, start, [(BeginningOf, u)]) == Some(start.(second := 0, microsecond := 0))
  {
    var steps := [(BeginningOf, u)];
    assert steps[..0] == [];
    if u != WeekUnit {
      BeginningOfTruncates(u);
      BeginningOfIsPlainExceptWeek(u);
      assert Fold(cal, start, steps) == Some(Overwrite(start, SpecOf((BeginningOf, u)).absolute));
      if u == DayUnit {
        // The date is kept and the time of day zeroed, which pins the instant.
        var r := Overwrite(start, SpecOf((BeginningOf, u)).absolute);
        assert DateOf(r) == DateOf(start) && TimeOf(r) == TimeOfDay(0, 0, 0, 0);
        DateAndTimeDetermineInstant(r, start.(hour := 0, minute := 0, second := 0, microsecond := 0));
      }
    }
  }

  class Query {
    var asOf: Option<Instant>
    var transforms: seq<Step>
    var transformed: Option<Instant>

    /** A query over `asOf` (unset: the clock at first evaluation) with no
        steps and nothing evaluated. */
    constructor (asOf: Option<Instant>)
      ensures this.asOf == asOf && transforms == [] && transformed == None
    {
      this.asOf := asOf;
      transforms := [];
      transformed := None;
    }

    /** A fresh query with the same reference instant and a copy of the chain. */
    method Clone() returns (c: Query)
      ensures fresh(c)
      ensures c.asOf == asOf && c.transforms == transforms && c.transformed == None
    {
      c := new Query(asOf);
      c.transforms := transforms;
    }

    /** Chaining: validate the step, then return a clone with the step
        appended. The receiver is never modified (nothing is in a modifies
        clause), and on failure no clone exists. */
    method AddTransform(typeName: string, unitName: string) returns (r: Result<Query, TransformError>)
      ensures r.Success? <==> Lookup(typeName, unitName).Success?
      ensures r.Failure? ==> Lookup(typeName, unitName) == Failure(r.error)
      ensures r.Success? ==> fresh(r.value)
      ensures r.Success? ==> r.value.asOf == asOf && r.value.transformed == None
      ensures r.Success? ==> r.value.transforms == transforms + [Lookup(typeName, unitName).value]
    {
      var kwargs := Lookup(typeName, unitName);
      if kwargs.Failure? {
        return Failure(kwargs.error);
      }
      var clone := Clone();
      clone.transforms := clone.transforms + [kwargs.value];
      return Success(clone);
    }

    /** The shortcut method registered under `name` (such as "next_week"):
        `_add_transform` with the type and unit the name joins; it cannot fail. */
    method Shortcut(name: string) returns (q: Query)
      requires name in Shortcuts()
      ensures fresh(q)
      ensures q.asOf == asOf && q.transformed == None
      ensures q.transforms == transforms + [Shortcuts()[name]]
    {
      var step := Shortcuts()[name];
      NamesParseBack(step.0, step.1);
      var r := AddTransform(step.0.Name(), step.1.Name());
      q := r.value;
    }

    /** The alias method registered under `name` (such as "midnight"): the
        shortcut method named by the aliased type and unit. */
    method Alias(name: string) returns (q: Query)
      requires name in ALIASES
      ensures fresh(q)
      ensures q.asOf == asOf && q.transformed == None
      ensures q.transforms == transforms + [ALIASES[name]]
    {
      q := Shortcut(ShortcutName(ALIASES[name]));
    }

    /** Evaluation. With a cached result, return it as it is, whatever the
        clock reads by then. Otherwise fold the chain from the start instant
        and cache the result; if a step fails, the failure propagates (None)
        and nothing is cached, so the next call evaluates afresh. */
    method Transform(cal: Primitive, now: Instant) returns (r: Option<Instant>)
      modifies this`transformed
      ensures old(transformed).Some? ==> r == old(transformed) && transformed == r
      ensures old(transformed).None? ==> r == Fold(cal, StartOf(asOf, now), transforms)
      ensures old(transformed).None? ==> transformed == r
    {
      if transformed.None? {
        ghost var start := StartOf(asOf, now);
        var acc := StartOf(asOf, now);
        for i := 0 to |transforms|
          invariant Fold(cal, start, transforms[..i]) == Some(acc)
        {
          assert transforms[..i + 1][..i] == transforms[..i];
          var next := cal(acc, TransformKwargs(transforms[i].0, transforms[i].1));
          if next.None? {
            assert transforms[..i + 1] + transforms[i + 1..] == transforms;
            FoldAppend(cal, start, transforms[..i + 1], transforms[i + 1..]);
            return None;
          }
          acc := next.value;
        }
        assert transforms[..|transforms|] == transforms;
        transformed := Some(acc);
      }
      r := transformed;
    }

    /** The evaluated instant. */
    method DateTime(cal: Primitive, now: Instant) returns (r: Option<Instant>)
      modifies this`transformed
      ensures old(transformed).Some? ==> r == old(transformed) && transformed == r
      ensures old(transformed).None? ==> r == Fold(cal, StartOf(asOf, now), transforms)
      ensures old(transformed).None? ==> transformed == r
    {
      r := Transform(cal, now);
    }

    /** The date part of the evaluated instant. */
    method Date(cal: Primitive, now: Instant) returns (d: Option<CalendarDate>)
      modifies this`transformed
      ensures transformed.Some? ==> d == Some(DateOf(transformed.value))
      ensures transformed.None? ==> d == None
      ensures old(transformed).Some? ==> transformed == old(transformed)
      ensures old(transformed).None? ==> transformed == Fold(cal, StartOf(asOf, now), transforms)
    {
      var r := DateTime(cal, now);
      d := if r.Some? then Some(DateOf(r.value)) else None;
    }

    /** The time-of-day part of the evaluated instant. */
    method Time(cal: Primitive, now: Instant) returns (tod: Option<TimeOfDay>)
      modifies this`transformed
      ensures transformed.Some? ==> tod == Some(TimeOf(transformed.value))
      ensures transformed.None? ==> tod == None
      ensures old(transformed).Some? ==> transformed == old(transformed)
      ensures old(transformed).None? ==> transformed == Fold(cal, StartOf(asOf, now), transforms)
    {
      var r := DateTime(cal, now);
      tod := if r.Some? then Some(TimeOf(r.value)) else None;
    }
  }

  /** The date and the time of day of a query come from one evaluation: once
      it has succeeded, a later clock reading changes neither. */
  method ProjectionsShareOneEvaluation(q: Query, cal: Primitive, now1: Instant, now2: Instant)
    returns (dt: Option<Instant>, d: Option<CalendarDate>, tod: Option<TimeOfDay>)
    modifies q`transformed
    ensures dt.Some? ==> d == Some(DateOf(dt.value)) && tod == Some(TimeOf(dt.value))
    ensures old(q.transformed).Some? ==> dt == old(q.transformed)
    ensures old(q.transformed).None? ==> dt == Fold(cal, StartOf(q.asOf, now1), q.transforms)
  {
    dt := q.DateTime(cal, now1);
    d := q.Date(cal, now2);
    tod := q.Time(cal, now2);
  }

  /** Chaining on an unevaluated query and evaluating the new query leave the
      first query's reference instant and chain as they were, so it later
      evaluates its own chain; the new query evaluates the longer chain. */
  method ChainingLeavesReceiverAlone(q0: Query, cal: Primitive, now: Instant)
    returns (chained: Option<Instant>, after: Option<Instant>)
    requires q0.transformed == None
    modifies q0
    ensures q0.asOf == old(q0.asOf) && q0.transforms == old(q0.transforms)
    ensures chained == Fold(cal, StartOf(old(q0.asOf), now),
                            old(q0.transforms) + [(Next, DayUnit), (BeginningOf, DayUnit)])
    ensures after == Fold(cal, StartOf(old(q0.asOf), now), old(q0.transforms))
  {
    assert ShortcutName((Next, DayUnit)) == "next_day";
    var q1 := q0.Shortcut("next_day");
    var q2 := q1.Alias("midnight");
    assert q2.transforms == q0.transforms + [(Next, DayUnit), (BeginningOf, DayUnit)];
    chained := q2.DateTime(cal, now);
    after := q0.DateTime(cal, now);
  }
}
