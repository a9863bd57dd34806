# timequery: the Query builder, modelled in Dafny

timequery computes a point in time from a reference instant by applying a
chain of named calendar transforms, such as `last_month().beginning_of_month()`.
The model covers the `Query` class in `timequery/__init__.py`:

- **The transform table.** Three transform types (`beginning_of`, `next`, `last`) and six units
  (`year`, `month`, `week`, `day`, `hour`, `minute`) map to the keyword arguments
  that `relativedelta` receives. A `Spec` holds the absolute field assignments
  and the relative offsets of one such call.
- **Chaining.** `_add_transform` looks the type up, then the unit, and fails on a miss.
  Otherwise it clones the query and appends the step to the clone's chain only.
- **Evaluation.** `_transform` starts from `as_of`, or from the clock when that is unset,
  and adds the spec of every step, left to right. It caches the result in
  `transformed`, and every later call returns the cache. `datetime`, `date` and
  `time` read that one cached value. If a step raises (for example, a year past
  9999), the exception propagates and nothing is cached, so the next call
  evaluates again and may read the clock again.
- **Registered methods.** There is one shortcut method per (type, unit), named by
  joining the two with `_`. There are also three aliases: `midnight`, `yesterday`
  and `tomorrow`.

Modules: `Wrappers` (Option, Result, dict `get`), `Calendar` (instants, specs,
the calendar primitive), `TransformTable` (the constant tables, lookup, method
names), `Queries` (the fold and the `Query` class).

Design choices:

- **The calendar primitive.** `instant + relativedelta(**spec)` comes from a library outside this model.
  It is a function-valued parameter `cal` that returns `None` where the library
  raises, so every property of a query holds whatever the primitive does. Only
  `BeginningOfResults` makes an assumption about it, `ExactOnPlainOverwrites`.
  The assumption covers absolute-only arguments with in-range values, a day of
  at most 28, and a month only together with a day; such arguments replace those
  fields, keep the rest and do not fail. These are the cases where
  `relativedelta` does no clamping: a month set without a day would clamp
  January 31 to February 28.
- **The clock.** The clock reading is a parameter `now` of evaluation. It is used only on
  the first evaluation, and only when `as_of` is unset.
- **Steps.** Steps are pairs of the enumerations `TransformType` and `Unit`. `Name()` gives
  the string the Python code uses, and `ParseType`/`ParseUnit` are the dict lookups
  by string. Because every pair of the two enumerations is in the table
  (`TableIsTotal`), a stored chain cannot hold an invalid step.
- **Truthiness tests.** The checks `if not kwargs` (lines 62 and 65), `self.as_of or ...` (line 78)
  and `if not self.transformed` (line 77) are Python truthiness tests. A `datetime`
  is always true, so `as_of` and `transformed` are `Option`s and the cache test
  reads "no cached value". The kwargs test also rejects an empty entry. No
  entry of the table is empty, which `TableIsTotal` proves.
- **The unit error.** The unknown-unit branch formats its message with the misspelt name
  `trasnform_unit`. It therefore raises a NameError, not the ValueError the message
  intends, and the model returns `UndefinedName("trasnform_unit")` there.
  Either way the call fails before a clone exists.
- **Start of a year or month.** The table's `beginning_of` year entry sets only `month=1, day=1`, and the month
  entry sets only `day=1`. The time of day is kept, so 2024-01-15 13:45:30 goes to
  2024-01-01 13:45:30, not to midnight. The model follows the table, and
  `BeginningOfResults` states this.

## Model

| member | source | states |
|---|---|---|
| Calendar.DateAndTimeDetermineInstant | timequery/__init__.py:88-92 | two instants are equal exactly when their date parts and their time-of-day parts are, so `date()` and `time()` together lose nothing |
| TransformTable.ParseType | timequery/__init__.py:61-63 | a type found by string is the one whose name is that string |
| TransformTable.ParseUnit | timequery/__init__.py:64-66 | a unit found by string is the one whose name is that string |
| TransformTable.NamesParseBack | timequery/__init__.py:7-18 | every type and unit is found again under its own name |
| TransformTable.Lookup | timequery/__init__.py:59-66 | succeeds exactly when the type name and the unit name are known. On success it returns the step with those names, whose spec is non-empty. An unknown type fails as UnknownTransformType. A known type with an unknown unit fails as the NameError for `trasnform_unit` |
| TransformTable.TransformKwargs | timequery/__init__.py:27-52 | every entry is non-empty; a `beginning_of` entry assigns fields, and a `next` or `last` entry assigns none and adds exactly one offset |
| TransformTable.TableIsTotal | timequery/__init__.py:27-52 | the table has 3 types and 6 units. All 18 pairs are entries, and no entry is empty |
| TransformTable.NextAndLastAreOppositeOffsets | timequery/__init__.py:36-51 | for every unit, `next` is exactly offset +1 and `last` exactly offset -1 on the unit's own field, with nothing else |
| TransformTable.BeginningOfTruncates | timequery/__init__.py:28-35 | `beginning_of` day/hour/minute sets every finer time field to 0 with no offset. Year sets month and day to 1, and month sets day to 1. Week is weekday 0 with weeks -1 |
| TransformTable.BeginningOfIsPlainExceptWeek | timequery/__init__.py:28-35 | every `beginning_of` entry except the week's is a plain overwrite: in-range absolute fields, no offset, and a month only with a day |
| TransformTable.ShortcutNamesAreDistinct | timequery/__init__.py:101-105 | two steps with the same joined method name are the same step, so none of the 18 registrations overwrites another |
| TransformTable.Shortcuts | timequery/__init__.py:95-105 | the registered shortcut methods: each step is registered under its joined name, and every registered name is the joined name of its step |
| TransformTable.AliasesAreNotShortcutNames | timequery/__init__.py:115-117 | no alias name is a shortcut name, so registering the aliases replaces no shortcut |
| TransformTable.Resolve | timequery/__init__.py:108-117 | an alias resolves to its aliased step and a joined name to its own step. A name that resolves is one of these two |
| TransformTable.AliasesMatchShortcuts | timequery/__init__.py:21-25 | midnight, yesterday and tomorrow resolve to the same steps as beginning_of_day, last_day and next_day |
| Queries.ClockReadOnlyWithoutAsOf | timequery/__init__.py:78 | evaluation starts from `as_of` when it is set, whatever the clock reads, and from the clock reading only when it is unset |
| Queries.Fold | timequery/__init__.py:79-81 | the step-by-step application of the chain, failing at the first step the primitive fails on. With a primitive that never fails, every chain evaluates |
| Queries.FoldAppend | timequery/__init__.py:79-81 | evaluating a chain followed by more steps is evaluating the more steps from the chain's result. A failure in the first part is the failure of the whole |
| Queries.FoldFromTheFront | timequery/__init__.py:78-81 | the empty chain yields the start instant; otherwise the first step is applied to the start and the rest to its output, and a failing first step fails the chain |
| Queries.BeginningOfResults | timequery/__init__.py:28-34 | with a primitive exact on plain overwrites, these steps never fail. beginning_of year/month resets the date fields and keeps the time of day; day/hour/minute zero the finer time fields and keep the rest. For day this is shown through the date and time-of-day parts, which pin the instant |
| Queries.Query.constructor | timequery/__init__.py:54-57 | a new query has the given reference instant, an empty chain and no cached result |
| Queries.Query.Clone | timequery/__init__.py:71-74 | a fresh query with the same reference instant, the same chain and no cached result |
| Queries.Query.AddTransform | timequery/__init__.py:59-69 | succeeds exactly when the lookup does, and fails with the lookup's error. On success it returns a fresh query with the same reference instant, the chain plus the new step, and no cached result. The receiver is not modified |
| Queries.Query.Shortcut | timequery/__init__.py:95-99 | a registered shortcut never fails, and appends its own step to a fresh copy |
| Queries.Query.Alias | timequery/__init__.py:108-113 | an alias appends its aliased step to a fresh copy |
| Queries.Query.Transform | timequery/__init__.py:76-83 | with no cached result, it returns the fold of the chain from `as_of` (or the clock) and stores it, so a failure leaves nothing cached. With a cached result, it returns the cache unchanged, whatever the clock reads |
| Queries.Query.DateTime | timequery/__init__.py:85-86 | the evaluated, memoized instant, with the same cache behaviour as `Transform` |
| Queries.Query.Date | timequery/__init__.py:88-89 | the date part of the single cached instant, or failure when evaluation failed |
| Queries.Query.Time | timequery/__init__.py:91-92 | the time-of-day part of the single cached instant, or failure when evaluation failed |
| Queries.ProjectionsShareOneEvaluation | timequery/__init__.py:85-92 | changes only the cache. The instant is the cached one when there is a cache, and otherwise the fold of the query's own chain from its own start. Once evaluation has succeeded, the date and time of day read through `date` and `time` are projections of that same instant, even with a later clock |
| Queries.ChainingLeavesReceiverAlone | timequery/__init__.py:67-74 | chaining twice on an unevaluated query and evaluating the result leave the first query's reference instant and chain unchanged. The first query then evaluates its own chain, and the chained query evaluates the chain plus both steps |

## Left out

- The calendar arithmetic of `dateutil.relativedelta` is not part of this model. This covers month-end clamping, resolving `weekday=0` to a Monday, and rolling over into the next day, month or year. The primitive is a parameter.
- Queries.BeginningOfResults: says nothing about `beginning_of` week, because resolving `weekday=0` with `weeks=-1` belongs to `relativedelta`.
- `datetime.now()` is a clock, and its reading is the parameter `now`.
- The reflective registration (`setattr`, `MethodType`, `__name__`) is left out. The model keeps only the resulting name-to-step maps (`Shortcuts`, `Resolve`) and the `Shortcut` and `Alias` methods. Calling a name that is not registered (an AttributeError) is outside the model: `Shortcut` and `Alias` require a registered name.
- Queries.Query.AddTransform: states that a failure carries no query, not that no object was allocated, because Dafny contracts cannot say that nothing was allocated.
- Instants are records of unbounded integer fields. Calendar validity (month 1-12, days per month, leap years) is not modelled, nor is `.date()`/`.time()` beyond field projection. So `ExactOnPlainOverwrites` also speaks of records that are no real date, which `relativedelta` never receives.
- The exception the primitive raises is one `None`: the model does not tell its kinds apart (OverflowError, ValueError).
- Code outside the class can assign to `transforms`, `transformed` or the tables. This is not modelled; the tables are constants.
- Concurrency is left out. First evaluations racing on the same instance are not considered.
