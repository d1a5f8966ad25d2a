# whenever_time_period: right-open clock-time periods

A model of the period classes of `whenever_time_period`: right-open intervals
of `whenever.Time` values over one day, in three variants.

- `LinearTimePeriod` is `[start, end)` with `start < end`.
- `ModularTimePeriod` wraps round midnight: `end < start`, and it holds every time from
  `start` on or before `end`.
- `InfiniteTimePeriod` has `start == end` and holds every time.

Each variant validates its endpoints when it is built and raises `ValueError` when
they are wrong. Each has a membership test (`x in p`). The Linear & Linear
intersection is implemented in closed form. Every other intersection raises
`NotImplementedError`. `ModularTimePeriod.normalise` splits a wrapping period into a
piece anchored at `Time.MIDNIGHT` and a piece ending at `Time.MAX`. Either piece may
degenerate into a bare `Time`.

The classes exist in two copies. `time_period.py` holds all three, with the
dispatched Linear & Linear intersection. `linear.py`, `modular.py` and `infinite.py`
hold one class each, and there every `__and__` raises. The validation, membership
and normalise bodies are the same in both copies. The model therefore has them once,
in module `TimePeriod`. Modules `LinearPeriod`, `ModularPeriod` and `InfinitePeriod`
add the split files' own `__and__` and state their cases.

Modules:

- `Clock`: a `Time` is an integer of nanoseconds after midnight, from `MIDNIGHT = 0` to
  `MAX` (23:59:59.999999999). `Hour(h)` is `Time(h)`.
- `Outcomes`: `Result` (a value, or `ValueError` / `NotImplementedError`) and `Option`.
- `TimePeriod` (`time_period.py`): the `Period` datatype, one constructor per variant,
  `Contains`, `Intersect`, the sort key and `Normalise`.
- `LinearPeriod`, `ModularPeriod`, `InfinitePeriod`: the split files.

The ordering that `sorted` uses comes from `abstract.TimePeriod`, which is not part
of this model. It is modelled as: a period compares by its start time, and a bare
`Time` by its own value. `sorted` is stable.

Where the docstrings and the code disagree, the model follows the code. For
`ModularTimePeriod(5, MIDNIGHT).normalise()` the docstrings give
`[Linear(5, MAX), Time.MAX]`. The code returns `[Time.MIDNIGHT, Linear(5, MAX)]`, and
the tests expect that too. The sentinel is `Time.MIDNIGHT` and it sorts first, because
its key `MIDNIGHT` is below `start`.

## Model

| member | source | states |
|---|---|---|
| TimePeriod.NewLinear | src/whenever_time_period/time_period.py:21-23 | construction succeeds iff `start < end`, otherwise `ValueError`; the accepted period keeps the given endpoints and is valid |
| TimePeriod.ExactlyOneVariantAccepts | src/whenever_time_period/time_period.py:21-126 | for any pair of endpoints exactly one of the three constructors accepts it |
| TimePeriod.LinearBoundaries | src/whenever_time_period/time_period.py:25-26 | a linear period holds its start, not its end, nothing before its start, and only times in `[start, end)` |
| TimePeriod.LinearWithinIffBounds | src/whenever_time_period/time_period.py:25-26 | every member of linear `c` is a member of linear `d` iff `d.start <= c.start` and `c.end <= d.end` |
| TimePeriod.Intersect | src/whenever_time_period/time_period.py:28-46 | `a & b` returns a value iff both are linear, otherwise raises `NotImplementedError`; it never raises `ValueError`; a returned period is a valid linear one, and `x` is in the result iff `x` is in both operands |
| TimePeriod.IntersectNoneIffDisjoint | src/whenever_time_period/time_period.py:28-36 | Linear & Linear is `None` iff no time lies in both (so touching periods give `None`) |
| TimePeriod.IntersectIsMeet | src/whenever_time_period/time_period.py:28-36 | the intersection lies within both operands, and a linear period lies within both iff the intersection exists and contains it |
| TimePeriod.IntersectCommutes | src/whenever_time_period/time_period.py:28-46 | `a & b == b & a` for every pair of valid periods, including the raising pairs |
| TimePeriod.IntersectIdempotent | src/whenever_time_period/time_period.py:28-36 | `X & X == X` for a linear `X` |
| TimePeriod.IntersectExamples | src/whenever_time_period/time_period.py:28-36 | disjoint `[5,10)&[12,15)` is `None`, `[5,10)&[8,12)` is `[8,10)`, nested gives the inner period, touching `[8,10)&[10,12)` and `[8,10)&[6,8)` are `None`, Linear & Modular raises |
| TimePeriod.NewModular | src/whenever_time_period/time_period.py:69-71 | construction succeeds iff `end < start`, otherwise `ValueError`; the accepted period keeps the given endpoints |
| TimePeriod.ModularIsComplement | src/whenever_time_period/time_period.py:73-74 | a modular period holds exactly the times outside `[end, start)`; it holds its start and `MAX`, not its end, and holds `MIDNIGHT` iff `end != MIDNIGHT` |
| TimePeriod.Sorted2 | src/whenever_time_period/time_period.py:115 | `sorted` of two pieces is a permutation of them, ascending by start, and keeps their order when already ascending (stable) |
| TimePeriod.Normalise | src/whenever_time_period/time_period.py:100-115 | normalise never raises; the result has one element iff `start == MAX` and `end == MIDNIGHT`, otherwise two, sorted by start, the first keyed `MIDNIGHT` and the second keyed `start`; every period in it is a valid linear one |
| TimePeriod.NormaliseCases | src/whenever_time_period/time_period.py:100-115 | the exact result of each branch: `[MAX]`; `[Linear(MIDNIGHT,end), Linear(start,MAX)]`; `[Linear(MIDNIGHT,end), MAX]`; `[MIDNIGHT, Linear(start,MAX)]` |
| TimePeriod.NormaliseKeepsMembers | src/whenever_time_period/time_period.py:104-115 | for every time other than `MAX`, it is in the modular period iff it is in one of the linear pieces |
| TimePeriod.NormaliseDropsMax | src/whenever_time_period/time_period.py:104-115 | `MAX` is in every modular period but in none of its linear pieces |
| TimePeriod.NormalisePiecesDisjoint | src/whenever_time_period/time_period.py:104-113 | when both pieces are periods, their intersection is `None` |
| TimePeriod.NewInfinite | src/whenever_time_period/time_period.py:124-126 | construction succeeds iff `start == end`, otherwise `ValueError`; the accepted period keeps the given endpoints |
| TimePeriod.InfiniteContainsAll | src/whenever_time_period/time_period.py:128-131 | an infinite period holds every time, so every period lies within it |
| LinearPeriod.And | src/whenever_time_period/linear.py:24-25 | `__and__` of the split class raises `NotImplementedError` for any operand |
| LinearPeriod.AndRaisesWhereDispatchAnswers | src/whenever_time_period/linear.py:24-25 | on two linear periods the split class raises where the `time_period.py` class returns a value |
| LinearPeriod.ConstructionCases | src/whenever_time_period/linear.py:17-19 | `(0,1)` is accepted with its endpoints kept; `(1,0)` and `(1,1)` raise `ValueError` |
| LinearPeriod.MembershipCases | src/whenever_time_period/linear.py:21-22 | in `[5,10)`: 5 and the times up to the end are members; 10, the time before 5 and `MAX` are not |
| ModularPeriod.And | src/whenever_time_period/modular.py:26-27 | `__and__` raises `NotImplementedError` for any operand |
| ModularPeriod.ConstructionCases | src/whenever_time_period/modular.py:19-21 | `(1,0)` is accepted with its endpoints kept; `(0,1)` and `(1,1)` raise `ValueError` |
| ModularPeriod.MembershipGap | src/whenever_time_period/modular.py:23-24 | a time is excluded iff `end <= x < start` |
| ModularPeriod.MembershipCases | src/whenever_time_period/modular.py:23-24 | for `(10,5)`: 10, 23, `MAX`, `MIDNIGHT` and 4 are members; 5, 7 and the time before 10 are not |
| ModularPeriod.NormaliseExamples | src/whenever_time_period/modular.py:50-65 | `(10,5)`, `(MAX,5)`, `(5,MIDNIGHT)` and `(MAX,MIDNIGHT)` normalise to the lists the code builds, with the `MIDNIGHT` sentinel first for `(5,MIDNIGHT)` |
| InfinitePeriod.And | src/whenever_time_period/infinite.py:23-24 | `__and__` raises `NotImplementedError` for any operand |
| InfinitePeriod.ConstructionCases | src/whenever_time_period/infinite.py:14-16 | `(1,1)` is accepted with both endpoints the same time; `(0,1)` and `(1,0)` raise `ValueError` |
| InfinitePeriod.MembershipCases | src/whenever_time_period/infinite.py:18-21 | its start, its end, `MIDNIGHT`, `MAX` and any other time are members |

## Left out

- The intersection algebra beyond Linear & Linear: Linear & Modular, Linear & Infinite, Modular & any, and Infinite & any. This covers the two-piece results, the identity element and Wrapping & Wrapping. The code raises `NotImplementedError` for all of these, and the model returns that error rather than inventing results.
- The `isinstance(other, Time)` test in the infinite `__contains__`: in the typed model the argument is always a `Time`.
- The `plum` dispatch machinery and the `print` calls in the two raising overloads. The model keeps only which pairs answer and which raise.
- `whenever.Time` itself: it is abstracted to a bounded integer of nanoseconds with its order, `MIDNIGHT`, `MAX` and the hour constructor.
- `abstract.TimePeriod`: only the fields and an ordering by start time are assumed. Its dataclass-generated equality and repr are taken as value equality.
- Reassigning `start_time`/`end_time` after construction: the dataclasses are mutable and nothing re-checks the invariant. The model treats periods as immutable values that stay valid.
- The test harness (pytest parametrisation, random case generation, `generate_integers`). Its concrete expected values appear as the `…Cases` and `…Examples` lemmas. The empty intersection-case generators promise nothing.
