/** The three right-open clock intervals of time_period.py and their algebra:
    validating construction, membership, the Linear x Linear intersection, and
    the normalisation of a wrapping period into pieces that do not wrap. */
module TimePeriod {
  import opened Clock
  import opened Outcomes

  /** LinearTimePeriod, ModularTimePeriod and InfiniteTimePeriod, each with
      its start_time and end_time */
  datatype Period =
    | Linear(start: Time, end: Time)
    | Modular(start: Time, end: Time)
    | Infinite(start: Time, end: Time)
  {
    /** The invariant each class's __post_init__ checks */
    predicate Valid() {
      match this
      case Linear(s, e) => s < e
      case Modular(s, e) => e < s
      case Infinite(s, e) => s == e
    }
  }

  // ---------------------------------------------------------------------------
  // Construction

  /** LinearTimePeriod(s, e): accepted exactly when s < e */
  function NewLinear(s: Time, e: Time): (r: Result<Period>)
    ensures r.Ok? <==> s < e
    ensures r.Ok? ==> r.value == Linear(s, e) && r.value.Valid()
    ensures r.Err? ==> r.error == ValueError
  {
    if s < e then Ok(Linear(s, e)) else Err(ValueError)
  }

  /** ModularTimePeriod(s, e): accepted exactly when e < s */
  function NewModular(s: Time, e: Time): (r: Result<Period>)
    ensures r.Ok? <==> e < s
    ensures r.Ok? ==> r.value == Modular(s, e) && r.value.Valid()
    ensures r.Err? ==> r.error == ValueError
  {
    if e < s then Ok(Modular(s, e)) else Err(ValueError)
  }

  /** InfiniteTimePeriod(s, e): accepted exactly when s == e */
  function NewInfinite(s: Time, e: Time): (r: Result<Period>)
    ensures r.Ok? <==> s == e
    ensures r.Ok? ==> r.value == Infinite(s, e) && r.value.Valid()
    ensures r.Err? ==> r.error == ValueError
  {
    if s == e then Ok(Infinite(s, e)) else Err(ValueError)
  }

  /** Exactly one of the three constructors accepts any pair of endpoints */
  lemma ExactlyOneVariantAccepts(s: Time, e: Time)
    ensures NewLinear(s, e).Ok? || NewModular(s, e).Ok? || NewInfinite(s, e).Ok?
    ensures !(NewLinear(s, e).Ok? && NewModular(s, e).Ok?)
    ensures !(NewLinear(s, e).Ok? && NewInfinite(s, e).Ok?)
    ensures !(NewModular(s, e).Ok? && NewInfinite(s, e).Ok?)
  {
  }

  // ---------------------------------------------------------------------------
  // Membership

  /** `x in p`: each class's __contains__ */
  predicate Contains(p: Period, x: Time) {
    match p
    case Linear(s, e) => s <= x < e
    case Modular(s, e) => s <= x || x < e
    case Infinite(_, _) => true
  }

  /** Every member of c is a member of d */
  ghost predicate Within(c: Period, d: Period) {
    forall x: Time :: Contains(c, x) ==> Contains(d, x)
  }

  /** A linear period's start is a member, its end is not, and nothing
      before its start is */
  lemma LinearBoundaries(p: Period)
    requires p.Linear? && p.Valid()
    ensures Contains(p, p.start)
    ensures !Contains(p, p.end)
    ensures forall x: Time :: x < p.start ==> !Contains(p, x)
    ensures forall x: Time :: Contains(p, x) ==> p.start <= x < p.end
  {
  }

  /** One linear period lies within another exactly when its endpoints lie
      between the other's */
  lemma LinearWithinIffBounds(c: Period, d: Period)
    requires c.Linear? && c.Valid() && d.Linear? && d.Valid()
    ensures Within(c, d) <==> d.start <= c.start && c.end <= d.end
  {
    if Within(c, d) {
      assert Contains(c, c.start);
      var last: Time := c.end - 1;
      assert Contains(c, last);
    }
  }

  /** A modular period holds exactly the times outside the linear period
      [end, start): its start is a member and its end is not */
  lemma ModularIsComplement(p: Period)
    requires p.Modular? && p.Valid()
    ensures Linear(p.end, p.start).Valid()
    ensures forall x: Time :: Contains(p, x) <==> !Contains(Linear(p.end, p.start), x)
    ensures Contains(p, p.start) && !Contains(p, p.end)
    ensures Contains(p, MIDNIGHT) <==> p.end != MIDNIGHT
    ensures Contains(p, MAX)
  {
  }

  /** An infinite period holds every time */
  lemma InfiniteContainsAll(p: Period)
    requires p.Infinite? && p.Valid()
    ensures forall x: Time :: Contains(p, x)
    ensures forall q: Period :: Within(q, p)
  {
  }

  // ---------------------------------------------------------------------------
  // Intersection

  /** Membership in an intersection result; None holds no time */
  predicate InResult(o: Option<Period>, x: Time) {
    o.Some? && Contains(o.value, x)
  }

  /** `a & b`: the plum-dispatched overloads of LinearTimePeriod.__and__ and the
      __and__ of the other two classes. Only Linear & Linear is implemented;
      every other pair raises NotImplementedError. */
  function Intersect(a: Period, b: Period): (r: Result<Option<Period>>)
    requires a.Valid() && b.Valid()
    ensures r.Ok? <==> a.Linear? && b.Linear?
    ensures r.Err? ==> r.error == NotImplementedError
    ensures r.Ok? && r.value.Some? ==> r.value.value.Linear? && r.value.value.Valid()
    ensures r.Ok? ==> forall x: Time :: InResult(r.value, x) <==> Contains(a, x) && Contains(b, x)
  {
    match (a, b)
    case (Linear(s1, e1), Linear(s2, e2)) =>
      var s := Later(s1, s2);
      var e := Earlier(e1, e2);
      if s < e then
        match NewLinear(s, e)
        case Ok(q) => Ok(Some(q))
        case Err(err) => Err(err)
      else
        Ok(None)
    case _ => Err(NotImplementedError)
  }

  /** Two linear periods intersect in None exactly when no time lies in both;
      touching periods such as [8, 10) and [10, 12) therefore give None */
  lemma IntersectNoneIffDisjoint(a: Period, b: Period)
    requires a.Linear? && a.Valid() && b.Linear? && b.Valid()
    ensures Intersect(a, b).Ok?
    ensures Intersect(a, b).value.None? <==> !exists x: Time :: Contains(a, x) && Contains(b, x)
  {
    var r := Intersect(a, b).value;
    if r.Some? {
      assert InResult(r, r.value.start);
    }
  }

  /** The intersection is the largest linear period within both operands:
      a linear c lies within a and within b exactly when the intersection
      exists and c lies within it */
  lemma IntersectIsMeet(a: Period, b: Period, c: Period)
    requires a.Linear? && a.Valid() && b.Linear? && b.Valid() && c.Linear? && c.Valid()
    ensures Intersect(a, b).value.Some? ==>
      Within(Intersect(a, b).value.value, a) && Within(Intersect(a, b).value.value, b)
    ensures Within(c, a) && Within(c, b) <==>
      Intersect(a, b).value.Some? && Within(c, Intersect(a, b).value.value)
  {
    var r := Intersect(a, b).value;
    LinearWithinIffBounds(c, a);
    LinearWithinIffBounds(c, b);
    if r.Some? {
      LinearWithinIffBounds(r.value, a);
      LinearWithinIffBounds(r.value, b);
      LinearWithinIffBounds(c, r.value);
    }
  }

  /** `a & b == b & a` for every pair of periods, raising or not */
  lemma IntersectCommutes(a: Period, b: Period)
    requires a.Valid() && b.Valid()
    ensures Intersect(a, b) == Intersect(b, a)
  {
  }

  /** `X & X == X` for a linear period */
  lemma IntersectIdempotent(a: Period)
    requires a.Linear? && a.Valid()
    ensures Intersect(a, a) == Ok(Some(a))
  {
  }

  /** The examples of the intersection case list: disjoint, overlapping,
      nested and touching periods */
  lemma IntersectExamples()
    ensures Intersect(Linear(Hour(5), Hour(10)), Linear(Hour(12), Hour(15))) == Ok(None)
    ensures Intersect(Linear(Hour(5), Hour(10)), Linear(Hour(8), Hour(12))) == Ok(Some(Linear(Hour(8), Hour(10))))
    ensures Intersect(Linear(Hour(5), Hour(10)), Linear(Hour(6), Hour(7))) == Ok(Some(Linear(Hour(6), Hour(7))))
    ensures Intersect(Linear(Hour(8), Hour(10)), Linear(Hour(10), Hour(12))) == Ok(None)
    ensures Intersect(Linear(Hour(8), Hour(10)), Linear(Hour(6), Hour(8))) == Ok(None)
    ensures Intersect(Linear(Hour(5), Hour(10)), Modular(Hour(10), Hour(5))) == Err(NotImplementedError)
  {
  }

  // ---------------------------------------------------------------------------
  // Normalisation

  /** An element of the list normalise returns: a linear period, or a bare
      Time standing for a piece that has degenerated */
  datatype Piece = Per(period: Period) | Pt(time: Time)

  /** The sort key of the TimePeriod ordering: a period compares by its start
      time, a bare Time by its own value */
  function Key(q: Piece): Time {
    match q
    case Per(p) => p.start
    case Pt(t) => t
  }

  predicate SortedByKey(ps: seq<Piece>) {
    forall i, j :: 0 <= i < j < |ps| ==> Key(ps[i]) <= Key(ps[j])
  }

  /** `sorted([a, b])`: Python's sort is stable, so the two change places
      only when the second is strictly smaller */
  function Sorted2(a: Piece, b: Piece): (r: seq<Piece>)
    ensures |r| == 2 && multiset(r) == multiset{a, b}
    ensures SortedByKey(r)
    ensures Key(a) <= Key(b) ==> r == [a, b]
  {
    if Key(b) < Key(a) then [b, a] else [a, b]
  }

  /** A constructed linear period, as a piece */
  function AsPiece(r: Result<Period>): Result<Piece> {
    match r
    case Ok(p) => Ok(Per(p))
    case Err(e) => Err(e)
  }

  /** ModularTimePeriod.normalise: [start, MAX] as Linear(start, MAX), or the
      bare Time.MAX when start is MAX; [MIDNIGHT, end) as Linear(MIDNIGHT, end),
      or the bare Time.MIDNIGHT when end is MIDNIGHT; the two sorted. When
      both degenerate the result is [Time.MAX]. Never raises. */
  function Normalise(p: Period): (r: Result<seq<Piece>>)
    requires p.Modular? && p.Valid()
    ensures r.Ok?
    ensures |r.value| == 1 <==> p.start == MAX && p.end == MIDNIGHT
    ensures 1 <= |r.value| <= 2
    ensures SortedByKey(r.value)
    ensures |r.value| == 2 ==> Key(r.value[0]) == MIDNIGHT && Key(r.value[1]) == p.start
    ensures forall i :: 0 <= i < |r.value| && r.value[i].Per? ==>
      r.value[i].period.Linear? && r.value[i].period.Valid()
  {
    if p.start == MAX && p.end == MIDNIGHT then
      Ok([Pt(MAX)])
    else
      var upper := if p.start != MAX then AsPiece(NewLinear(p.start, MAX)) else Ok(Pt(MAX));
      var lower := if p.end != MIDNIGHT then AsPiece(NewLinear(MIDNIGHT, p.end)) else Ok(Pt(MIDNIGHT));
      match (upper, lower)
      case (Ok(p1), Ok(p2)) => Ok(Sorted2(p1, p2))
      case (Err(e), _) => Err(e)
      case (_, Err(e)) => Err(e)
  }

  /** The four outcomes of normalise, one per branch. When end is MIDNIGHT the
      sentinel is Time.MIDNIGHT and comes first. */
  lemma NormaliseCases(p: Period)
    requires p.Modular? && p.Valid()
    ensures p.start == MAX && p.end == MIDNIGHT ==>
      Normalise(p).value == [Pt(MAX)]
    ensures p.start != MAX && p.end != MIDNIGHT ==>
      Normalise(p).value == [Per(Linear(MIDNIGHT, p.end)), Per(Linear(p.start, MAX))]
    ensures p.start == MAX && p.end != MIDNIGHT ==>
      Normalise(p).value == [Per(Linear(MIDNIGHT, p.end)), Pt(MAX)]
    ensures p.start != MAX && p.end == MIDNIGHT ==>
      Normalise(p).value == [Pt(MIDNIGHT), Per(Linear(p.start, MAX))]
  {
  }

  /** Some linear piece of the list holds x; bare Time sentinels hold nothing */
  predicate InPieces(ps: seq<Piece>, x: Time) {
    exists i :: 0 <= i < |ps| && ps[i].Per? && Contains(ps[i].period, x)
  }

  /** Below Time.MAX the linear pieces of normalise hold exactly the members
      of the modular period */
  lemma NormaliseKeepsMembers(p: Period, x: Time)
    requires p.Modular? && p.Valid()
    requires x != MAX
    ensures Contains(p, x) <==> InPieces(Normalise(p).value, x)
  {

  }

  /** Time.MAX belongs to every modular period but to none of its linear
      pieces, which are right-open */
  lemma NormaliseDropsMax(p: Period)
    requires p.Modular? && p.Valid()
    ensures Contains(p, MAX)
    ensures !InPieces(Normalise(p).value, MAX)
  {

  }

  /** When both pieces are linear periods they do not overlap: their
      intersection is None */
  lemma NormalisePiecesDisjoint(p: Period)
    requires p.Modular? && p.Valid()
    requires |Normalise(p).value| == 2
    requires Normalise(p).value[0].Per? && Normalise(p).value[1].Per?
    ensures Intersect(Normalise(p).value[0].period, Normalise(p).value[1].period) == Ok(None)
  {

  }
}
