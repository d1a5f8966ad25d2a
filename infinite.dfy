/** infinite.py: the stand-alone InfiniteTimePeriod. Its __post_init__ and
    __contains__ are those of time_period.py (TimePeriod.NewInfinite and
    TimePeriod.Contains); its __and__ implements no pair. */
module InfinitePeriod {
  import opened Clock
  import opened Outcomes
  import opened TimePeriod

  /** `self & other`: raises NotImplementedError whatever the operand */
  function And(self: Period, other: Period): (r: Result<Option<Period>>)
    requires self.Infinite? && self.Valid() && other.Valid()
    ensures r.Err? && r.error == NotImplementedError
  {
    Err(NotImplementedError)
  }

  /** The construction cases: (1, 1) is accepted with both fields the same
      time, (0, 1) and (1, 0) raise ValueError */
  lemma ConstructionCases()
    ensures NewInfinite(Hour(1), Hour(1)) == Ok(Infinite(Hour(1), Hour(1)))
    ensures NewInfinite(Hour(0), Hour(1)) == Err(ValueError)
    ensures NewInfinite(Hour(1), Hour(0)) == Err(ValueError)
  {
  }

  /** The period's own start, any other time, and both ends of the day are
      members */
  lemma MembershipCases(p: Period, x: Time)
    requires p.Infinite? && p.Valid()
    ensures Contains(p, p.start) && Contains(p, p.end)
    ensures Contains(p, x)
    ensures Contains(p, MIDNIGHT) && Contains(p, MAX)
  {
  }
}
