/** linear.py: the stand-alone LinearTimePeriod. Its __post_init__ and
    __contains__ are those of time_period.py (TimePeriod.NewLinear and
    TimePeriod.Contains); its __and__ implements no pair at all. */
module LinearPeriod {
  import opened Clock
  import opened Outcomes
  import opened TimePeriod

  /** `self & other`: raises NotImplementedError whatever the operand */
  function And(self: Period, other: Period): (r: Result<Option<Period>>)
    requires self.Linear? && self.Valid() && other.Valid()
    ensures r.Err? && r.error == NotImplementedError
  {
    Err(NotImplementedError)
  }

  /** Where the two copies of the class part ways: on two linear periods the
      dispatched __and__ of time_period.py answers, this one raises */
  lemma AndRaisesWhereDispatchAnswers(a: Period, b: Period)
    requires a.Linear? && a.Valid() && b.Linear? && b.Valid()
    ensures And(a, b).Err?
    ensures Intersect(a, b).Ok?
  {
  }

  /** The construction cases: (0, 1) is accepted with its fields as given,
      (1, 0) and (1, 1) raise ValueError */
  lemma ConstructionCases()
    ensures NewLinear(Hour(0), Hour(1)) == Ok(Linear(Hour(0), Hour(1)))
    ensures NewLinear(Hour(1), Hour(0)) == Err(ValueError)
    ensures NewLinear(Hour(1), Hour(1)) == Err(ValueError)
  {
  }

  /** Membership of [5, 10): the start and the times up to the end belong,
      the end and the times before the start do not */
  lemma MembershipCases()
    ensures Contains(Linear(Hour(5), Hour(10)), Hour(5))
    ensures Contains(Linear(Hour(5), Hour(10)), Hour(9))
    ensures Contains(Linear(Hour(5), Hour(10)), Hour(10) - 1)
    ensures !Contains(Linear(Hour(5), Hour(10)), Hour(10))
    ensures !Contains(Linear(Hour(5), Hour(10)), Hour(5) - 1)
    ensures !Contains(Linear(Hour(5), Hour(10)), MAX)
  {
  }
}
