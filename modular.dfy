/** modular.py: the stand-alone ModularTimePeriod, whose normalise builds the
    LinearTimePeriod of linear.py. Its __post_init__, __contains__ and
    normalise are those of time_period.py (TimePeriod.NewModular,
    TimePeriod.Contains, TimePeriod.Normalise); its __and__ implements no pair. */
module ModularPeriod {
  import opened Clock
  import opened Outcomes
  import opened TimePeriod

  /** `self & other`: raises NotImplementedError whatever the operand */
  function And(self: Period, other: Period): (r: Result<Option<Period>>)
    requires self.Modular? && self.Valid() && other.Valid()
    ensures r.Err? && r.error == NotImplementedError
  {
    Err(NotImplementedError)
  }

  /** The construction cases: (1, 0) is accepted with its fields as given,
      (0, 1) and (1, 1) raise ValueError */
  lemma ConstructionCases()
    ensures NewModular(Hour(1), Hour(0)) == Ok(Modular(Hour(1), Hour(0)))
    ensures NewModular(Hour(0), Hour(1)) == Err(ValueError)
    ensures NewModular(Hour(1), Hour(1)) == Err(ValueError)
  {
  }

  /** Every time from the end up to (not including) the start is excluded,
      and every other time belongs */
  lemma MembershipGap(p: Period, x: Time)
    requires p.Modular? && p.Valid()
    ensures !Contains(p, x) <==> p.end <= x < p.start
  {
  }

  /** Membership of the period from 10:00 round midnight to 05:00 */
  lemma MembershipCases()
    ensures Contains(Modular(Hour(10), Hour(5)), Hour(10))
    ensures Contains(Modular(Hour(10), Hour(5)), Hour(23))
    ensures Contains(Modular(Hour(10), Hour(5)), MAX)
    ensures Contains(Modular(Hour(10), Hour(5)), MIDNIGHT)
    ensures Contains(Modular(Hour(10), Hour(5)), Hour(4))
    ensures !Contains(Modular(Hour(10), Hour(5)), Hour(5))
    ensures !Contains(Modular(Hour(10), Hour(5)), Hour(7))
    ensures !Contains(Modular(Hour(10), Hour(5)), Hour(10) - 1)
  {
  }

  /** The normalise cases, with the hour values of the examples */
  lemma NormaliseExamples()
    ensures Normalise(Modular(Hour(10), Hour(5))).value
      == [Per(Linear(MIDNIGHT, Hour(5))), Per(Linear(Hour(10), MAX))]
    ensures Normalise(Modular(MAX, Hour(5))).value
      == [Per(Linear(MIDNIGHT, Hour(5))), Pt(MAX)]
    ensures Normalise(Modular(Hour(5), MIDNIGHT)).value
      == [Pt(MIDNIGHT), Per(Linear(Hour(5), MAX))]
    ensures Normalise(Modular(MAX, MIDNIGHT)).value == [Pt(MAX)]
  {
  }
}
