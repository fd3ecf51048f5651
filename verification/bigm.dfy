/** What the big-M rows of run.py:121-144 mean: each row is an implication
    switched by a binary indicator, binding when the indicator is on and
    vacuous, for a large enough M, when it is off. */
module BigM {
  import opened Domain
  import opened Sums
  import opened Preprocessing
  import opened Formulation

  /** An accepted job's completion row is exactly "the worker-days given
      cover the requirement"; a rejected job's row holds for every
      non-negative number of worker-days exactly when the requirement does
      not exceed M. */
  lemma CompletionRowSwitch(requirement: int, chosen: int)
    requires IsBinary(chosen)
    ensures chosen == 1 ==>
      forall total :: CompletionRow(requirement, chosen, total) <==> requirement <= total
    ensures chosen == 0 ==>
      ((forall total :: total >= 0 ==> CompletionRow(requirement, chosen, total)) <==>
        requirement <= M)
  {
    if chosen == 0 && !(requirement <= M) {
      assert !CompletionRow(requirement, chosen, 0);
    }
  }

  /** On a worked day both window rows together say exactly that the day
      lies in [begin, end]; on an idle day they only say that begin is at
      most M days after the day and end at most M days before it. */
  lemma WindowRowsSwitch(day: int, begin: int, end: int, worked: int)
    requires IsBinary(worked)
    ensures worked == 1 ==>
      (BeginRow(day, begin, worked) && EndRow(day, end, worked) <==> begin <= day <= end)
    ensures worked == 0 ==>
      (BeginRow(day, begin, worked) && EndRow(day, end, worked) <==>
        begin <= day + M && end >= day - M)
  {
  }

  /** The worker-days summed in a completion row are never negative. */
  lemma {:induction false} QualSlotsNonNegative(t: Tables, v: Valuation, j: Name, q: Name)
    requires Declared(t, v)
    requires j in t.jobs && q in t.quals
    ensures QualSlots(t.days, t.workers, v, j, q) >= 0
  {
    var inner := d => Sum(t.workers, w => Slot(v, w, q, d, j));
    forall d | d in t.days ensures inner(d) >= 0 {
      SumNonNegative(t.workers, w => Slot(v, w, q, d, j));
    }
    SumNonNegative(t.days, inner);
  }

  /** A rejected job puts no demand on the schedule: whatever the slots
      hold, all its completion rows are met as long as no requirement
      exceeds M. */
  lemma RejectedJobCompletionVacuous(t: Tables, v: Valuation, j: Name)
    requires Declared(t, v)
    requires j in t.jobs && At(v.chosenjob, j) == 0
    requires forall q :: q in t.quals ==> At(t.requirements, (j, q)) <= M
    ensures forall q :: q in t.quals ==>
      CompletionRow(At(t.requirements, (j, q)), At(v.chosenjob, j), QualSlots(t.days, t.workers, v, j, q))
  {
    forall q | q in t.quals
      ensures CompletionRow(At(t.requirements, (j, q)), At(v.chosenjob, j), QualSlots(t.days, t.workers, v, j, q))
    {
      QualSlotsNonNegative(t, v, j, q);
    }
  }

  /** A job with no worked day puts no demand on its window: with every day
      in 1..M, any begin in 0..M+1 and any non-negative end satisfy all its
      window rows. */
  lemma IdleJobWindowVacuous(t: Tables, v: Valuation, j: Name)
    requires forall d :: d in t.days ==> 1 <= d <= M
    requires forall d :: d in t.days ==> At(v.workedtoday, (j, d)) == 0
    requires 0 <= At(v.begin, j) <= M + 1 && At(v.end, j) >= 0
    ensures forall d :: d in t.days ==>
      && BeginRow(d, At(v.begin, j), At(v.workedtoday, (j, d)))
      && EndRow(d, At(v.end, j), At(v.workedtoday, (j, d)))
  {
  }
}
