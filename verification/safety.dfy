/** What every feasible point of the program guarantees about the schedule
    it encodes: assignments only go to qualified workers who are not on
    vacation, a worker does at most one thing a day, accepted jobs get the
    worker-days they need, and the derived flags and windows cover every
    assignment. */
module Safety {
  import opened Domain
  import opened Sums
  import opened Preprocessing
  import opened Formulation

  /** Worker `w` on day `d` holds at most one slot set to 1, counting
      positions in the job and qualification lists. */
  predicate ExclusiveDay(jobs: seq<Name>, quals: seq<Name>, v: Valuation, w: Name, d: int)
  {
    forall i1, k1, i2, k2 ::
      0 <= i1 < |jobs| && 0 <= k1 < |quals| &&
      0 <= i2 < |jobs| && 0 <= k2 < |quals| &&
      Slot(v, w, quals[k1], d, jobs[i1]) == 1 &&
      Slot(v, w, quals[k2], d, jobs[i2]) == 1
      ==> i1 == i2 && k1 == k2
  }

  /** The uniqueness row of run.py:99-109 over 0/1 slots leaves at most one
      slot of the worker-day set to 1. */
  lemma {:induction false} UniquenessRowExclusive(t: Tables, v: Valuation, w: Name, d: int)
    requires Declared(t, v)
    requires w in t.workers && d in t.days
    requires DaySlots(t, v, w, d) <= 1
    ensures ExclusiveDay(t.jobs, t.quals, v, w, d)
  {
    var inner := j => Sum(t.quals, q => Slot(v, w, q, d, j));
    forall j | j in t.jobs ensures inner(j) >= 0 {
      SumNonNegative(t.quals, q => Slot(v, w, q, d, j));
    }
    forall i1, k1, i2, k2 |
      0 <= i1 < |t.jobs| && 0 <= k1 < |t.quals| &&
      0 <= i2 < |t.jobs| && 0 <= k2 < |t.quals| &&
      Slot(v, w, t.quals[k1], d, t.jobs[i1]) == 1 &&
      Slot(v, w, t.quals[k2], d, t.jobs[i2]) == 1
      ensures i1 == i2 && k1 == k2
    {
      var j1, j2 := t.jobs[i1], t.jobs[i2];
      if i1 != i2 {
        SumBoundsTwoTerms(t.jobs, inner, i1, i2);
        SumBoundsTerm(t.quals, q => Slot(v, w, q, d, j1), k1);
        SumBoundsTerm(t.quals, q => Slot(v, w, q, d, j2), k2);
        assert false;
      } else if k1 != k2 {
        SumBoundsTerm(t.jobs, inner, i1);
        SumBoundsTwoTerms(t.quals, q => Slot(v, w, q, d, j1), k1, k2);
        assert false;
      }
    }
  }

  /** A slot set to 1 in a feasible point is for a qualified worker who is
      not on vacation; it raises the worker's staffing flag and the job's
      worked-day flag; and its day lies in the job's window. */
  lemma SlotSafety(t: Tables, v: Valuation, w: Name, q: Name, d: int, j: Name)
    requires WellFormed(t) && Declared(t, v)
    requires QualificationGate(t, v) && VacationExclusion(t, v)
    requires StaffedLink(t, v) && WorkedTodayLink(t, v) && Window(t, v)
    requires w in t.workers && q in t.quals && d in t.days && j in t.jobs
    requires Slot(v, w, q, d, j) == 1
    ensures At(t.qualifie, (w, q)) == 1
    ensures At(t.conge, (w, d)) == 0
    ensures At(v.estaffecte, (w, j)) == 1
    ensures At(v.workedtoday, (j, d)) == 1
    ensures At(v.begin, j) <= d <= At(v.end, j)
  {
  }

  /** Under the uniqueness rows no worker does two things on one day. */
  lemma UniquenessExclusive(t: Tables, v: Valuation)
    requires Declared(t, v) && Uniqueness(t, v)
    ensures forall w, d :: w in t.workers && d in t.days ==> ExclusiveDay(t.jobs, t.quals, v, w, d)
  {
    forall w, d | w in t.workers && d in t.days ensures ExclusiveDay(t.jobs, t.quals, v, w, d) {
      UniquenessRowExclusive(t, v, w, d);
    }
  }

  /** Under the completion rows every accepted job gets, per
      qualification, at least the worker-days it requires. */
  lemma CompletionWhenChosen(t: Tables, v: Valuation)
    requires Completion(t, v)
    ensures forall j, q :: j in t.jobs && q in t.quals && At(v.chosenjob, j) == 1 ==>
      QualSlots(t.days, t.workers, v, j, q) >= At(t.requirements, (j, q))
  {
  }

  /** Under the rows of run.py:95 `nbmaxjobs` is at least the number of
      jobs (list positions) each worker is staffed on. */
  lemma StaffingBound(t: Tables, v: Valuation)
    requires Declared(t, v) && NbMaxJobsBound(t, v)
    ensures forall w :: w in t.workers ==>
      Count(t.jobs, j => At(v.estaffecte, (w, j)) == 1) <= v.nbmaxjobs
  {
    forall w | w in t.workers
      ensures Count(t.jobs, j => At(v.estaffecte, (w, j)) == 1) <= v.nbmaxjobs
    {
      SumOfBinaryIsCount(t.jobs, j => At(v.estaffecte, (w, j)), j => At(v.estaffecte, (w, j)) == 1);
    }
  }

  /** Under the window and length rows `maxlenjob` bounds the span of
      every job's worked days, first and last included. */
  lemma SpanBound(t: Tables, v: Valuation)
    requires Window(t, v) && MaxLenBound(t, v)
    ensures forall j, d1, d2 ::
      && j in t.jobs && d1 in t.days && d2 in t.days
      && At(v.workedtoday, (j, d1)) == 1 && At(v.workedtoday, (j, d2)) == 1
      ==> d2 - d1 + 1 <= v.maxlenjob
  {
  }

  /** A slot set to 1 for a worker (the last one listed under its name),
      a declared qualification, a day of the horizon and any job uses a
      qualification the worker holds, on a day it is not on vacation,
      inside the job's window. */
  predicate AssignmentOk(inst: Instance, v: Valuation, a: int, q: Name, d: int, b: int)
  {
    0 <= a < |inst.staff| && LastWorker(inst.staff, a) &&
    q in inst.qualifications && 1 <= d <= inst.horizon && 0 <= b < |inst.jobs| &&
    Slot(v, inst.staff[a].name, q, d, inst.jobs[b].name) == 1
    ==> && q in inst.staff[a].qualifications
        && d !in inst.staff[a].vacations
        && At(v.begin, inst.jobs[b].name) <= d <= At(v.end, inst.jobs[b].name)
  }

  predicate SafeAssignments(inst: Instance, v: Valuation)
  {
    forall a, q, d, b ::
      0 <= a < |inst.staff| && q in inst.qualifications &&
      1 <= d <= inst.horizon && 0 <= b < |inst.jobs| ==>
      AssignmentOk(inst, v, a, q, d, b)
  }

  /** Each worker-day of the horizon holds at most one slot set to 1. */
  predicate SafeExclusive(inst: Instance, v: Valuation)
  {
    forall a, d :: 0 <= a < |inst.staff| && 1 <= d <= inst.horizon ==>
      ExclusiveDay(JobNames(inst.jobs), inst.qualifications, v, inst.staff[a].name, d)
  }

  /** An accepted job (the last one listed under its name) gets, for every
      declared qualification, the worker-days it lists. */
  predicate SafeCompletion(inst: Instance, v: Valuation)
  {
    forall b, q ::
      0 <= b < |inst.jobs| && LastJob(inst.jobs, b) && q in inst.qualifications &&
      At(v.chosenjob, inst.jobs[b].name) == 1
      ==> QualSlots(Days(inst.horizon), WorkerNames(inst.staff), v, inst.jobs[b].name, q) >= Required(inst.jobs[b], q)
  }

  /** The safety properties of a schedule, stated over the instance alone. */
  predicate SafeSchedule(inst: Instance, v: Valuation)
  {
    SafeAssignments(inst, v) && SafeExclusive(inst, v) && SafeCompletion(inst, v)
  }

  /** A slot set to 1 in a feasible point, read back through tables that
      describe the instance, is a safe assignment. */
  lemma AssignmentSafe(inst: Instance, t: Tables, v: Valuation, a: int, q: Name, d: int, b: int)
    requires Describes(inst, t) && FeasibleFor(t, v)
    ensures AssignmentOk(inst, v, a, q, d, b)
  {
    if && 0 <= a < |inst.staff| && LastWorker(inst.staff, a)
       && q in inst.qualifications && 1 <= d <= inst.horizon && 0 <= b < |inst.jobs|
       && Slot(v, inst.staff[a].name, q, d, inst.jobs[b].name) == 1
    {
      var w, j := inst.staff[a].name, inst.jobs[b].name;
      assert t.workers[a] == w;
      assert t.jobs[b] == j;
      SlotSafety(t, v, w, q, d, j);
    }
  }

  lemma DescribedAssignmentsSafe(inst: Instance, t: Tables, v: Valuation)
    requires Describes(inst, t) && FeasibleFor(t, v)
    ensures SafeAssignments(inst, v)
  {
    forall a, q, d, b |
      0 <= a < |inst.staff| && q in inst.qualifications &&
      1 <= d <= inst.horizon && 0 <= b < |inst.jobs|
      ensures AssignmentOk(inst, v, a, q, d, b)
    {
      AssignmentSafe(inst, t, v, a, q, d, b);
    }
  }

  lemma DescribedExclusiveSafe(inst: Instance, t: Tables, v: Valuation)
    requires Describes(inst, t) && FeasibleFor(t, v)
    ensures SafeExclusive(inst, v)
  {
    UniquenessExclusive(t, v);
    forall a, d | 0 <= a < |inst.staff| && 1 <= d <= inst.horizon
      ensures ExclusiveDay(t.jobs, t.quals, v, inst.staff[a].name, d)
    {
      assert t.workers[a] == inst.staff[a].name;
      assert d in t.days;
    }
  }

  lemma DescribedCompletionSafe(inst: Instance, t: Tables, v: Valuation)
    requires Describes(inst, t) && FeasibleFor(t, v)
    ensures SafeCompletion(inst, v)
  {
    CompletionWhenChosen(t, v);
    forall b, q |
      0 <= b < |inst.jobs| && LastJob(inst.jobs, b) && q in inst.qualifications &&
      At(v.chosenjob, inst.jobs[b].name) == 1
      ensures QualSlots(t.days, t.workers, v, inst.jobs[b].name, q) >= Required(inst.jobs[b], q)
    {
      assert t.jobs[b] == inst.jobs[b].name;
    }
  }

  /** Every feasible point of the program built for an instance is a safe
      schedule for that instance. */
  lemma FeasibleIsSafe(inst: Instance, v: Valuation)
    requires Feasible(inst, v)
    ensures SafeSchedule(inst, v)
  {
    var t := Build(inst);
    BuildDescribes(inst);
    DescribedAssignmentsSafe(inst, t, v);
    DescribedExclusiveSafe(inst, t, v);
    DescribedCompletionSafe(inst, t, v);
  }

  /** No worker can supply qualification `q` on any day of the horizon:
      each one (the last listed under its name, the one the tables read)
      either lacks it or is on vacation that day. */
  predicate Unsuppliable(inst: Instance, q: Name)
  {
    forall a, d :: 0 <= a < |inst.staff| && LastWorker(inst.staff, a) && 1 <= d <= inst.horizon ==>
      q !in inst.staff[a].qualifications || d in inst.staff[a].vacations
  }

  /** Under safe assignments, an unsuppliable qualification gets no
      worker-day on any job. */
  lemma UnsuppliableGetsNoSlot(inst: Instance, t: Tables, v: Valuation, b: int, q: Name)
    requires t.days == Days(inst.horizon) && t.workers == WorkerNames(inst.staff)
    requires t.quals == inst.qualifications && t.jobs == JobNames(inst.jobs)
    requires SafeAssignments(inst, v) && Declared(t, v)
    requires 0 <= b < |inst.jobs| && q in inst.qualifications && Unsuppliable(inst, q)
    ensures QualSlots(t.days, t.workers, v, inst.jobs[b].name, q) == 0
  {
    var j := inst.jobs[b].name;
    forall d, w | d in t.days && w in t.workers ensures Slot(v, w, q, d, j) == 0 {
      var i :| 0 <= i < |inst.staff| && t.workers[i] == w;
      var a := LastWorkerFrom(inst.staff, i);
      assert 1 <= d <= inst.horizon;
      assert j in t.jobs;
      assert AssignmentOk(inst, v, a, q, d, b);
      assert q !in inst.staff[a].qualifications || d in inst.staff[a].vacations;
    }
    forall d | d in t.days ensures Sum(t.workers, w => Slot(v, w, q, d, j)) == 0 {
      SumOfZeros(t.workers, w => Slot(v, w, q, d, j));
    }
    SumOfZeros(t.days, d => Sum(t.workers, w => Slot(v, w, q, d, j)));
  }

  /** A job that needs some worker-days of an unsuppliable qualification
      is rejected by every feasible point. */
  lemma UnsuppliableJobRejected(inst: Instance, v: Valuation, b: int, q: Name)
    requires Feasible(inst, v)
    requires 0 <= b < |inst.jobs| && LastJob(inst.jobs, b)
    requires q in inst.qualifications && Required(inst.jobs[b], q) > 0
    requires Unsuppliable(inst, q)
    ensures At(v.chosenjob, inst.jobs[b].name) == 0
  {
    var t := Build(inst);
    BuildDescribes(inst);
    DescribedAssignmentsSafe(inst, t, v);
    DescribedCompletionSafe(inst, t, v);
    UnsuppliableGetsNoSlot(inst, t, v, b, q);
    assert t.jobs[b] == inst.jobs[b].name;
  }
}
