/** A small instance evaluated against the model: a feasible schedule for
    it, the objective value it earns, and a second feasible schedule whose
    window is wider than the work it covers. */
module Scenarios {
  import opened Domain
  import opened Sums
  import opened Preprocessing
  import opened Formulation
  import opened Objective

  /** One worker holding the only qualification, one job needing one day
      of it, due at the end of a one-day horizon. */
  function SingleJobInstance(): Instance
  {
    Instance(1, ["a"], [Worker("w", ["a"], [])], [Job("j", 100, 1, 10, map["a" := 1])])
  }

  /** The job accepted and worked by the worker on day 1, with the window
      [begin, end] and the smallest `maxlenjob` that window allows. */
  function SingleJobSchedule(begin: int, end: int): Valuation
  {
    Valuation(
      map["j" := 1], map["j" := begin], map["j" := end],
      map[("w", "j") := 1],
      map[("w", "a", 1, "j") := 1],
      map[("j", 1) := 1],
      1, 1 + end - begin)
  }

  /** The tables of run.py:17-54 for this instance, entry by entry. */
  lemma SingleJobTables(t: Tables)
    requires Describes(SingleJobInstance(), t)
    ensures t.days == [1] && t.quals == ["a"] && t.workers == ["w"] && t.jobs == ["j"]
    ensures At(t.qualifie, ("w", "a")) == 1
    ensures At(t.conge, ("w", 1)) == 0
    ensures At(t.requirements, ("j", "a")) == 1
    ensures At(t.itstoolate, ("j", 1)) == 0
    ensures At(t.gain, "j") == 100
  {
    var inst := SingleJobInstance();
    assert Days(0) == [];
    assert t.days == [1];
    assert t.workers == ["w"];
    assert t.jobs == ["j"];
    assert LastWorker(inst.staff, 0) && LastJob(inst.jobs, 0);
  }

  /** The four sums the constraints and the objective take, for this
      schedule over one worker, qualification, day and job. */
  lemma SingleJobSums(t: Tables, begin: int, end: int)
    requires t.days == [1] && t.quals == ["a"] && t.workers == ["w"] && t.jobs == ["j"]
    requires At(t.itstoolate, ("j", 1)) == 0
    requires At(t.gain, "j") == 100
    ensures DaySlots(t, SingleJobSchedule(begin, end), "w", 1) == 1
    ensures QualSlots(t.days, t.workers, SingleJobSchedule(begin, end), "j", "a") == 1
    ensures StaffedJobs(t, SingleJobSchedule(begin, end), "w") == 1
    ensures Argent(t, SingleJobSchedule(begin, end)) == 100
  {
    var v := SingleJobSchedule(begin, end);
    SumSingleton("a", q => Slot(v, "w", q, 1, "j"));
    SumSingleton("j", j => Sum(t.quals, q => Slot(v, "w", q, 1, j)));
    SumSingleton("w", w => Slot(v, w, "a", 1, "j"));
    SumSingleton(1, d => Sum(t.workers, w => Slot(v, w, "a", d, "j")));
    SumSingleton("j", j => At(v.estaffecte, ("w", j)));
    SumSingleton(1, d => At(t.itstoolate, ("j", d)) * At(v.workedtoday, ("j", d)) * At(t.penalite, "j"));
    assert LatePenalty(t, v, "j") == 0;
    SumSingleton("j", j => At(t.gain, j) * At(v.chosenjob, j) - LatePenalty(t, v, j));
  }

  /** The schedule meets every constraint family over tables holding the
      entries of `SingleJobTables`. */
  lemma SingleJobScheduleFits(t: Tables, begin: int, end: int)
    requires 0 <= begin <= 1 <= end
    requires t.days == [1] && t.quals == ["a"] && t.workers == ["w"] && t.jobs == ["j"]
    requires At(t.qualifie, ("w", "a")) == 1
    requires At(t.conge, ("w", 1)) == 0
    requires At(t.requirements, ("j", "a")) == 1
    requires At(t.itstoolate, ("j", 1)) == 0
    requires At(t.gain, "j") == 100
    ensures FeasibleFor(t, SingleJobSchedule(begin, end))
    ensures Argent(t, SingleJobSchedule(begin, end)) == 100
  {
    var v := SingleJobSchedule(begin, end);
    SingleJobSums(t, begin, end);
    forall w, q, d, j | w in t.workers && q in t.quals && d in t.days && j in t.jobs
      ensures (w, q, d, j) == ("w", "a", 1, "j")
    {
    }
    assert Declared(t, v);
    assert Uniqueness(t, v);
    assert QualificationGate(t, v);
    assert VacationExclusion(t, v);
    assert StaffedLink(t, v);
    assert WorkedTodayLink(t, v);
    assert Window(t, v);
    assert Completion(t, v);
  }

  /** The job is accepted by a feasible schedule that earns its full
      reward of 100. */
  lemma SingleJobAccepted()
    ensures Feasible(SingleJobInstance(), SingleJobSchedule(1, 1))
    ensures Argent(Build(SingleJobInstance()), SingleJobSchedule(1, 1)) == 100
  {
    var t := Build(SingleJobInstance());
    BuildDescribes(SingleJobInstance());
    SingleJobTables(t);
    SingleJobScheduleFits(t, 1, 1);
  }

  /** The window rows do not make the window tight: a schedule whose only
      worked day is day 1 is still feasible with begin = 0 and end = 5. */
  lemma WindowNotTight()
    ensures Feasible(SingleJobInstance(), SingleJobSchedule(0, 5))
    ensures At(SingleJobSchedule(0, 5).begin, "j") < 1 < At(SingleJobSchedule(0, 5).end, "j")
  {
    var t := Build(SingleJobInstance());
    BuildDescribes(SingleJobInstance());
    SingleJobTables(t);
    SingleJobScheduleFits(t, 0, 5);
  }
}
