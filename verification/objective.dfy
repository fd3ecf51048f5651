/** The objective `argent` of run.py:146-158: the rewards of the accepted
    jobs minus, for every job, its daily penalty on each late day on which
    it is worked. */
module Objective {
  import opened Domain
  import opened Sums
  import opened Preprocessing
  import opened Formulation

  /** The penalty sum of run.py:150-155 for one job. */
  function LatePenalty(t: Tables, v: Valuation, j: Name): int
  {
    Sum(t.days, d => At(t.itstoolate, (j, d)) * At(v.workedtoday, (j, d)) * At(t.penalite, j))
  }

  /** The objective of run.py:147-158, to be maximised. */
  function Argent(t: Tables, v: Valuation): int
  {
    Sum(t.jobs, j => At(t.gain, j) * At(v.chosenjob, j) - LatePenalty(t, v, j))
  }

  /** The days of the horizon that are late for job `j` and on which it is
      worked. */
  function LateWorkedDays(t: Tables, v: Valuation, j: Name): nat
  {
    Count(t.days, d => At(t.itstoolate, (j, d)) == 1 && At(v.workedtoday, (j, d)) == 1)
  }

  /** A job's penalty is its daily penalty once for every late worked day. */
  lemma LatePenaltyPerLateWorkedDay(t: Tables, v: Valuation, j: Name)
    requires WellFormed(t) && Declared(t, v) && j in t.jobs
    ensures LatePenalty(t, v, j) == At(t.penalite, j) * LateWorkedDays(t, v, j)
  {
    var p := At(t.penalite, j);
    var f := d => At(t.itstoolate, (j, d)) * At(v.workedtoday, (j, d)) * At(t.penalite, j);
    var g := d => At(t.itstoolate, (j, d)) * At(v.workedtoday, (j, d));
    var late := d => At(t.itstoolate, (j, d)) == 1 && At(v.workedtoday, (j, d)) == 1;
    forall d | d in t.days ensures f(d) == p * g(d) && IsBinary(g(d)) && (late(d) <==> g(d) == 1) {
      var a, w := At(t.itstoolate, (j, d)), At(v.workedtoday, (j, d));
      assert IsBinary(a) && IsBinary(w);
      if a == 0 {
        assert g(d) == 0 && f(d) == 0;
      } else if w == 0 {
        assert g(d) == 0 && f(d) == 0;
      } else {
        assert g(d) == 1 && f(d) == p;
      }
    }
    SumScale(t.days, f, g, p);
    SumOfBinaryIsCount(t.days, g, late);
    assert LatePenalty(t, v, j) == Sum(t.days, f);
    assert LateWorkedDays(t, v, j) == Count(t.days, late);
  }

  /** The objective is the revenue of the accepted jobs minus, per job, the
      daily penalty times the number of late worked days. */
  lemma ObjectiveIsRevenueMinusPenalties(t: Tables, v: Valuation)
    requires WellFormed(t) && Declared(t, v)
    ensures Argent(t, v) ==
      Sum(t.jobs, j => At(t.gain, j) * At(v.chosenjob, j) - At(t.penalite, j) * LateWorkedDays(t, v, j))
  {
    forall j | j in t.jobs
      ensures At(t.gain, j) * At(v.chosenjob, j) - LatePenalty(t, v, j) ==
        At(t.gain, j) * At(v.chosenjob, j) - At(t.penalite, j) * LateWorkedDays(t, v, j)
    {
      LatePenaltyPerLateWorkedDay(t, v, j);
    }
    SumPointwise(t.jobs,
      j => At(t.gain, j) * At(v.chosenjob, j) - LatePenalty(t, v, j),
      j => At(t.gain, j) * At(v.chosenjob, j) - At(t.penalite, j) * LateWorkedDays(t, v, j));
  }

  /** A job never worked on a late day contributes exactly its reward times
      its acceptance flag. */
  lemma NoLateWorkNoPenalty(t: Tables, v: Valuation, j: Name)
    requires WellFormed(t) && Declared(t, v) && j in t.jobs
    requires forall d :: d in t.days ==> At(t.itstoolate, (j, d)) == 0 || At(v.workedtoday, (j, d)) == 0
    ensures LatePenalty(t, v, j) == 0
  {
    var late := d => At(t.itstoolate, (j, d)) == 1 && At(v.workedtoday, (j, d)) == 1;
    forall i | 0 <= i < |t.days| ensures !late(t.days[i]) {
      var d := t.days[i];
      assert d in t.days;
      assert At(t.itstoolate, (j, d)) == 0 || At(v.workedtoday, (j, d)) == 0;
    }
    assert LateWorkedDays(t, v, j) == Count(t.days, late) == 0;
    LatePenaltyPerLateWorkedDay(t, v, j);
  }

  /** For tables that describe an instance, the late worked days of a job
      are the worked days strictly after its due date. */
  lemma LateWorkedDaysAfterDueDate(inst: Instance, t: Tables, v: Valuation, b: int)
    requires Describes(inst, t)
    requires 0 <= b < |inst.jobs| && LastJob(inst.jobs, b)
    ensures LateWorkedDays(t, v, inst.jobs[b].name) ==
      Count(Days(inst.horizon),
        d => d > inst.jobs[b].dueDate && At(v.workedtoday, (inst.jobs[b].name, d)) == 1)
  {
    var job := inst.jobs[b];
    CountPointwise(t.days,
      d => At(t.itstoolate, (job.name, d)) == 1 && At(v.workedtoday, (job.name, d)) == 1,
      d => d > job.dueDate && At(v.workedtoday, (job.name, d)) == 1);
  }

  /** A job due no earlier than the end of the horizon is never penalised. */
  lemma OnTimeJobNoPenalty(inst: Instance, t: Tables, v: Valuation, b: int)
    requires Describes(inst, t) && Declared(t, v)
    requires 0 <= b < |inst.jobs| && LastJob(inst.jobs, b)
    requires inst.jobs[b].dueDate >= inst.horizon
    ensures LatePenalty(t, v, inst.jobs[b].name) == 0
  {
    assert inst.jobs[b].name == t.jobs[b];
    LateWorkedDaysAfterDueDate(inst, t, v, b);
    LatePenaltyPerLateWorkedDay(t, v, inst.jobs[b].name);
  }
}
