/** The lookup tables the script fills before building the integer program
    (run.py:17-54). Each table is a dictionary filled by a loop over the staff
    or the jobs; a later item with the same name overwrites the entries of an
    earlier one, which `Tabulate` makes explicit. */
module Preprocessing {
  import opened Domain

  /** The dictionary left by writing `row(items[0])`, then `row(items[1])`,
      ..., into an empty one; a later row overwrites the keys an earlier row
      wrote. */
  function Tabulate<P, K, V>(items: seq<P>, row: P -> map<K, V>): map<K, V>
  {
    if |items| == 0 then map[]
    else Tabulate(items[..|items| - 1], row) + row(items[|items| - 1])
  }

  /** A key is in the dictionary exactly when some row writes it, and its
      value is one that some row wrote for it. */
  lemma {:induction false} TabulateKey<P, K, V>(items: seq<P>, row: P -> map<K, V>, k: K)
    ensures k in Tabulate(items, row) <==>
      exists i :: 0 <= i < |items| && k in row(items[i])
    ensures k in Tabulate(items, row) ==>
      exists i :: 0 <= i < |items| && k in row(items[i]) &&
        Tabulate(items, row)[k] == row(items[i])[k]
  {
    if |items| > 0 {
      var n := |items| - 1;
      var prefix := items[..n];
      TabulateKey(prefix, row, k);
      if k !in row(items[n]) {
        assert forall i :: 0 <= i < n ==> prefix[i] == items[i];
        if exists i :: 0 <= i < |items| && k in row(items[i]) {
          var i :| 0 <= i < |items| && k in row(items[i]);
          assert i < n && k in row(prefix[i]);
        }
      }
    }
  }

  /** The value under a key is the one the last row writing that key wrote. */
  lemma {:induction false} TabulateLast<P, K, V>(items: seq<P>, row: P -> map<K, V>, i: int, k: K)
    requires 0 <= i < |items| && k in row(items[i])
    requires forall j :: i < j < |items| ==> k !in row(items[j])
    ensures k in Tabulate(items, row)
    ensures Tabulate(items, row)[k] == row(items[i])[k]
  {
    var n := |items| - 1;
    if i < n {
      var prefix := items[..n];
      assert prefix[i] == items[i];
      assert forall j :: i < j < n ==> prefix[j] == items[j];
      TabulateLast(prefix, row, i, k);
    }
  }

  /** The entries `qualifie[worker, qual]` written for one member of staff. */
  function QualifieRow(p: Worker, quals: seq<Name>): map<(Name, Name), int>
  {
    map q | q in quals :: (p.name, q) := Indicator(q in p.qualifications)
  }

  /** The entries `conge[worker, day]` written for one member of staff. */
  function CongeRow(p: Worker, days: seq<int>): map<(Name, int), int>
  {
    map d | d in days :: (p.name, d) := Indicator(d in p.vacations)
  }

  /** The entries `itstoolate[job, day]` written for one job. */
  function LateRow(p: Job, days: seq<int>): map<(Name, int), int>
  {
    map d | d in days :: (p.name, d) := Indicator(d > p.dueDate)
  }

  /** The entries `requirements[job, qual]` written for one job. */
  function RequirementRow(p: Job, quals: seq<Name>): map<(Name, Name), int>
  {
    map q | q in quals :: (p.name, q) := Required(p, q)
  }

  /** `qualifie` (run.py:27-31), filled for every member of staff. */
  function QualifieTable(staff: seq<Worker>, quals: seq<Name>): map<(Name, Name), int>
  {
    Tabulate(staff, p => QualifieRow(p, quals))
  }

  /** `conge` (run.py:33-35), filled for every member of staff. */
  function CongeTable(staff: seq<Worker>, days: seq<int>): map<(Name, int), int>
  {
    Tabulate(staff, p => CongeRow(p, days))
  }

  /** `gain` (run.py:40). */
  function GainTable(jobs: seq<Job>): map<Name, int>
  {
    Tabulate(jobs, (p: Job) => map[p.name := p.gain])
  }

  /** `penalite` (run.py:47). */
  function PenaliteTable(jobs: seq<Job>): map<Name, int>
  {
    Tabulate(jobs, (p: Job) => map[p.name := p.dailyPenalty])
  }

  /** `itstoolate` (run.py:42-44). */
  function LateTable(jobs: seq<Job>, days: seq<int>): map<(Name, int), int>
  {
    Tabulate(jobs, p => LateRow(p, days))
  }

  /** `requirements` (run.py:49-54). */
  function RequirementTable(jobs: seq<Job>, quals: seq<Name>): map<(Name, Name), int>
  {
    Tabulate(jobs, p => RequirementRow(p, quals))
  }

  /** `qualifie[w, q]` is defined exactly for the staff names and declared
      qualifications, is always 0 or 1, and is 1 exactly when the worker
      lists the qualification. */
  lemma QualifieTableMeaning(staff: seq<Worker>, quals: seq<Name>)
    ensures forall n, q :: (n, q) in QualifieTable(staff, quals) <==>
      n in WorkerNames(staff) && q in quals
    ensures forall k :: k in QualifieTable(staff, quals) ==>
      IsBinary(QualifieTable(staff, quals)[k])
    ensures forall i, q :: 0 <= i < |staff| && LastWorker(staff, i) && q in quals ==>
      (QualifieTable(staff, quals)[(staff[i].name, q)] == 1 <==> q in staff[i].qualifications)
  {
    var row := p => QualifieRow(p, quals);
    var t := QualifieTable(staff, quals);
    var names := WorkerNames(staff);
    forall n, q ensures (n, q) in t <==> n in names && q in quals {
      TabulateKey(staff, row, (n, q));
      if n in names && q in quals {
        var i :| 0 <= i < |names| && names[i] == n;
        assert (n, q) in row(staff[i]);
      }
    }
    forall k | k in t ensures IsBinary(t[k]) {
      TabulateKey(staff, row, k);
    }
    forall i, q | 0 <= i < |staff| && LastWorker(staff, i) && q in quals
      ensures t[(staff[i].name, q)] == 1 <==> q in staff[i].qualifications
    {
      TabulateLast(staff, row, i, (staff[i].name, q));
    }
  }

  /** `conge[w, d]` is defined exactly for the staff names and the days of
      the horizon, is always 0 or 1, and is 1 exactly when the worker lists
      the day among its vacations. */
  lemma CongeTableMeaning(staff: seq<Worker>, days: seq<int>)
    ensures forall n, d :: (n, d) in CongeTable(staff, days) <==>
      n in WorkerNames(staff) && d in days
    ensures forall k :: k in CongeTable(staff, days) ==>
      IsBinary(CongeTable(staff, days)[k])
    ensures forall i, d :: 0 <= i < |staff| && LastWorker(staff, i) && d in days ==>
      (CongeTable(staff, days)[(staff[i].name, d)] == 1 <==> d in staff[i].vacations)
  {
    var row := p => CongeRow(p, days);
    var t := CongeTable(staff, days);
    var names := WorkerNames(staff);
    forall n, d ensures (n, d) in t <==> n in names && d in days {
      TabulateKey(staff, row, (n, d));
      if n in names && d in days {
        var i :| 0 <= i < |names| && names[i] == n;
        assert (n, d) in row(staff[i]);
      }
    }
    forall k | k in t ensures IsBinary(t[k]) {
      TabulateKey(staff, row, k);
    }
    forall i, d | 0 <= i < |staff| && LastWorker(staff, i) && d in days
      ensures t[(staff[i].name, d)] == 1 <==> d in staff[i].vacations
    {
      TabulateLast(staff, row, i, (staff[i].name, d));
    }
  }

  /** `itstoolate[j, d]` is defined exactly for the job names and the days
      of the horizon, is always 0 or 1, and is 1 exactly when the day is
      strictly after the job's due date. */
  lemma LateTableMeaning(jobs: seq<Job>, days: seq<int>)
    ensures forall n, d :: (n, d) in LateTable(jobs, days) <==>
      n in JobNames(jobs) && d in days
    ensures forall k :: k in LateTable(jobs, days) ==>
      IsBinary(LateTable(jobs, days)[k])
    ensures forall i, d :: 0 <= i < |jobs| && LastJob(jobs, i) && d in days ==>
      (LateTable(jobs, days)[(jobs[i].name, d)] == 1 <==> d > jobs[i].dueDate)
  {
    var row := p => LateRow(p, days);
    var t := LateTable(jobs, days);
    var names := JobNames(jobs);
    forall n, d ensures (n, d) in t <==> n in names && d in days {
      TabulateKey(jobs, row, (n, d));
      if n in names && d in days {
        var i :| 0 <= i < |names| && names[i] == n;
        assert (n, d) in row(jobs[i]);
      }
    }
    forall k | k in t ensures IsBinary(t[k]) {
      TabulateKey(jobs, row, k);
    }
    forall i, d | 0 <= i < |jobs| && LastJob(jobs, i) && d in days
      ensures t[(jobs[i].name, d)] == 1 <==> d > jobs[i].dueDate
    {
      TabulateLast(jobs, row, i, (jobs[i].name, d));
    }
  }

  /** `requirements[j, q]` is defined exactly for the job names and the
      declared qualifications; it is the job's listed count when the job
      lists the qualification and 0 otherwise. */
  lemma RequirementTableMeaning(jobs: seq<Job>, quals: seq<Name>)
    ensures forall n, q :: (n, q) in RequirementTable(jobs, quals) <==>
      n in JobNames(jobs) && q in quals
    ensures forall i, q :: 0 <= i < |jobs| && LastJob(jobs, i) && q in quals ==>
      RequirementTable(jobs, quals)[(jobs[i].name, q)] == Required(jobs[i], q)
  {
    var row := p => RequirementRow(p, quals);
    var t := RequirementTable(jobs, quals);
    var names := JobNames(jobs);
    forall n, q ensures (n, q) in t <==> n in names && q in quals {
      TabulateKey(jobs, row, (n, q));
      if n in names && q in quals {
        var i :| 0 <= i < |names| && names[i] == n;
        assert (n, q) in row(jobs[i]);
      }
    }
    forall i, q | 0 <= i < |jobs| && LastJob(jobs, i) && q in quals
      ensures t[(jobs[i].name, q)] == Required(jobs[i], q)
    {
      TabulateLast(jobs, row, i, (jobs[i].name, q));
    }
  }

  /** `gain` and `penalite` are defined exactly for the job names and hold
      the job's reward and daily penalty. */
  lemma GainPenaliteTableMeaning(jobs: seq<Job>)
    ensures forall n :: n in GainTable(jobs) <==> n in JobNames(jobs)
    ensures forall n :: n in PenaliteTable(jobs) <==> n in JobNames(jobs)
    ensures forall i :: 0 <= i < |jobs| && LastJob(jobs, i) ==>
      GainTable(jobs)[jobs[i].name] == jobs[i].gain &&
      PenaliteTable(jobs)[jobs[i].name] == jobs[i].dailyPenalty
  {
    var gainRow := (p: Job) => map[p.name := p.gain];
    var penaltyRow := (p: Job) => map[p.name := p.dailyPenalty];
    var names := JobNames(jobs);
    forall n ensures n in GainTable(jobs) <==> n in names {
      TabulateKey(jobs, gainRow, n);
      if n in names {
        var i :| 0 <= i < |names| && names[i] == n;
        assert n in gainRow(jobs[i]);
      }
    }
    forall n ensures n in PenaliteTable(jobs) <==> n in names {
      TabulateKey(jobs, penaltyRow, n);
      if n in names {
        var i :| 0 <= i < |names| && names[i] == n;
        assert n in penaltyRow(jobs[i]);
      }
    }
    forall i | 0 <= i < |jobs| && LastJob(jobs, i)
      ensures GainTable(jobs)[jobs[i].name] == jobs[i].gain
      ensures PenaliteTable(jobs)[jobs[i].name] == jobs[i].dailyPenalty
    {
      TabulateLast(jobs, gainRow, i, jobs[i].name);
      TabulateLast(jobs, penaltyRow, i, jobs[i].name);
    }
  }

  /** Everything the script derives from the instance before creating any
      variable: the four index lists and the six dictionaries. */
  datatype Tables = Tables(
    days: seq<int>,
    quals: seq<Name>,
    workers: seq<Name>,
    jobs: seq<Name>,
    qualifie: map<(Name, Name), int>,
    conge: map<(Name, int), int>,
    requirements: map<(Name, Name), int>,
    gain: map<Name, int>,
    penalite: map<Name, int>,
    itstoolate: map<(Name, int), int>)

  /** The preprocessing of run.py:17-54. */
  function Build(inst: Instance): Tables
  {
    var days := Days(inst.horizon);
    Tables(
      days,
      inst.qualifications,
      WorkerNames(inst.staff),
      JobNames(inst.jobs),
      QualifieTable(inst.staff, inst.qualifications),
      CongeTable(inst.staff, days),
      RequirementTable(inst.jobs, inst.qualifications),
      GainTable(inst.jobs),
      PenaliteTable(inst.jobs),
      LateTable(inst.jobs, days))
  }

  /** Every lookup the constraints and the objective make is defined, and
      the indicator tables hold 0 or 1. */
  predicate WellFormed(t: Tables)
  {
    && (forall w, q :: w in t.workers && q in t.quals ==>
          (w, q) in t.qualifie && IsBinary(t.qualifie[(w, q)]))
    && (forall w, d :: w in t.workers && d in t.days ==>
          (w, d) in t.conge && IsBinary(t.conge[(w, d)]))
    && (forall j, d :: j in t.jobs && d in t.days ==>
          (j, d) in t.itstoolate && IsBinary(t.itstoolate[(j, d)]))
    && (forall j, q :: j in t.jobs && q in t.quals ==> (j, q) in t.requirements)
    && (forall j :: j in t.jobs ==> j in t.gain && j in t.penalite)
  }

  /** What the preprocessing promises about its tables, stated over the
      instance: the index lists, every lookup defined, and each entry's
      meaning for the last item listed under a name. */
  predicate Describes(inst: Instance, t: Tables)
  {
    && t.days == Days(inst.horizon)
    && t.quals == inst.qualifications
    && t.workers == WorkerNames(inst.staff)
    && t.jobs == JobNames(inst.jobs)
    && WellFormed(t)
    && (forall i, q :: 0 <= i < |inst.staff| && LastWorker(inst.staff, i) && q in t.quals ==>
          (At(t.qualifie, (inst.staff[i].name, q)) == 1 <==> q in inst.staff[i].qualifications))
    && (forall i, d :: 0 <= i < |inst.staff| && LastWorker(inst.staff, i) && d in t.days ==>
          (At(t.conge, (inst.staff[i].name, d)) == 1 <==> d in inst.staff[i].vacations))
    && (forall i, d :: 0 <= i < |inst.jobs| && LastJob(inst.jobs, i) && d in t.days ==>
          (At(t.itstoolate, (inst.jobs[i].name, d)) == 1 <==> d > inst.jobs[i].dueDate))
    && (forall i, q :: 0 <= i < |inst.jobs| && LastJob(inst.jobs, i) && q in t.quals ==>
          At(t.requirements, (inst.jobs[i].name, q)) == Required(inst.jobs[i], q))
    && (forall i :: 0 <= i < |inst.jobs| && LastJob(inst.jobs, i) ==>
          && At(t.gain, inst.jobs[i].name) == inst.jobs[i].gain
          && At(t.penalite, inst.jobs[i].name) == inst.jobs[i].dailyPenalty)
  }

  /** The staff tables keep their promises. */
  lemma StaffTablesDescribed(inst: Instance, t: Tables)
    requires t.days == Days(inst.horizon) && t.quals == inst.qualifications
    requires t.workers == WorkerNames(inst.staff)
    requires t.qualifie == QualifieTable(inst.staff, inst.qualifications)
    requires t.conge == CongeTable(inst.staff, t.days)
    ensures forall w, q :: w in t.workers && q in t.quals ==>
      (w, q) in t.qualifie && IsBinary(t.qualifie[(w, q)])
    ensures forall w, d :: w in t.workers && d in t.days ==>
      (w, d) in t.conge && IsBinary(t.conge[(w, d)])
    ensures forall i, q :: 0 <= i < |inst.staff| && LastWorker(inst.staff, i) && q in t.quals ==>
      (At(t.qualifie, (inst.staff[i].name, q)) == 1 <==> q in inst.staff[i].qualifications)
    ensures forall i, d :: 0 <= i < |inst.staff| && LastWorker(inst.staff, i) && d in t.days ==>
      (At(t.conge, (inst.staff[i].name, d)) == 1 <==> d in inst.staff[i].vacations)
  {
    QualifieTableMeaning(inst.staff, inst.qualifications);
    CongeTableMeaning(inst.staff, t.days);
    forall i | 0 <= i < |inst.staff| ensures inst.staff[i].name in t.workers {
      assert t.workers[i] == inst.staff[i].name;
    }
  }

  /** The job tables keep their promises. */
  lemma JobTablesDescribed(inst: Instance, t: Tables)
    requires t.days == Days(inst.horizon) && t.quals == inst.qualifications
    requires t.jobs == JobNames(inst.jobs)
    requires t.requirements == RequirementTable(inst.jobs, inst.qualifications)
    requires t.gain == GainTable(inst.jobs) && t.penalite == PenaliteTable(inst.jobs)
    requires t.itstoolate == LateTable(inst.jobs, t.days)
    ensures forall j, d :: j in t.jobs && d in t.days ==>
      (j, d) in t.itstoolate && IsBinary(t.itstoolate[(j, d)])
    ensures forall j, q :: j in t.jobs && q in t.quals ==> (j, q) in t.requirements
    ensures forall j :: j in t.jobs ==> j in t.gain && j in t.penalite
    ensures forall i, d :: 0 <= i < |inst.jobs| && LastJob(inst.jobs, i) && d in t.days ==>
      (At(t.itstoolate, (inst.jobs[i].name, d)) == 1 <==> d > inst.jobs[i].dueDate)
    ensures forall i, q :: 0 <= i < |inst.jobs| && LastJob(inst.jobs, i) && q in t.quals ==>
      At(t.requirements, (inst.jobs[i].name, q)) == Required(inst.jobs[i], q)
    ensures forall i :: 0 <= i < |inst.jobs| && LastJob(inst.jobs, i) ==>
      && At(t.gain, inst.jobs[i].name) == inst.jobs[i].gain
      && At(t.penalite, inst.jobs[i].name) == inst.jobs[i].dailyPenalty
  {
    LateTableMeaning(inst.jobs, t.days);
    RequirementTableMeaning(inst.jobs, inst.qualifications);
    GainPenaliteTableMeaning(inst.jobs);
    forall i | 0 <= i < |inst.jobs| ensures inst.jobs[i].name in t.jobs {
      assert t.jobs[i] == inst.jobs[i].name;
    }
  }

  /** The preprocessing of run.py:17-54 keeps all of those promises, for
      every instance. */
  lemma BuildDescribes(inst: Instance)
    ensures Describes(inst, Build(inst))
  {
    var t := Build(inst);
    StaffTablesDescribed(inst, t);
    JobTablesDescribed(inst, t);
  }
}
