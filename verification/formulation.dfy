/** The integer program of run.py:57-144: the decision variables as an
    integer valuation keyed by index tuples, and one predicate per family
    of constraints. A solution the solver returns is a valuation that
    satisfies `Feasible`. */
module Formulation {
  import opened Domain
  import opened Sums
  import opened Preprocessing

  /** The big-M constant of run.py:121. */
  const M: int := 1000000

  /** A value for every decision variable, keyed like the script's
      dictionaries of variables. */
  datatype Valuation = Valuation(
    chosenjob: map<Name, int>,
    begin: map<Name, int>,
    end: map<Name, int>,
    estaffecte: map<(Name, Name), int>,
    planning: map<(Name, Name, int, Name), int>,
    workedtoday: map<(Name, int), int>,
    nbmaxjobs: int,
    maxlenjob: int)

  /** The variable space of run.py:64-89: every variable exists, the
      binary ones are 0 or 1, and `begin`, `end`, `nbmaxjobs`, `maxlenjob`
      are non-negative integers. */
  predicate Declared(t: Tables, v: Valuation)
  {
    && (forall j :: j in t.jobs ==>
          && j in v.chosenjob && IsBinary(v.chosenjob[j])
          && j in v.begin && v.begin[j] >= 0
          && j in v.end && v.end[j] >= 0)
    && (forall w, j :: w in t.workers && j in t.jobs ==>
          (w, j) in v.estaffecte && IsBinary(v.estaffecte[(w, j)]))
    && (forall w, q, d, j :: w in t.workers && q in t.quals && d in t.days && j in t.jobs ==>
          (w, q, d, j) in v.planning && IsBinary(v.planning[(w, q, d, j)]))
    && (forall j, d :: j in t.jobs && d in t.days ==>
          (j, d) in v.workedtoday && IsBinary(v.workedtoday[(j, d)]))
    && v.nbmaxjobs >= 0
    && v.maxlenjob >= 0
  }

  /** `planning[w, q, d, j]`. */
  function Slot(v: Valuation, w: Name, q: Name, d: int, j: Name): int
  {
    At(v.planning, (w, q, d, j))
  }

  /** The flattened sum of run.py:100-107: what worker `w` does on day `d`,
      over every job and qualification. */
  function DaySlots(t: Tables, v: Valuation, w: Name, d: int): int
  {
    Sum(t.jobs, j => Sum(t.quals, q => Slot(v, w, q, d, j)))
  }

  /** The flattened sum of run.py:136-143: the worker-days of qualification
      `q` given to job `j`, over every day and worker. */
  function QualSlots(days: seq<int>, workers: seq<Name>, v: Valuation, j: Name, q: Name): int
  {
    Sum(days, d => Sum(workers, w => Slot(v, w, q, d, j)))
  }

  /** The sum of run.py:95: the jobs worker `w` is staffed on. */
  function StaffedJobs(t: Tables, v: Valuation, w: Name): int
  {
    Sum(t.jobs, j => At(v.estaffecte, (w, j)))
  }

  /** The completion row of run.py:134-144 for one job and qualification. */
  predicate CompletionRow(requirement: int, chosen: int, total: int)
  {
    requirement - M * (1 - chosen) <= total
  }

  /** The start-date row of run.py:128 for one job and day. */
  predicate BeginRow(day: int, begin: int, worked: int)
  {
    day - begin >= M * (worked - 1)
  }

  /** The end-date row of run.py:130 for one job and day. */
  predicate EndRow(day: int, end: int, worked: int)
  {
    end - day >= M * (worked - 1)
  }

  /** run.py:95. */
  predicate NbMaxJobsBound(t: Tables, v: Valuation)
  {
    forall w :: w in t.workers ==> StaffedJobs(t, v, w) <= v.nbmaxjobs
  }

  /** run.py:99-109. */
  predicate Uniqueness(t: Tables, v: Valuation)
  {
    forall w, d :: w in t.workers && d in t.days ==> DaySlots(t, v, w, d) <= 1
  }

  /** run.py:113. */
  predicate QualificationGate(t: Tables, v: Valuation)
  {
    forall w, q, d, j :: w in t.workers && q in t.quals && d in t.days && j in t.jobs ==>
      Slot(v, w, q, d, j) <= At(t.qualifie, (w, q))
  }

  /** run.py:115. */
  predicate VacationExclusion(t: Tables, v: Valuation)
  {
    forall w, q, d, j :: w in t.workers && q in t.quals && d in t.days && j in t.jobs ==>
      Slot(v, w, q, d, j) + At(t.conge, (w, d)) <= 1
  }

  /** run.py:117. */
  predicate StaffedLink(t: Tables, v: Valuation)
  {
    forall w, q, d, j :: w in t.workers && q in t.quals && d in t.days && j in t.jobs ==>
      At(v.estaffecte, (w, j)) >= Slot(v, w, q, d, j)
  }

  /** run.py:119. */
  predicate WorkedTodayLink(t: Tables, v: Valuation)
  {
    forall w, q, d, j :: w in t.workers && q in t.quals && d in t.days && j in t.jobs ==>
      Slot(v, w, q, d, j) <= At(v.workedtoday, (j, d))
  }

  /** run.py:124. */
  predicate MaxLenBound(t: Tables, v: Valuation)
  {
    forall j :: j in t.jobs ==> 1 + At(v.end, j) - At(v.begin, j) <= v.maxlenjob
  }

  /** run.py:126-130. */
  predicate Window(t: Tables, v: Valuation)
  {
    forall j, d :: j in t.jobs && d in t.days ==>
      && BeginRow(d, At(v.begin, j), At(v.workedtoday, (j, d)))
      && EndRow(d, At(v.end, j), At(v.workedtoday, (j, d)))
  }

  /** run.py:132-144. */
  predicate Completion(t: Tables, v: Valuation)
  {
    forall j, q :: j in t.jobs && q in t.quals ==>
      CompletionRow(At(t.requirements, (j, q)), At(v.chosenjob, j), QualSlots(t.days, t.workers, v, j, q))
  }

  /** Every constraint the script adds, over the tables it derived. */
  predicate FeasibleFor(t: Tables, v: Valuation)
  {
    && Declared(t, v)
    && NbMaxJobsBound(t, v)
    && Uniqueness(t, v)
    && QualificationGate(t, v)
    && VacationExclusion(t, v)
    && StaffedLink(t, v)
    && WorkedTodayLink(t, v)
    && MaxLenBound(t, v)
    && Window(t, v)
    && Completion(t, v)
  }

  /** The valuation is a feasible point of the program the script builds
      for `inst`. */
  predicate Feasible(inst: Instance, v: Valuation)
  {
    FeasibleFor(Build(inst), v)
  }
}
