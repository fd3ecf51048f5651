/** The scheduling instance as the script receives it after parsing: a planning
    horizon, the declared qualification labels, the staff and the jobs. */
module Domain {

  type Name = string

  /** A member of staff: the qualifications it holds and the days it is off. */
  datatype Worker = Worker(name: Name, qualifications: seq<Name>, vacations: seq<int>)

  /** A job: its reward, due date, daily lateness penalty and the number of
      worker-days it needs per qualification label. */
  datatype Job = Job(
    name: Name,
    gain: int,
    dueDate: int,
    dailyPenalty: int,
    workingDays: map<Name, int>)

  datatype Instance = Instance(
    horizon: int,
    qualifications: seq<Name>,
    staff: seq<Worker>,
    jobs: seq<Job>)

  /** The worker-days of qualification `q` the job asks for: its listed
      count, and 0 for a qualification it does not list. */
  function Required(job: Job, q: Name): int
  {
    if q in job.workingDays then job.workingDays[q] else 0
  }

  /** `1 * (b)` of the script: a boolean read as 0 or 1. */
  function Indicator(b: bool): int
  {
    if b then 1 else 0
  }

  /** Reads a dictionary entry, 0 where the entry is missing. Every entry
      the formulation reads is present in the tables the preprocessing
      builds and in a declared valuation, so the default is never read
      there; it only keeps the predicates total. */
  function At<K>(m: map<K, int>, k: K): int
  {
    if k in m then m[k] else 0
  }

  predicate IsBinary(x: int)
  {
    x == 0 || x == 1
  }

  /** The day list `range(1, horizon + 1)`: the days 1, 2, ..., horizon in
      order, and nothing when the horizon is not positive. */
  function Days(horizon: int): (r: seq<int>)
    ensures |r| == if horizon > 0 then horizon else 0
    ensures forall i :: 0 <= i < |r| ==> r[i] == i + 1
    ensures forall d :: d in r <==> 1 <= d <= horizon
  {
    if horizon <= 0 then [] else Days(horizon - 1) + [horizon]
  }

  /** The names of `items` in order, the `[x["name"] for x in ...]` of
      run.py:20-21. */
  function Names<P>(items: seq<P>, name: P -> Name): (r: seq<Name>)
    ensures |r| == |items|
    ensures forall i :: 0 <= i < |items| ==> r[i] == name(items[i])
  {
    seq(|items|, i requires 0 <= i < |items| => name(items[i]))
  }

  function WorkerNames(staff: seq<Worker>): seq<Name>
  {
    Names(staff, (p: Worker) => p.name)
  }

  function JobNames(jobs: seq<Job>): seq<Name>
  {
    Names(jobs, (p: Job) => p.name)
  }

  /** No later member of staff carries the same name as `staff[i]`, so the
      entries the script writes for `staff[i]` are the ones that survive. */
  predicate LastWorker(staff: seq<Worker>, i: int)
    requires 0 <= i < |staff|
  {
    forall k :: i < k < |staff| ==> staff[k].name != staff[i].name
  }

  predicate LastJob(jobs: seq<Job>, i: int)
    requires 0 <= i < |jobs|
  {
    forall k :: i < k < |jobs| ==> jobs[k].name != jobs[i].name
  }

  /** Every worker name has a last member of staff carrying it. */
  lemma {:induction false} LastWorkerFrom(staff: seq<Worker>, i: int) returns (a: int)
    requires 0 <= i < |staff|
    ensures i <= a < |staff| && staff[a].name == staff[i].name && LastWorker(staff, a)
    decreases |staff| - i
  {
    if k :| i < k < |staff| && staff[k].name == staff[i].name {
      a := LastWorkerFrom(staff, k);
    } else {
      a := i;
    }
  }
}
