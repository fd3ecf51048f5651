# Workforce planning formulation, modelled in Dafny

`run.py` reads a scheduling instance (a horizon of days, qualification
labels, staff with qualifications and vacations, jobs with a reward, a due
date, a daily lateness penalty and worker-days needed per qualification),
builds a 0/1 integer program for Gurobi, solves it and prints and plots the
schedule. This project models the formulation, which has three parts:

- **Preprocessing** (`preprocessing.dfy`, module `Preprocessing`). The day
  list `range(1, horizon + 1)` is `Domain.Days`. The dictionaries
  `qualifie`, `conge`, `itstoolate`, `gain`, `penalite` and `requirements`
  are each built as a fold over the staff or the jobs. In the fold a later
  item with the same name overwrites the entries of an earlier one, as a
  Python dictionary assignment does (`Tabulate`). The properties of each
  table are stated for the last item listed under a name. When names are
  distinct, that is every item.
- **Constraint system** (`formulation.dfy`, module `Formulation`). The
  decision variables `chosenjob`, `begin`, `end`, `estaffecte`, `planning`,
  `workedtoday`, `nbmaxjobs` and `maxlenjob` form an integer `Valuation`.
  It is made of maps keyed by the same index tuples as the script's
  dictionaries of variables. Each constraint family is one predicate. The
  families are uniqueness, qualification, vacation, the two linking
  definitions, the completion big-M with `M = 10**6`, the begin/end window
  big-M, and the `nbmaxjobs`/`maxlenjob` bounds. `FeasibleFor` conjoins them
  with the variable domains. `Feasible(inst, v)` applies it to the tables
  built from `inst`. Sums are `Sums.Sum` over the index lists, so a name
  listed twice contributes twice, as in `quicksum`.
- **Objective** (`objective.dfy`, module `Objective`). `Argent` is revenue
  minus the daily penalty on each late day flagged as worked.

`bigm.dfy` states what the big-M rows mean. `safety.dfy` proves that every
feasible valuation encodes a safe schedule. `scenarios.dfy` evaluates one
small instance.

Notes on what `run.py` does and does not enforce:
- `run.py` does no schema validation. A non-positive horizon gives an empty
  day list. A requirement for a qualification outside the declared list is
  ignored.
- `estaffecte` and `workedtoday` are only bounded below by the slots
  (run.py:117-119). They are not "iff" definitions, so the objective charges
  a penalty on every late day whose `workedtoday` flag is 1.
- The begin/end window is not tight. `Scenarios.WindowNotTight` exhibits a
  feasible schedule whose window is wider than its work.

## Model

| member | source | states |
|---|---|---|
| Domain.Days | run.py:18 | the day list is 1, 2, ..., horizon in order; a day is in it exactly when 1 <= day <= horizon; it is empty for a non-positive horizon |
| Domain.Names | run.py:20-21 | definition of the worker and job name lists: the names of the items, in order, one per item |
| Preprocessing.Tabulate | run.py:24-54 | definition of a dictionary filled by a loop over the items, later writes overwriting earlier ones |
| Preprocessing.QualifieTable | run.py:27-31 | definition of `qualifie` |
| Preprocessing.CongeTable | run.py:33-35 | definition of `conge` |
| Preprocessing.GainTable | run.py:40 | definition of `gain` |
| Preprocessing.LateTable | run.py:42-44 | definition of `itstoolate` |
| Preprocessing.PenaliteTable | run.py:47 | definition of `penalite` |
| Preprocessing.RequirementTable | run.py:49-54 | definition of `requirements` |
| Preprocessing.Build | run.py:17-54 | definition of the whole preprocessing: the four index lists and the six dictionaries |
| Formulation.Declared | run.py:64-89 | definition of the variable space: every variable exists, the binary ones are 0 or 1, the integer ones are non-negative |
| Formulation.NbMaxJobsBound | run.py:92-95 | definition of the `nbmaxjobs` rows |
| Formulation.Uniqueness | run.py:97-109 | definition of the uniqueness rows |
| Formulation.QualificationGate | run.py:113 | definition of the qualification rows |
| Formulation.VacationExclusion | run.py:115 | definition of the vacation rows |
| Formulation.StaffedLink | run.py:117 | definition of the `estaffecte` rows |
| Formulation.WorkedTodayLink | run.py:119 | definition of the `workedtoday` rows |
| Formulation.MaxLenBound | run.py:123-124 | definition of the `maxlenjob` rows |
| Formulation.Window | run.py:126-130 | definition of the begin and end big-M rows |
| Formulation.Completion | run.py:132-144 | definition of the completion big-M rows |
| Formulation.FeasibleFor | run.py:64-144 | definition of feasibility: the variable space and every family of rows, over given tables |
| Formulation.Feasible | run.py:17-144 | definition of feasibility for an instance: `FeasibleFor` over the tables built from it |
| Objective.LatePenalty | run.py:150-155 | definition of a job's penalty sum |
| Objective.Argent | run.py:147-158 | definition of the objective `argent` |
| Preprocessing.TabulateKey | run.py:24-54 | a dictionary filled by the preprocessing loops holds exactly the keys some item writes, each with a value some item wrote |
| Preprocessing.TabulateLast | run.py:24-54 | a key written by several items holds the value written by the last of them |
| Preprocessing.QualifieTableMeaning | run.py:27-31 | `qualifie[w,q]` is defined exactly for staff names and declared qualifications, is always 0 or 1, and is 1 exactly when the worker lists q |
| Preprocessing.CongeTableMeaning | run.py:33-35 | `conge[w,d]` is defined exactly for staff names and horizon days, is always 0 or 1, and is 1 exactly when d is among the worker's vacations |
| Preprocessing.LateTableMeaning | run.py:42-44 | `itstoolate[j,d]` is defined exactly for job names and horizon days, is always 0 or 1, and is 1 exactly when d > due date (strictly) |
| Preprocessing.RequirementTableMeaning | run.py:49-54 | `requirements[j,q]` is defined for every job and declared qualification; it is the listed count when the job lists q, and 0 otherwise |
| Preprocessing.GainPenaliteTableMeaning | run.py:37-47 | `gain` and `penalite` are defined exactly for the job names and hold each job's reward and daily penalty |
| Preprocessing.StaffTablesDescribed | run.py:24-35 | tables whose `qualifie` and `conge` are the ones filled from the staff have both lookups defined and 0/1 on every worker/qualification and worker/day pair, with `qualifie` 1 exactly when the (last-listed) worker lists the qualification and `conge` 1 exactly when the day is among its vacations |
| Preprocessing.JobTablesDescribed | run.py:37-54 | tables whose job dictionaries are the ones filled from the jobs define `itstoolate` (0/1), `requirements`, `gain` and `penalite` on every job/day, job/qualification and job key, and for the last-listed job hold 1 exactly after the due date, the listed count (0 when unlisted), the reward and the daily penalty |
| Preprocessing.BuildDescribes | run.py:17-54 | for every instance the built tables have the instance's index lists, define every lookup the constraints and the objective make, and mean what the instance says |
| BigM.CompletionRowSwitch | run.py:121-144 | an accepted job's completion row is exactly "slots cover the requirement"; a rejected job's row holds for every non-negative slot total exactly when the requirement is at most M |
| BigM.WindowRowsSwitch | run.py:126-130 | on a worked day the begin and end rows together say exactly begin <= d <= end; on an idle day they say only begin <= d + M and end >= d - M |
| BigM.QualSlotsNonNegative | run.py:136-143 | the slot total summed in a completion row is never negative |
| BigM.RejectedJobCompletionVacuous | run.py:132-144 | for a rejected job whose requirements are at most M, all completion rows hold whatever the slots are |
| BigM.IdleJobWindowVacuous | run.py:126-130 | a job with no worked day satisfies all its window rows for any begin in 0..M+1 and any non-negative end, when every day lies in 1..M |
| Safety.UniquenessRowExclusive | run.py:97-109 | a worker-day whose 0/1 slot sum is at most 1 has at most one slot (one job position, one qualification position) set to 1 |
| Safety.SlotSafety | run.py:110-130 | a slot set to 1 has `qualifie = 1` and `conge = 0`, forces `estaffecte` and `workedtoday` to 1, and lies in the job's window |
| Safety.UniquenessExclusive | run.py:97-109 | the uniqueness rows make every worker-day exclusive |
| Safety.CompletionWhenChosen | run.py:132-144 | an accepted job gets, per qualification, at least `requirements[j,q]` worker-days |
| Safety.StaffingBound | run.py:92-95 | `nbmaxjobs` is at least the number of jobs each worker is staffed on |
| Safety.SpanBound | run.py:124-130 | `maxlenjob` is at least the span, both ends included, of any two worked days of a job |
| Safety.AssignmentSafe | run.py:27-130 | for tables that describe the instance and a feasible valuation over them, one slot set to 1 uses a qualification the worker lists, on a day not among its vacations, inside the job's window |
| Safety.DescribedAssignmentsSafe | run.py:27-130 | over tables that describe the instance, in a feasible valuation, a slot set to 1 uses a qualification the worker lists, on a day not among its vacations, inside the job's window |
| Safety.DescribedExclusiveSafe | run.py:97-109 | over tables that describe the instance, in a feasible valuation each worker-day of the horizon holds at most one slot set to 1 |
| Safety.DescribedCompletionSafe | run.py:49-144 | over tables that describe the instance, in a feasible valuation an accepted job gets, per declared qualification, at least the worker-days it lists (0 when unlisted) |
| Safety.FeasibleIsSafe | run.py:27-144 | every feasible valuation is a safe schedule: qualified, not on vacation, exclusive per worker-day, complete when accepted |
| Safety.UnsuppliableGetsNoSlot | run.py:110-115 | a qualification that no worker both holds and is available for on any day receives no worker-day |
| Safety.UnsuppliableJobRejected | run.py:132-144 | a job needing worker-days of such a qualification is rejected by every feasible valuation |
| Objective.LatePenaltyPerLateWorkedDay | run.py:150-155 | a job's penalty term is its daily penalty times the number of days that are late and flagged as worked |
| Objective.ObjectiveIsRevenueMinusPenalties | run.py:147-158 | the objective equals the sum over jobs of reward times acceptance minus daily penalty times late worked days |
| Objective.NoLateWorkNoPenalty | run.py:147-158 | a job with no late worked day contributes exactly reward times acceptance |
| Objective.LateWorkedDaysAfterDueDate | run.py:42-44 | for tables that describe the instance, a job's late worked days are its worked days strictly after its due date |
| Objective.OnTimeJobNoPenalty | run.py:42-44 | a job due no earlier than the last day of the horizon is never penalised |
| Scenarios.SingleJobTables | run.py:17-54 | tables that describe the one-worker, one-job instance have days [1], one qualification, one worker, one job, and the entries qualifie 1, conge 0, requirement 1, itstoolate 0 and gain 100 |
| Scenarios.SingleJobAccepted | run.py:88-158 | for that instance, accepting the job and working it on day 1 is feasible and earns 100 |
| Scenarios.WindowNotTight | run.py:124-130 | the same schedule stays feasible with begin = 0 and end = 5, so the window is not tight |

## Left out

- JSON loading (run.py:12-15) is file I/O. The instance is taken as an already-parsed `Domain.Instance`.
- Building the Gurobi model and calling `optimize` (run.py:57, run.py:162) belong to an external MILP solver. The constraints are predicates over a valuation. Nothing is claimed about optimality or about the solver's search.
- The `numpy` flattening (run.py:101-106, run.py:137-142) only lists the terms of a sum. It is modelled as a sum of sums over the index lists.
- Printing (run.py:165-175) and plotting (run.py:178-220) are console and UI output. The script decodes no schedule beyond them, so there is no decoder to model.
- The `.x == 1` tests on floating-point solver values (run.py:167, run.py:174, run.py:208) are left out. Variable values are integers, and solver tolerances are out of scope.
- `gain`, `daily_penalty` and the requirement counts are integers in the model. The JSON could hold floats, and floating point is not modelled.
- Variables are keyed by names, as in the script. A valuation that lacks a declared variable is not `Declared`. `Formulation.At` reads a missing entry as 0 only so that the predicates stay total.
