/** The session: job states, resource records and the run list
    (session/state.py), with the result observer of ctrl.py and the run step of
    applogic.py that drive it. */
module Session {
  import opened Base
  import opened Resource
  import opened Graph
  import opened Jobs
  import opened Solver
  import opened Selection
  import opened Readiness

  datatype JobState = JobState(job: Job, inhibitors: seq<Inhibitor>, outcome: JobOutcome, attempts: int)

  type States = map<string, JobState>

  /** A job result: its outcome and the records parsed from its output. */
  datatype JobResult = JobResult(outcome: JobOutcome, records: seq<Record>)

  function OutcomesIn(states: States): Outcomes {
    map id | id in states :: states[id].outcome
  }

  // ----- Recomputing readiness -----

  function Reset(states: States): States {
    map id | id in states :: states[id].(inhibitors := [UNDESIRED])
  }

  /** Resetting the jobs with these ids. */
  function ResetAmong(states: States, ids: set<string>): States {
    map id | id in states :: if id in ids then states[id].(inhibitors := [UNDESIRED]) else states[id]
  }

  lemma ResetOneMore(states: States, ids: set<string>, id: string)
    requires id in states
    ensures var now := ResetAmong(states, ids);
            ResetAmong(states, ids + {id}) == now[id := now[id].(inhibitors := [UNDESIRED])]
  {
  }

  /** The jobs not marked undesired, in session order. */
  function Running(jobs: seq<Job>, states: States): seq<Job> {
    if jobs == [] then []
    else
      var rest := Running(jobs[1..], states);
      if jobs[0].id in states && UNDESIRED !in states[jobs[0].id].inhibitors then [jobs[0]] + rest else rest
  }

  function Cleared(states: States, job: Job): States
    requires job.id in states
  {
    states[job.id := states[job.id].(inhibitors := RemoveFirst(states[job.id].inhibitors, UNDESIRED))]
  }

  function Extended(states: States, job: Job, more: seq<Inhibitor>): States
    requires job.id in states
  {
    states[job.id := states[job.id].(inhibitors := states[job.id].inhibitors + more)]
  }

  /** One turn of the recomputation: the job loses its undesired mark, then gets
      the inhibitors found in the states as they are at that moment. */
  ghost function Admitted(inspect: Inspector, jobs: seq<Job>, states: States, job: Job): States
    requires job.id in states
  {
    var cleared := Cleared(states, job);
    Extended(cleared, job, inspect(OutcomesIn(cleared), job, Running(jobs, cleared)))
  }

  ghost function Recomputed(inspect: Inspector, jobs: seq<Job>, states: States, runList: seq<Job>)
    : (r: States)
    requires IdSet(runList) <= states.Keys
    ensures r.Keys == states.Keys
    ensures forall id | id in states :: r[id] == states[id].(inhibitors := r[id].inhibitors)
  {
    if runList == [] then Reset(states)
    else
      var init, last := runList[..|runList| - 1], runList[|runList| - 1];
      assert last in runList && IdSet(init) <= IdSet(runList);
      Admitted(inspect, jobs, Recomputed(inspect, jobs, states, init), last)
  }

  /** The jobs among `jobs` whose ids are in `ids`, in session order. */
  function Among(jobs: seq<Job>, ids: set<string>): seq<Job> {
    if jobs == [] then []
    else if jobs[0].id in ids then [jobs[0]] + Among(jobs[1..], ids)
    else Among(jobs[1..], ids)
  }

  lemma {:induction false} InAmong(jobs: seq<Job>, ids: set<string>)
    ensures forall j :: j in Among(jobs, ids) <==> j in jobs && j.id in ids
  {
    if jobs == [] {
    } else {
      InAmong(jobs[1..], ids);
    }
  }

  lemma {:induction false} RunningIsAmong(jobs: seq<Job>, states: States, ids: set<string>)
    requires IdSet(jobs) <= states.Keys
    requires forall id | id in states :: UNDESIRED !in states[id].inhibitors <==> id in ids
    ensures Running(jobs, states) == Among(jobs, ids)
  {
    if jobs == [] {
    } else {
      assert forall j | j in jobs[1..] :: j in jobs;
      assert jobs[0] in jobs;
      RunningIsAmong(jobs[1..], states, ids);
    }
  }

  /** The inspector never gives the job the undesired mark. */
  ghost predicate NeverUndesires(inspect: Inspector, outcomes: Outcomes, job: Job) {
    forall running :: UNDESIRED !in inspect(outcomes, job, running)
  }

  lemma NeverUndesired(py: Python, outcomes: Outcomes, resources: ResourceMap, job: Job)
    requires Answerable(py, outcomes, job)
    ensures NeverUndesires(InspectorOf(py, resources), outcomes, job)
  {
    forall running ensures UNDESIRED !in Inhibitors(py, outcomes, resources, job, running) {
      ProgramPartMeaning(py, outcomes, resources, job);
      PartCauses(outcomes, job, running);
    }
  }

  /** What recomputation leaves behind: a job outside the run list is undesired,
      and a job on it has the inhibitors of its own situation, a suspend job
      looking only at the jobs up to itself. */
  ghost predicate UpToDate(inspect: Inspector, jobs: seq<Job>, states: States, runList: seq<Job>) {
    && (forall id | id in states && id !in IdSet(runList) :: states[id].inhibitors == [UNDESIRED])
    && (forall i | 0 <= i < |runList| :: UpToDateAt(inspect, jobs, states, runList, i))
  }

  ghost predicate UpToDateAt(inspect: Inspector, jobs: seq<Job>, states: States, runList: seq<Job>,
          i: nat)
    requires i < |runList|
  {
    && runList[i].id in states
    && states[runList[i].id].inhibitors
       == inspect(OutcomesIn(states), runList[i], Among(jobs, IdSet(runList[..i + 1])))
  }

  /** The undesired marks are gone for exactly the ids in `ids`. */
  ghost predicate Desired(states: States, ids: set<string>) {
    forall id | id in states :: UNDESIRED !in states[id].inhibitors <==> id in ids
  }

  lemma ClearedMeaning(states: States, job: Job, ids: set<string>)
    requires job.id in states && states[job.id].inhibitors == [UNDESIRED] && Desired(states, ids)
    ensures var r := Cleared(states, job);
            r[job.id].inhibitors == [] && OutcomesIn(r) == OutcomesIn(states) && Desired(r, ids + {job.id})
  {
    assert RemoveFirst([UNDESIRED], UNDESIRED) == [];
  }

  lemma ExtendedMeaning(states: States, job: Job, more: seq<Inhibitor>, ids: set<string>)
    requires job.id in states && states[job.id].inhibitors == [] && Desired(states, ids) && job.id in ids
    requires UNDESIRED !in more
    ensures var r := Extended(states, job, more);
            r[job.id].inhibitors == more && OutcomesIn(r) == OutcomesIn(states) && Desired(r, ids)
  {
    assert [] + more == more;
  }

  lemma AdmittedMeaning(inspect: Inspector, jobs: seq<Job>, states: States, job: Job, ids: set<string>)
    requires job.id in states && states[job.id].inhibitors == [UNDESIRED] && IdSet(jobs) <= states.Keys
    requires NeverUndesires(inspect, OutcomesIn(states), job) && Desired(states, ids)
    ensures var r := Admitted(inspect, jobs, states, job);
            && OutcomesIn(r) == OutcomesIn(states)
            && Desired(r, ids + {job.id})
            && (forall id | id in states && id != job.id :: r[id] == states[id])
            && r[job.id].inhibitors == inspect(OutcomesIn(states), job, Among(jobs, ids + {job.id}))
  {
    var cleared, now := Cleared(states, job), ids + {job.id};
    ClearedMeaning(states, job, ids);
    RunningIsAmong(jobs, cleared, now);
    var more := inspect(OutcomesIn(states), job, Among(jobs, now));
    ExtendedMeaning(cleared, job, more, now);
  }

  lemma {:induction false} RecomputedIsUpToDate(inspect: Inspector, jobs: seq<Job>, states: States,
          runList: seq<Job>)
    requires IdSet(runList) <= states.Keys && IdSet(jobs) <= states.Keys && Distinct(Ids(runList))
    requires forall j | j in runList :: NeverUndesires(inspect, OutcomesIn(states), j)
    ensures var r := Recomputed(inspect, jobs, states, runList);
            && OutcomesIn(r) == OutcomesIn(states)
            && Desired(r, IdSet(runList))
            && UpToDate(inspect, jobs, r, runList)
  {
    if runList == [] {
      assert OutcomesIn(Reset(states)) == OutcomesIn(states);
    } else {
      var init, last := runList[..|runList| - 1], runList[|runList| - 1];
      assert runList == init + [last];
      IdSetAppend(init, last);
      assert Ids(runList) == Ids(init) + [last.id];
      IdsAndIdSet(init);
      RecomputedIsUpToDate(inspect, jobs, states, init);
      var before := Recomputed(inspect, jobs, states, init);
      AdmittedMeaning(inspect, jobs, before, last, IdSet(init));
      UpToDateGrows(inspect, jobs, before, Recomputed(inspect, jobs, states, runList), init, last);
    }
  }

  lemma UpToDateGrows(inspect: Inspector, jobs: seq<Job>, before: States, after: States,
          init: seq<Job>, last: Job)
    requires UpToDate(inspect, jobs, before, init)
    requires after.Keys == before.Keys && OutcomesIn(after) == OutcomesIn(before) && last.id in before
    requires last.id !in IdSet(init) && forall id | id in before && id != last.id :: after[id] == before[id]
    requires after[last.id].inhibitors
             == inspect(OutcomesIn(before), last, Among(jobs, IdSet(init) + {last.id}))
    ensures UpToDate(inspect, jobs, after, init + [last])
  {
    var runList := init + [last];
    IdSetAppend(init, last);
    forall i | 0 <= i < |runList| ensures UpToDateAt(inspect, jobs, after, runList, i) {
      if i < |init| {
        assert runList[..i + 1] == init[..i + 1];
        assert UpToDateAt(inspect, jobs, before, init, i);
        assert init[i] in init;
      } else {
        assert runList[..i + 1] == runList;
      }
    }
  }

  // ----- One result -----

  /** What a result does to the outcomes. */
  function Noted(outcomes: Outcomes, job: Job, result: JobResult): Outcomes {
    outcomes[job.id := result.outcome]
  }

  function Observed(states: States, job: Job, result: JobResult): States
    requires job.id in states
  {
    states[job.id := states[job.id].(outcome := result.outcome)]
  }

  lemma ObservedMeaning(py: Python, jobs: seq<Job>, states: States, runList: seq<Job>, job: Job, result: JobResult)
    requires Describes(py, jobs, states, runList) && job.id in states
    ensures var r := Observed(states, job, result);
            Describes(py, jobs, r, runList) && OutcomesIn(r) == Noted(OutcomesIn(states), job, result)
  {
    var r := Observed(states, job, result);
    assert OutcomesIn(r) == Noted(OutcomesIn(states), job, result);
    forall j | j in runList ensures Answerable(py, OutcomesIn(r), j) {
      assert Answerable(py, OutcomesIn(states), j);
    }
  }

  /** What it does to the records: a resource job that really ran replaces its
      records, and leaves one empty record when it printed none. */
  function Stored(resources: ResourceMap, job: Job, result: JobResult): ResourceMap {
    if job.isResource && result.outcome != NoOutcome
    then resources[job.id := if result.records == [] then [map[]] else result.records]
    else resources
  }

  /** The records of a resource job after its result: those it printed, or one
      empty record if it printed none. */
  ghost predicate RecordsOf(resources: ResourceMap, id: string, result: JobResult) {
    && id in resources
    && (result.records != [] ==> resources[id] == result.records)
    && (result.records == [] ==> |resources[id]| == 1 && resources[id][0] == map[])
  }

  /** Only this resource job's records change, and only by a result with an
      outcome. */
  lemma StoredMeaning(resources: ResourceMap, job: Job, result: JobResult)
    ensures var r := Stored(resources, job, result);
            && (job.isResource && result.outcome != NoOutcome ==> RecordsOf(r, job.id, result))
            && (!job.isResource || result.outcome == NoOutcome ==> r == resources)
            && r - {job.id} == resources - {job.id}
  {
  }

  /** The outcome of a job that cannot start. */
  function BlockedOutcome(outcomes: Outcomes, inhibitors: seq<Inhibitor>): JobOutcome {
    if exists x | x in inhibitors :: MirrorsSkip(outcomes, x) then Skipped else NotSupported
  }

  /** A failed dependency that was skipped. */
  predicate MirrorsSkip(outcomes: Outcomes, x: Inhibitor) {
    x.cause == FailedDep && x.related.Some? && OutcomeOf(outcomes, x.related.value) == Skipped
  }

  /** The loop of `run_job_if_possible` over the inhibitors. */
  method OutcomeWhenBlocked(outcomes: Outcomes, inhibitors: seq<Inhibitor>) returns (outcome: JobOutcome)
    ensures outcome == BlockedOutcome(outcomes, inhibitors)
  {
    outcome := NotSupported;
    for i := 0 to |inhibitors|
      invariant outcome in {NotSupported, Skipped}
      invariant outcome == Skipped <==> exists k | 0 <= k < i :: MirrorsSkip(outcomes, inhibitors[k])
    {
      if MirrorsSkip(outcomes, inhibitors[i]) {
        outcome := Skipped;
      }
    }
  }

  predicate CanStart(s: JobState) {
    s.inhibitors == [] && s.attempts > 0
  }

  /** The states describe the job list, and every job on the run list can be
      asked about. */
  ghost predicate Describes(py: Python, jobs: seq<Job>, states: States, runList: seq<Job>) {
    && states.Keys == IdSet(jobs) && (forall j | j in jobs :: states[j.id].job == j)
    && Distinct(Ids(runList)) && (forall j | j in runList :: j in jobs && Answerable(py, OutcomesIn(states), j))
  }

  /** Only the inhibitors may differ. */
  ghost predicate SameButReadiness(before: States, after: States) {
    && before.Keys == after.Keys
    && forall id | id in before :: after[id] == before[id].(inhibitors := after[id].inhibitors)
  }

  ghost predicate RecomputesTo(inspect: Inspector, jobs: seq<Job>, before: States, runList: seq<Job>, after: States)
  {
    IdSet(runList) <= before.Keys && after == Recomputed(inspect, jobs, before, runList)
  }

  lemma RecomputedIsValid(py: Python, jobs: seq<Job>, before: States, resources: ResourceMap, runList: seq<Job>,
          after: States)
    requires Describes(py, jobs, before, runList)
    requires RecomputesTo(InspectorOf(py, resources), jobs, before, runList, after)
    ensures Describes(py, jobs, after, runList) && UpToDate(InspectorOf(py, resources), jobs, after, runList)
    ensures OutcomesIn(after) == OutcomesIn(before) && SameButReadiness(before, after)
  {
    forall j | j in runList ensures NeverUndesires(InspectorOf(py, resources), OutcomesIn(before), j) {
      NeverUndesired(py, OutcomesIn(before), resources, j);
    }
    RecomputedIsUpToDate(InspectorOf(py, resources), jobs, before, runList);
  }

  /** No two different jobs share an id. */
  ghost predicate NoClash(jobs: seq<Job>) {
    forall j, k | j in jobs && k in jobs && j.id == k.id :: j == k
  }

  /** The list without the earlier ones of identical jobs. */
  function KeepLast(jobs: seq<Job>): seq<Job> {
    if jobs == [] then []
    else if jobs[0] in jobs[1..] then KeepLast(jobs[1..])
    else [jobs[0]] + KeepLast(jobs[1..])
  }

  lemma {:induction false} KeepLastOfDistinct(jobs: seq<Job>)
    requires Distinct(Ids(jobs))
    ensures KeepLast(jobs) == jobs
  {
    if jobs == [] {
    } else {
      assert jobs == [jobs[0]] + jobs[1..];
      DistinctHead(jobs[0], jobs[1..]);
      KeepLastOfDistinct(jobs[1..]);
    }
  }

  /** Dropping the first of two identical jobs does not change what is kept. */
  lemma {:induction false} KeepLastStays(jobs: seq<Job>, i: nat, k: nat)
    requires i < k < |jobs| && jobs[i] == jobs[k]
    ensures KeepLast(RemoveFirst(jobs, jobs[i])) == KeepLast(jobs)
  {
    var rest, job := jobs[1..], jobs[i];
    if jobs[0] == job {
      assert rest[k - 1] == job;
    } else {
      KeepLastStays(rest, i - 1, k - 1);
      RemoveFirstMeaning(rest, job);
      assert ([jobs[0]] + RemoveFirst(rest, job))[1..] == RemoveFirst(rest, job);
    }
  }

  /** The loop of the constructor: identical duplicates are dropped one by one,
      the last of them staying; a clash between different jobs is reported. */
  method SettleDuplicates(jobs: seq<Job>) returns (r: Result<seq<Job>, DependencyError>)
    ensures r.Success? <==> NoClash(jobs)
    ensures r.Success? ==> Distinct(Ids(r.value)) && r.value == KeepLast(jobs)
    ensures r.Success? ==> forall j :: j in r.value <==> j in jobs
    ensures r.Failure? ==> r.error.DuplicateError? && r.error.job in jobs && r.error.duplicate in jobs
                           && r.error.job.id == r.error.duplicate.id && r.error.job != r.error.duplicate
  {
    var list := jobs;
    while true
      invariant (forall j :: j in list <==> j in jobs) && KeepLast(list) == KeepLast(jobs)
      decreases |list|
    {
      var built := GetJobMap(list);
      if built.Success? {
        MapOfDistinct(list);
        KeepLastOfDistinct(list);
        return Success(list);
      }
      if built.error.job != built.error.duplicate {
        return Failure(built.error);
      }
      RepeatedStays(list, built.error.duplicate);
      list := RemoveFirst(list, built.error.duplicate);
    }
  }

  lemma {:induction false} LaterStays(jobs: seq<Job>, i: nat, k: nat)
    requires i < k < |jobs| && jobs[i] == jobs[k]
    ensures jobs[i] in RemoveFirst(jobs, jobs[i])
  {
    if jobs[0] == jobs[i] {
      assert jobs[1..][k - 1] == jobs[i];
    } else {
      LaterStays(jobs[1..], i - 1, k - 1);
    }
  }

  lemma RepeatedStays(jobs: seq<Job>, job: Job)
    requires exists i, k | 0 <= i < k < |jobs| :: jobs[i] == job == jobs[k]
    ensures |RemoveFirst(jobs, job)| == |jobs| - 1
    ensures forall j :: j in RemoveFirst(jobs, job) <==> j in jobs
    ensures KeepLast(RemoveFirst(jobs, job)) == KeepLast(jobs)
  {
    var i, k :| 0 <= i < k < |jobs| && jobs[i] == job == jobs[k];
    LaterStays(jobs, i, k);
    KeepLastStays(jobs, i, k);
    RemoveFirstMeaning(jobs, job);
  }

  /** What holds of a session between calls. */
  ghost predicate InOrder(py: Python, jobs: seq<Job>, states: States, resources: ResourceMap, runList: seq<Job>) {
    && Distinct(Ids(jobs)) && Describes(py, jobs, states, runList)
    && UpToDate(InspectorOf(py, resources), jobs, states, runList)
  }

  /** The run list is a solution for the desired jobs. */
  ghost predicate Solves(py: Python, jobs: seq<Job>, desired: seq<Job>, runList: seq<Job>) {
    IsSolution(Dependencies(py, jobs, desired), IdSet(desired), MapOf(jobs), runList)
  }

  function FirstStates(jobs: seq<Job>): States {
    var m := MapOf(jobs);
    map id | id in m :: JobState(m[id], [UNDESIRED], NoOutcome, 3)
  }

  /** A state that nothing has happened to yet. */
  predicate Untried(s: JobState, j: Job) {
    s.job == j && s.inhibitors == [UNDESIRED] && s.outcome == NoOutcome && s.attempts > 0
  }

  lemma FirstStatesMeaning(py: Python, jobs: seq<Job>)
    requires Distinct(Ids(jobs))
    ensures InOrder(py, jobs, FirstStates(jobs), map[], [])
    ensures forall j | j in jobs :: j.id in FirstStates(jobs) && Untried(FirstStates(jobs)[j.id], j)
  {
    var m, states := MapOf(jobs), FirstStates(jobs);
    MapOfDistinct(jobs);
    assert states.Keys == m.Keys;
    forall j | j in jobs ensures states[j.id].job == j {
      assert j.id in m && m[j.id] == j;
    }
  }

  lemma NothingIsSolved(py: Python, jobs: seq<Job>)
    ensures Solves(py, jobs, [], [])
  {
    NothingNeeded(Dependencies(py, jobs, []));
  }

  class SessionState {
    const py: Python
    const jobList: seq<Job>
    var stateMap: States
    var resourceMap: ResourceMap
    var mandatoryJobList: seq<Job>
    var desiredJobList: seq<Job>
    var runList: seq<Job>

    ghost predicate Structured()
      reads this
    {
      Distinct(Ids(jobList)) && Describes(py, jobList, stateMap, runList)
    }

    ghost predicate Valid()
      reads this
    {
      InOrder(py, jobList, stateMap, resourceMap, runList)
    }

    /** The run list is a solution for the desired jobs. */
    ghost predicate Solved()
      reads this`desiredJobList, this`runList
    {
      Solves(py, jobList, desiredJobList, runList)
    }

    constructor (py: Python, jobs: seq<Job>)
      requires Distinct(Ids(jobs))
      ensures Valid() && this.py == py && jobList == jobs
      ensures stateMap == FirstStates(jobs) && resourceMap == map[]
      ensures forall j | j in jobs :: j.id in stateMap && Untried(stateMap[j.id], j)
      ensures runList == [] && desiredJobList == [] && mandatoryJobList == []
    {
      FirstStatesMeaning(py, jobs);
      this.py := py;
      jobList := jobs;
      stateMap := FirstStates(jobs);
      resourceMap, mandatoryJobList, desiredJobList, runList := map[], [], [], [];
    }

    /** `_recompute_job_readiness`. */
    method RecomputeJobReadiness()
      requires Structured()
      modifies this`stateMap
      ensures Valid() && OutcomesIn(stateMap) == old(OutcomesIn(stateMap))
      ensures SameButReadiness(old(stateMap), stateMap)
    {
      ghost var before := stateMap;
      assert IdSet(runList) <= IdSet(jobList);
      ResetReadiness();
      AdmitRunList(before);
      RecomputedIsValid(py, jobList, before, resourceMap, runList, stateMap);
    }

    /** Its first loop: every job becomes undesired. */
    method ResetReadiness()
      requires Structured()
      modifies this`stateMap
      ensures stateMap == Reset(old(stateMap))
    {
      ghost var before := stateMap;
      for i := 0 to |jobList|
        invariant stateMap == ResetAmong(before, IdSet(jobList[..i]))
      {
        TakeMore(jobList, i);
        IdSetAppend(jobList[..i], jobList[i]);
        var id := jobList[i].id;
        assert jobList[i] in jobList;
        ResetOneMore(before, IdSet(jobList[..i]), id);
        stateMap := stateMap[id := stateMap[id].(inhibitors := [UNDESIRED])];
      }
      TakeAll(jobList);
      assert ResetAmong(before, before.Keys) == Reset(before);
    }

    /** Its second loop: a single pass over the run list. */
    method AdmitRunList(ghost before: States)
      requires stateMap == Reset(before) && IdSet(runList) <= before.Keys
      requires forall j | j in runList :: Answerable(py, OutcomesIn(before), j)
      modifies this`stateMap
      ensures RecomputesTo(InspectorOf(py, resourceMap), jobList, before, runList, stateMap)
    {
      RecomputedNothing(InspectorOf(py, resourceMap), jobList, before);
      for k := 0 to |runList|
        invariant RecomputesTo(InspectorOf(py, resourceMap), jobList, before, runList[..k], stateMap)
      {
        assert runList[k] in runList;
        AdmitNext(before, runList[..k], runList[k]);
        TakeMore(runList, k);
      }
      TakeAll(runList);
    }

    /** The body of that loop. */
    method AdmitNext(ghost before: States, ghost init: seq<Job>, job: Job)
      requires RecomputesTo(InspectorOf(py, resourceMap), jobList, before, init, stateMap)
      requires job.id in before && Answerable(py, OutcomesIn(before), job)
      modifies this`stateMap
      ensures RecomputesTo(InspectorOf(py, resourceMap), jobList, before, init + [job], stateMap)
    {
      RecomputedStep(InspectorOf(py, resourceMap), jobList, before, init, job);
      RecomputedOutcomes(InspectorOf(py, resourceMap), jobList, before, init);
      AdmitJob(job);
    }

    /** One job: its undesired mark goes, its inhibitors come. */
    method AdmitJob(job: Job)
      requires job.id in stateMap && Answerable(py, OutcomesIn(stateMap), job)
      modifies this`stateMap
      ensures stateMap == Admitted(InspectorOf(py, resourceMap), jobList, old(stateMap), job)
    {
      ClearedOutcomes(stateMap, job);
      stateMap := Cleared(stateMap, job);
      var running := Running(jobList, stateMap);
      RunningKnown(jobList, stateMap);
      var inhibitors := GetInhibitorList(py, OutcomesIn(stateMap), resourceMap, job, running);
      stateMap := Extended(stateMap, job, inhibitors);
    }

    /** `observe_result` with `_parse_and_store_resource`, for a fixed job set. */
    method ObserveResult(job: Job, result: JobResult)
      requires Structured() && job in jobList
      requires job.isResource && result.outcome == NoOutcome ==> job.id in resourceMap
      modifies this`stateMap, this`resourceMap
      ensures Structured()
      ensures OutcomesIn(stateMap) == Noted(old(OutcomesIn(stateMap)), job, result)
      ensures resourceMap == Stored(old(resourceMap), job, result)
      ensures job.isResource && result.outcome != NoOutcome ==> RecordsOf(resourceMap, job.id, result)
      ensures resourceMap - {job.id} == old(resourceMap) - {job.id}
      ensures forall id | id in stateMap :: stateMap[id] == old(stateMap)[id].(outcome := stateMap[id].outcome)
    {
      StoredMeaning(resourceMap, job, result);
      ObservedMeaning(py, jobList, stateMap, runList, job, result);
      stateMap := Observed(stateMap, job, result);
      if job.isResource && result.outcome != NoOutcome {
        var list := result.records;
        if list == [] {
          list := [map[]];
        }
        resourceMap := resourceMap[job.id := list];
      }
    }

    method UpdateJobResult(job: Job, result: JobResult)
      requires Valid() && job in jobList
      requires job.isResource && result.outcome == NoOutcome ==> job.id in resourceMap
      modifies this`stateMap, this`resourceMap
      ensures Valid()
      ensures OutcomesIn(stateMap) == Noted(old(OutcomesIn(stateMap)), job, result)
      ensures resourceMap == Stored(old(resourceMap), job, result)
      ensures forall id | id in stateMap :: stateMap[id].attempts == old(stateMap)[id].attempts
    {
      ObserveResult(job, result);
      RecomputeJobReadiness();
    }

    /** `run_job_if_possible` of applogic.py, with `update` set. `ran` is what
        the runner would return. */
    method RunJobIfPossible(job: Job, ran: JobResult) returns (result: JobResult, handed: bool)
      requires Valid() && job in jobList
      requires job.isResource && ran.outcome == NoOutcome ==> job.id in resourceMap
      modifies this`stateMap, this`resourceMap
      ensures Valid() && runList == old(runList)
      ensures handed == old(CanStart(stateMap[job.id]))
      ensures result == if handed then ran
                        else JobResult(BlockedOutcome(old(OutcomesIn(stateMap)), old(stateMap[job.id].inhibitors)), [])
      ensures OutcomesIn(stateMap) == Noted(old(OutcomesIn(stateMap)), job, result)
      ensures resourceMap == Stored(old(resourceMap), job, result)
      ensures forall id | id in stateMap :: stateMap[id].attempts == old(stateMap)[id].attempts
    {
      var state := stateMap[job.id];
      handed := CanStart(state);
      if handed {
        result := ran;
      } else {
        var outcome := OutcomeWhenBlocked(OutcomesIn(stateMap), state.inhibitors);
        result := JobResult(outcome, []);
      }
      UpdateJobResult(job, result);
    }

    /** `update_desired_job_list`. */
    method UpdateDesiredJobList(desired: seq<Job>, includeMandatory: bool) returns (problems: seq<DependencyError>)
      requires Valid()
      requires SameObjects(Asked(mandatoryJobList, desired, includeMandatory), jobList)
      requires Runnable(py, jobList, Asked(mandatoryJobList, desired, includeMandatory))
      modifies this`stateMap, this`desiredJobList, this`runList
      ensures Valid() && Solved() && OutcomesIn(stateMap) == old(OutcomesIn(stateMap))
      ensures Selected(py, jobList, Asked(mandatoryJobList, desired, includeMandatory), desiredJobList, runList,
              problems)
      ensures problems == [] ==> desiredJobList == (if includeMandatory then mandatoryJobList else []) + desired
    {
      var wanted, runs;
      wanted, runs, problems := SolveWhatCanBe(py, jobList, Asked(mandatoryJobList, desired, includeMandatory));
      SolutionIsAnswerable(py, jobList, Asked(mandatoryJobList, desired, includeMandatory), wanted, runs,
          OutcomesIn(stateMap));
      AdoptRunList(wanted, runs);
    }

    method AdoptRunList(wanted: seq<Job>, runs: seq<Job>)
      requires Structured() && Distinct(Ids(runs))
      requires forall j | j in runs :: j in jobList && Answerable(py, OutcomesIn(stateMap), j)
      modifies this`stateMap, this`desiredJobList, this`runList
      ensures Valid() && OutcomesIn(stateMap) == old(OutcomesIn(stateMap))
      ensures desiredJobList == wanted && runList == runs
    {
      desiredJobList, runList := wanted, runs;
      RecomputeJobReadiness();
    }
  }

  /** `SessionState(unit_list)`, for units that are jobs. */
  method NewSession(py: Python, jobs: seq<Job>) returns (r: Result<SessionState, DependencyError>)
    ensures r.Success? <==> NoClash(jobs)
    ensures r.Success? ==> fresh(r.value) && r.value.Valid() && r.value.Solved()
    ensures r.Success? ==> r.value.py == py && r.value.runList == []
                           && forall j :: j in r.value.jobList <==> j in jobs
    ensures r.Success? ==> r.value.resourceMap == map[]
                           && forall j | j in jobs :: j.id in r.value.stateMap && Untried(r.value.stateMap[j.id], j)
  {
    var settled := SettleDuplicates(jobs);
    if settled.Failure? {
      return Failure(settled.error);
    }
    assert IdSet(settled.value) == IdSet(jobs);
    var session := new SessionState(py, settled.value);
    NothingIsSolved(py, settled.value);
    r := Success(session);
  }

  function Asked(mandatory: seq<Job>, desired: seq<Job>, includeMandatory: bool): seq<Job> {
    if includeMandatory then mandatory + desired else desired
  }

  lemma RecomputedNothing(inspect: Inspector, jobs: seq<Job>, before: States)
    ensures RecomputesTo(inspect, jobs, before, [], Reset(before))
  {
  }

  lemma RecomputedStep(inspect: Inspector, jobs: seq<Job>, states: States, init: seq<Job>, job: Job)
    requires IdSet(init) <= states.Keys && job.id in states
    ensures IdSet(init + [job]) <= states.Keys
    ensures Recomputed(inspect, jobs, states, init + [job])
            == Admitted(inspect, jobs, Recomputed(inspect, jobs, states, init), job)
  {
    IdSetAppend(init, job);
    var longer := init + [job];
    assert longer[..|longer| - 1] == init && longer[|longer| - 1] == job;
  }

  lemma ClearedOutcomes(states: States, job: Job)
    requires job.id in states
    ensures OutcomesIn(Cleared(states, job)) == OutcomesIn(states)
  {
  }

  lemma RecomputedOutcomes(inspect: Inspector, jobs: seq<Job>, states: States, runList: seq<Job>)
    requires IdSet(runList) <= states.Keys
    ensures OutcomesIn(Recomputed(inspect, jobs, states, runList)) == OutcomesIn(states)
  {
  }

  lemma {:induction false} RunningKnown(jobs: seq<Job>, states: States)
    ensures forall j | j in Running(jobs, states) :: j.id in states
  {
    if jobs == [] {
    } else {
      RunningKnown(jobs[1..], states);
    }
  }

  /** Whatever the jobs asked for need can be asked about: salvaged jobs exist
      and programs are valid. Recomputation raises for any other job. */
  ghost predicate Runnable(py: Python, jobs: seq<Job>, asked: seq<Job>) {
    forall j | j in jobs && Needed(Dependencies(py, jobs, asked), IdSet(asked), j.id) ::
      j.salvage <= IdSet(jobs) && HasValidProgram(py, j)
  }

  lemma NeededByAll(py: Python, jobs: seq<Job>, asked: seq<Job>, desired: seq<Job>, id: string)
    requires Distinct(Ids(jobs)) && forall j | j in desired :: j in asked
    requires Needed(Dependencies(py, jobs, desired), IdSet(desired), id)
    ensures Needed(Dependencies(py, jobs, asked), IdSet(asked), id)
  {
    MoreVisitsMoreEdges(py, jobs, jobs, desired, asked);
    NeededInBigger(Dependencies(py, jobs, desired), Dependencies(py, jobs, asked), IdSet(desired), id);
  }

  /** The jobs of a solution refer to known jobs only. */
  lemma SolutionIsAnswerable(py: Python, jobs: seq<Job>, asked: seq<Job>, desired: seq<Job>, solution: seq<Job>,
          outcomes: Outcomes)
    requires Distinct(Ids(jobs)) && outcomes.Keys == IdSet(jobs)
    requires Runnable(py, jobs, asked) && multiset(desired) <= multiset(asked)
    requires IsSolution(Dependencies(py, jobs, desired), IdSet(desired), MapOf(jobs), solution)
    ensures forall j | j in solution :: j in jobs && Answerable(py, outcomes, j)
    ensures Distinct(Ids(solution))
  {
    forall j | j in solution ensures j in jobs && Answerable(py, outcomes, j) {
      SolvedIsKnown(py, jobs, desired, solution, j);
      forall d | d in desired ensures d in asked { assert d in multiset(desired); }
      NeededByAll(py, jobs, asked, desired, j.id);
    }
  }

  lemma SolvedIsKnown(py: Python, jobs: seq<Job>, desired: seq<Job>, solution: seq<Job>, j: Job)
    requires Distinct(Ids(jobs)) && j in solution
    requires IsSolution(Dependencies(py, jobs, desired), IdSet(desired), MapOf(jobs), solution)
    ensures j in jobs && DependencyIds(py, j, desired) <= IdSet(jobs)
    ensures Needed(Dependencies(py, jobs, desired), IdSet(desired), j.id)
    ensures j.direct <= IdSet(jobs) && j.after <= IdSet(jobs) && RequiredIds(py, j) <= IdSet(jobs)
  {
    var next, ids := Dependencies(py, jobs, desired), Ids(solution);
    MapOfDistinct(jobs);
    OwnDependencies(py, jobs, desired, j);
    var i :| 0 <= i < |solution| && solution[i] == j;
    assert PlacedRight(next, ids, i);
    EarlierIsKnown(solution, i, IdSet(jobs));
    OwnPartsKnown(py, j, desired, IdSet(jobs));
  }

  lemma OwnPartsKnown(py: Python, job: Job, jobs: seq<Job>, known: set<string>)
    requires DependencyIds(py, job, jobs) <= known
    ensures job.direct <= known && job.after <= known && RequiredIds(py, job) <= known
  {
    DependencyIdsMeaning(py, job, jobs);
    forall id | id in job.direct || id in job.after || id in RequiredIds(py, job) ensures id in known {
      assert DependsOn(py, job, jobs, id);
    }
  }

  lemma EarlierIsKnown(solution: seq<Job>, i: nat, known: set<string>)
    requires i < |solution| && forall j | j in solution :: j.id in known
    ensures forall id | id in Ids(solution)[..i] :: id in known
  {
  }
}
