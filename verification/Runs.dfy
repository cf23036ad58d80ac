/** Whole runs: the run list is worked through once, in order, each job by one
    run step. What the dependency order guarantees about such a run, and how
    outcomes spread along direct dependencies. */
module Runs {
  import opened Base
  import opened Resource
  import opened Graph
  import opened Jobs
  import opened Solver
  import opened Selection
  import opened Readiness
  import opened Session

  /** What has been learnt so far. */
  datatype Progress = Progress(outcomes: Outcomes, resources: ResourceMap)

  /** A run: what the session holds at the start, what the runner would return
      for each job of the run list if it were handed that job, and the result
      each job actually got. */
  datatype Run = Run(
    py: Python,
    jobs: seq<Job>,
    visits: seq<Job>,
    runList: seq<Job>,
    attempts: map<string, int>,
    start: Progress,
    ran: seq<JobResult>,
    results: seq<JobResult>)

  ghost predicate Shaped(p: Run) {
    |p.ran| == |p.runList| == |p.results|
  }

  function Next(now: Progress, job: Job, result: JobResult): Progress {
    Progress(Noted(now.outcomes, job, result), Stored(now.resources, job, result))
  }

  /** What is known just before the `k`-th job of the run list. */
  ghost function Before(p: Run, k: nat): Progress
    requires Shaped(p) && k <= |p.runList|
  {
    if k == 0 then p.start else Next(Before(p, k - 1), p.runList[k - 1], p.results[k - 1])
  }

  ghost function After(p: Run): Progress
    requires Shaped(p)
  {
    Before(p, |p.runList|)
  }

  /** The inhibitors of the `k`-th job at its turn. */
  ghost function Inhibiting(p: Run, k: nat): seq<Inhibitor>
    requires Shaped(p) && k < |p.runList|
  {
    var now := Before(p, k);
    Inhibitors(p.py, now.outcomes, now.resources, p.runList[k], Among(p.jobs, IdSet(p.runList[..k + 1])))
  }

  ghost predicate Handed(p: Run, k: nat)
    requires Shaped(p) && k < |p.runList|
  {
    Inhibiting(p, k) == [] && p.runList[k].id in p.attempts && p.attempts[p.runList[k].id] > 0
  }

  /** What the run step gives the `k`-th job. */
  ghost function StepResult(p: Run, k: nat): JobResult
    requires Shaped(p) && k < |p.runList|
  {
    if Handed(p, k) then p.ran[k] else JobResult(BlockedOutcome(Before(p, k).outcomes, Inhibiting(p, k)), [])
  }

  ghost predicate StepDone(p: Run, k: nat)
    requires Shaped(p) && k < |p.runList|
  {
    p.results[k] == StepResult(p, k)
  }

  ghost predicate DoneUpTo(p: Run, k: nat)
    requires Shaped(p) && k <= |p.runList|
  {
    forall i | 0 <= i < k :: StepDone(p, i)
  }

  /** What the program of the `k`-th job names are resource jobs. */
  ghost predicate NamesResourceJobs(p: Run, k: nat)
    requires k < |p.runList|
  {
    forall r | r in p.jobs && r.id in RequiredIds(p.py, p.runList[k]) :: r.isResource
  }

  /** The runner always reports some outcome. */
  predicate AllReport(ran: seq<JobResult>) {
    forall i | 0 <= i < |ran| :: ran[i].outcome != NoOutcome
  }

  /** What is settled before the first job: the run list is an order for what
      was visited, and every job on it can be asked about. */
  ghost predicate Planned(p: Run) {
    && Shaped(p)
    && Distinct(Ids(p.jobs)) && (forall j | j in p.runList :: j in p.jobs)
    && p.start.outcomes.Keys == IdSet(p.jobs) && p.attempts.Keys == IdSet(p.jobs)
    && Ordered(Dependencies(p.py, p.jobs, p.visits), Ids(p.runList))
    && (forall j | j in p.runList :: Answerable(p.py, p.start.outcomes, j))
    && AllReport(p.ran)
  }

  /** A run that was planned and in which every step was a run step. */
  ghost predicate Sound(p: Run) {
    Planned(p) && DoneUpTo(p, |p.runList|)
  }

  // ----- Every plan has its run -----

  function With(p: Run, k: nat, result: JobResult): Run
    requires k < |p.results|
  {
    p.(results := p.results[k := result])
  }

  /** What comes before a job does not depend on its own result. */
  lemma {:induction false} BeforeStays(p: Run, k: nat, result: JobResult, j: nat)
    requires Shaped(p) && j <= k < |p.runList|
    ensures Before(With(p, k, result), j) == Before(p, j)
  {
    if j == 0 {
    } else {
      BeforeStays(p, k, result, j - 1);
    }
  }

  lemma StepStays(p: Run, k: nat, result: JobResult, j: nat)
    requires Shaped(p) && j <= k < |p.runList|
    ensures StepResult(With(p, k, result), j) == StepResult(p, j) && Handed(With(p, k, result), j) == Handed(p, j)
  {
    BeforeStays(p, k, result, j);
  }

  /** Giving the next job what the run step gives it. */
  lemma OneStepMore(p: Run, k: nat)
    requires Planned(p) && k < |p.runList| && DoneUpTo(p, k)
    ensures var q := With(p, k, StepResult(p, k));
            Planned(q) && DoneUpTo(q, k + 1) && Before(q, k) == Before(p, k) && Handed(q, k) == Handed(p, k)
  {
    var q := With(p, k, StepResult(p, k));
    BeforeStays(p, k, StepResult(p, k), k);
    forall i | 0 <= i < k + 1 ensures StepDone(q, i) {
      StepStays(p, k, StepResult(p, k), i);
      if i < k { assert StepDone(p, i); }
    }
  }

  /** Whatever the runner would answer, some run follows the plan. */
  lemma RunExists(p: Run)
    requires Planned(p)
    ensures exists results :: Sound(p.(results := results))
  {
    var q := CompleteRun(p, |p.runList|);
    assert Sound(p.(results := q.results));
  }

  lemma {:induction false} CompleteRun(p: Run, k: nat) returns (q: Run)
    requires Planned(p) && k <= |p.runList|
    ensures q == p.(results := q.results) && Planned(q) && DoneUpTo(q, k)
  {
    if k == 0 {
      q := p;
    } else {
      var r := CompleteRun(p, k - 1);
      OneStepMore(r, k - 1);
      q := With(r, k - 1, StepResult(r, k - 1));
    }
  }

  /** The same plan and answers. */
  ghost predicate SamePlan(p: Run, q: Run) {
    q == p.(results := q.results) && |p.ran| == |p.runList| == |p.results| == |q.results|
  }

  lemma SameStep(p: Run, q: Run, k: nat)
    requires SamePlan(p, q) && k < |p.runList| && Before(q, k) == Before(p, k)
    ensures StepResult(q, k) == StepResult(p, k)
  {
  }

  lemma OneResult(p: Run, q: Run, k: nat)
    requires SamePlan(p, q) && k < |p.runList| && DoneUpTo(p, k + 1) && DoneUpTo(q, k + 1)
    requires Before(q, k) == Before(p, k) && p.results[..k] == q.results[..k]
    ensures Before(q, k + 1) == Before(p, k + 1) && p.results[..k + 1] == q.results[..k + 1]
  {
    SameStep(p, q, k);
    assert StepDone(p, k) && StepDone(q, k);
    PrefixesMeet(p.results, q.results, k);
  }

  /** And only one: results are determined by the plan and the answers. */
  lemma {:induction false} RunIsUnique(p: Run, q: Run, k: nat)
    requires SamePlan(p, q) && k <= |p.runList| && DoneUpTo(p, |p.runList|) && DoneUpTo(q, |p.runList|)
    ensures Before(q, k) == Before(p, k) && p.results[..k] == q.results[..k]
  {
    if k == 0 {
    } else {
      RunIsUnique(p, q, k - 1);
      OneResult(p, q, k - 1);
    }
  }

  // ----- The session runs as planned -----

  /** The session is where the run says it is before its `k`-th job. */
  ghost predicate Follows(p: Run, s: SessionState, k: nat)
    requires Shaped(p) && k <= |p.runList|
    reads s
  {
    && s.Valid() && s.py == p.py && s.jobList == p.jobs && s.runList == p.runList
    && Holds(p, s.stateMap, s.resourceMap, k)
  }

  /** What the session holds is what the run says is known before that job. */
  ghost predicate Holds(p: Run, states: States, resources: ResourceMap, k: nat)
    requires Shaped(p) && k <= |p.runList|
  {
    AttemptsAre(p, states) && OutcomesIn(states) == Before(p, k).outcomes && resources == Before(p, k).resources
  }

  ghost predicate AttemptsAre(p: Run, states: States) {
    states.Keys == p.attempts.Keys && forall id | id in states :: states[id].attempts == p.attempts[id]
  }

  /** The run that the session is about to make, its results still open. */
  ghost function PlanOf(s: SessionState, ran: seq<JobResult>): Run
    reads s
  {
    Run(s.py, s.jobList, s.desiredJobList, s.runList, map id | id in s.stateMap :: s.stateMap[id].attempts,
        Progress(OutcomesIn(s.stateMap), s.resourceMap), ran, ran)
  }

  /** Any session whose run list solves its desired jobs has a plan. */
  lemma SessionIsPlanned(s: SessionState, ran: seq<JobResult>)
    requires s.Valid() && s.Solved()
    requires |ran| == |s.runList| && AllReport(ran)
    ensures Planned(PlanOf(s, ran)) && Follows(PlanOf(s, ran), s, 0)
  {
  }

  /** A run under way: planned, done up to the `k`-th job, and followed so far. */
  ghost predicate Underway(plan: Run, p: Run, s: SessionState, k: nat, results: seq<JobResult>)
    reads s
  {
    && SamePlan(plan, p) && k <= |p.runList| && p.results[..k] == results
    && Planned(p) && DoneUpTo(p, k) && Follows(p, s, k)
  }

  /** One run step of the session is one step of its run. */
  method RunNext(ghost p: Run, s: SessionState, k: nat, ran: JobResult) returns (result: JobResult, handed: bool)
    requires Planned(p) && k < |p.runList| && Follows(p, s, k) && ran == p.ran[k]
    modifies s`stateMap, s`resourceMap
    ensures result == StepResult(p, k) && handed == Handed(p, k)
    ensures Follows(With(p, k, result), s, k + 1)
  {
    ghost var states, resources := s.stateMap, s.resourceMap;
    StepIsForeseen(p, states, k);
    result, handed := s.RunJobIfPossible(s.runList[k], ran);
    StepIsHeld(p, states, resources, k, result, s.stateMap, s.resourceMap);
  }

  /** What a run step leaves behind is what the run says. */
  lemma StepIsHeld(p: Run, states: States, resources: ResourceMap, k: nat, result: JobResult, after: States,
          more: ResourceMap)
    requires Shaped(p) && k < |p.runList| && Holds(p, states, resources, k) && after.Keys == states.Keys
    requires OutcomesIn(after) == Noted(OutcomesIn(states), p.runList[k], result)
    requires more == Stored(resources, p.runList[k], result)
    requires forall id | id in after :: after[id].attempts == states[id].attempts
    ensures Holds(With(p, k, result), after, more, k + 1)
  {
    NextProgress(p, k, result);
  }

  lemma NextProgress(p: Run, k: nat, result: JobResult)
    requires Shaped(p) && k < |p.runList|
    ensures Before(With(p, k, result), k + 1) == Next(Before(p, k), p.runList[k], result)
  {
    BeforeStays(p, k, result, k);
  }

  lemma StepIsForeseen(p: Run, states: States, k: nat)
    requires Planned(p) && k < |p.runList| && AttemptsAre(p, states) && states.Keys == IdSet(p.jobs)
    requires OutcomesIn(states) == Before(p, k).outcomes
    requires UpToDate(InspectorOf(p.py, Before(p, k).resources), p.jobs, states, p.runList)
    ensures p.runList[k] in p.jobs && p.runList[k].id in states
    ensures p.ran[k].outcome != NoOutcome
    ensures var now := states[p.runList[k].id];
            && CanStart(now) == Handed(p, k)
            && StepResult(p, k) == (if CanStart(now) then p.ran[k]
                                    else JobResult(BlockedOutcome(OutcomesIn(states), now.inhibitors), []))
  {
    assert UpToDateAt(InspectorOf(p.py, Before(p, k).resources), p.jobs, states, p.runList, k);
    assert p.runList[k] in p.runList;
  }

  method RunOneMore(ghost plan: Run, ghost p: Run, s: SessionState, k: nat, ran: JobResult, done: seq<JobResult>)
    returns (results: seq<JobResult>, ghost q: Run)
    requires Underway(plan, p, s, k, done) && k < |p.runList| && ran == p.ran[k]
    modifies s`stateMap, s`resourceMap
    ensures Underway(plan, q, s, k + 1, results)
  {
    var result, _ := RunNext(p, s, k, ran);
    q := With(p, k, result);
    OneStepMore(p, k);
    TakeUpdated(p.results, k, result);
    results := done + [result];
  }

  /** Every job of the run list is run if possible, in order. Whatever the runner
      answers, what the session does is a run, so all that is said of runs below
      is said of it. */
  method RunInOrder(s: SessionState, ran: seq<JobResult>) returns (results: seq<JobResult>, ghost p: Run)
    requires s.Valid() && s.Solved()
    requires |ran| == |s.runList| && AllReport(ran)
    modifies s`stateMap, s`resourceMap
    ensures p == old(PlanOf(s, ran)).(results := results) && Sound(p) && Follows(p, s, |p.runList|)
  {
    SessionIsPlanned(s, ran);
    p, results := PlanOf(s, ran), [];
    ghost var plan := p;
    for k := 0 to |ran|
      invariant Underway(plan, p, s, k, results)
    {
      results, p := RunOneMore(plan, p, s, k, ran[k], results);
    }
    TakeAll(p.results);
  }

  function Answers(answer: Job -> JobResult, jobs: seq<Job>): (ran: seq<JobResult>)
    ensures |ran| == |jobs| && forall i | 0 <= i < |jobs| :: ran[i] == answer(jobs[i])
  {
    seq(|jobs|, i requires 0 <= i < |jobs| => answer(jobs[i]))
  }

  /** Selecting jobs and working through the run list that this gives. The
      runner's answer may be anything but no outcome at all. */
  method SelectAndRun(s: SessionState, desired: seq<Job>, includeMandatory: bool, answer: Job -> JobResult)
    returns (problems: seq<DependencyError>, ghost p: Run)
    requires s.Valid() && SameObjects(Asked(s.mandatoryJobList, desired, includeMandatory), s.jobList)
    requires Runnable(s.py, s.jobList, Asked(s.mandatoryJobList, desired, includeMandatory))
    requires forall j :: answer(j).outcome != NoOutcome
    modifies s`stateMap, s`resourceMap, s`desiredJobList, s`runList
    ensures Selected(s.py, s.jobList, Asked(s.mandatoryJobList, desired, includeMandatory), s.desiredJobList,
            s.runList, problems)
    ensures RanAs(p, s, answer) && p.start == old(Progress(OutcomesIn(s.stateMap), s.resourceMap))
    ensures forall j | j in s.runList :: OutcomeOf(OutcomesIn(s.stateMap), j.id) != NoOutcome
  {
    problems := s.UpdateDesiredJobList(desired, includeMandatory);
    p := RunSelected(s, answer);
  }

  /** The session has made this run: it is the run of its desired jobs, with the
      runner's own answers. */
  ghost predicate RanAs(p: Run, s: SessionState, answer: Job -> JobResult)
    reads s
  {
    && Sound(p) && Follows(p, s, |p.runList|) && p.visits == s.desiredJobList
    && p.ran == Answers(answer, p.runList)
  }

  method RunSelected(s: SessionState, answer: Job -> JobResult) returns (ghost p: Run)
    requires s.Valid() && s.Solved() && forall j :: answer(j).outcome != NoOutcome
    modifies s`stateMap, s`resourceMap
    ensures RanAs(p, s, answer) && p.start == old(Progress(OutcomesIn(s.stateMap), s.resourceMap))
    ensures forall j | j in s.runList :: OutcomeOf(OutcomesIn(s.stateMap), j.id) != NoOutcome
  {
    var ran := Answers(answer, s.runList);
    AnswersReport(answer, s.runList);
    ghost var plan := PlanOf(s, ran);
    var results;
    results, p := RunInOrder(s, ran);
    RunMade(plan, p, s, answer);
  }

  lemma AnswersReport(answer: Job -> JobResult, jobs: seq<Job>)
    requires forall j :: answer(j).outcome != NoOutcome
    ensures AllReport(Answers(answer, jobs))
  {
  }

  lemma RunMade(plan: Run, p: Run, s: SessionState, answer: Job -> JobResult)
    requires p == plan.(results := p.results) && plan.visits == s.desiredJobList
    requires plan.ran == Answers(answer, plan.runList) && Sound(p) && Follows(p, s, |p.runList|)
    ensures RanAs(p, s, answer) && p.start == plan.start
    ensures forall j | j in s.runList :: OutcomeOf(OutcomesIn(s.stateMap), j.id) != NoOutcome
  {
    OnePassCompletes(p);
  }

  // ----- Results stay -----

  lemma {:induction false} OutcomeStays(p: Run, i: nat, k: nat)
    requires Shaped(p) && Distinct(Ids(p.runList)) && i < k <= |p.runList|
    ensures OutcomeOf(Before(p, k).outcomes, p.runList[i].id) == p.results[i].outcome
    decreases k
  {
    if k > i + 1 {
      OutcomeStays(p, i, k - 1);
      assert Ids(p.runList)[i] != Ids(p.runList)[k - 1];
    }
  }

  lemma {:induction false} UntouchedStays(p: Run, id: string, k: nat)
    requires Shaped(p) && k <= |p.runList|
    requires forall i | 0 <= i < k :: p.runList[i].id != id
    ensures OutcomeOf(Before(p, k).outcomes, id) == OutcomeOf(p.start.outcomes, id)
  {
    if k == 0 {
    } else {
      UntouchedStays(p, id, k - 1);
    }
  }

  lemma {:induction false} KeysStay(p: Run, k: nat)
    requires Sound(p) && k <= |p.runList|
    ensures Before(p, k).outcomes.Keys == IdSet(p.jobs)
  {
    if k == 0 {
    } else {
      KeysStay(p, k - 1);
      assert p.runList[k - 1] in p.runList;
    }
  }

  lemma StepReports(p: Run, k: nat)
    requires Shaped(p) && k < |p.runList| && StepDone(p, k) && AllReport(p.ran)
    ensures p.results[k].outcome != NoOutcome
  {
  }

  lemma ReportedSomething(p: Run, k: nat)
    requires Sound(p) && k < |p.runList|
    ensures p.results[k].outcome != NoOutcome
  {
    assert StepDone(p, k);
    StepReports(p, k);
  }

  lemma {:induction false} RecordsStay(p: Run, i: nat, k: nat)
    requires Sound(p) && i < k <= |p.runList| && p.runList[i].isResource
    ensures p.runList[i].id in Before(p, k).resources
    decreases k
  {
    if k > i + 1 { RecordsStay(p, i, k - 1); } else { ReportedSomething(p, i); }
  }

  /** A job handed to the runner gets the runner's answer. Any other ends as skip
      or not-supported and prints nothing. */
  lemma HandedGetsItsAnswer(p: Run, k: nat)
    requires Sound(p) && k < |p.runList|
    ensures Handed(p, k) ==> p.results[k] == p.ran[k]
    ensures !Handed(p, k) ==> p.results[k].outcome in {Skipped, NotSupported} && p.results[k].records == []
  {
    assert StepDone(p, k);
  }

  /** From its turn on the records of a resource job are those it printed, or one
      empty record if it printed none. */
  lemma {:induction false} RecordsArePrinted(p: Run, i: nat, k: nat)
    requires Sound(p) && i < k <= |p.runList| && p.runList[i].isResource
    ensures RecordsOf(Before(p, k).resources, p.runList[i].id, p.results[i])
    decreases k
  {
    var now := Before(p, k - 1);
    StoredMeaning(now.resources, p.runList[k - 1], p.results[k - 1]);
    if k > i + 1 {
      RecordsArePrinted(p, i, k - 1);
      assert Ids(p.runList)[i] != Ids(p.runList)[k - 1];
      OthersStay(now.resources, Before(p, k).resources, p.runList[k - 1].id, p.runList[i].id);
    } else {
      ReportedSomething(p, i);
    }
  }

  lemma OthersStay(before: ResourceMap, after: ResourceMap, written: string, id: string)
    requires after - {written} == before - {written} && id != written
    ensures id in after <==> id in before
    ensures id in before ==> after[id] == before[id]
  {
    assert id in before <==> id in before - {written};
    assert id in after <==> id in after - {written};
  }

  /** Nothing but a resource job of the run list writes records, and only its own. */
  lemma {:induction false} RecordsUntouched(p: Run, id: string, k: nat)
    requires Shaped(p) && k <= |p.runList|
    requires forall i | 0 <= i < k :: !(p.runList[i].isResource && p.runList[i].id == id)
    ensures id in Before(p, k).resources <==> id in p.start.resources
    ensures id in p.start.resources ==> Before(p, k).resources[id] == p.start.resources[id]
  {
    if k == 0 {
    } else {
      RecordsUntouched(p, id, k - 1);
      StoredMeaning(Before(p, k - 1).resources, p.runList[k - 1], p.results[k - 1]);
      if p.runList[k - 1].id != id {
        OthersStay(Before(p, k - 1).resources, Before(p, k).resources, p.runList[k - 1].id, id);
      }
    }
  }

  /** A line is decided on what was printed: when the turn of a job comes, the
      records under each resource job that its program names are those of that
      job's own result in this run. */
  lemma DecidedOnPrinted(p: Run, k: nat, id: string) returns (i: nat)
    requires Sound(p) && k < |p.runList| && NamesResourceJobs(p, k) && id in RequiredIds(p.py, p.runList[k])
    ensures i < k && p.runList[i].id == id && RecordsOf(Before(p, k).resources, id, p.results[i])
  {
    i := DependencyIsEarlier(p, k, id);
    assert p.runList[i] in p.runList;
    RecordsArePrinted(p, i, k);
  }

  /** Every dependency of the `k`-th job is an earlier job of the run list. */
  lemma DependencyIsEarlier(p: Run, k: nat, id: string) returns (i: nat)
    requires Sound(p) && k < |p.runList| && DependsOn(p.py, p.runList[k], p.visits, id)
    ensures i < k && p.runList[i].id == id
  {
    var job := p.runList[k];
    assert job in p.runList;
    OwnDependencies(p.py, p.jobs, p.visits, job);
    DependencyIdsMeaning(p.py, job, p.visits);
    i := EarlierInOrder(Dependencies(p.py, p.jobs, p.visits), Ids(p.runList), k, id);
  }

  // ----- One pass is enough -----

  lemma AllHappened(p: Run, k: nat)
    requires Sound(p) && k < |p.runList|
    ensures var job, now := p.runList[k], Before(p, k);
            && (forall id | id in job.direct + job.after :: OutcomeOf(now.outcomes, id) != NoOutcome)
            && (forall id | id in RequiredIds(p.py, job) :: OutcomeOf(now.outcomes, id) != NoOutcome)
            && (NamesResourceJobs(p, k) ==> RequiredIds(p.py, job) <= now.resources.Keys)
  {
    var job, now := p.runList[k], Before(p, k);
    forall id | id in job.direct + job.after + RequiredIds(p.py, job)
      ensures OutcomeOf(now.outcomes, id) != NoOutcome
    {
      var i := DependencyIsEarlier(p, k, id);
      OutcomeStays(p, i, k);
      ReportedSomething(p, i);
    }
    if NamesResourceJobs(p, k) {
      forall id | id in RequiredIds(p.py, job) ensures id in now.resources {
        var i := DependencyIsEarlier(p, k, id);
        assert p.runList[i] in p.runList;
        RecordsStay(p, i, k);
      }
    }
  }

  ghost predicate MeetsPending(p: Run, k: nat)
    requires Shaped(p) && k < |p.runList|
  {
    SomePending(Inhibiting(p, k))
  }

  /** A suspend job that carries its own marker and starts without outcome. */
  predicate WaitsForItself(p: Run, job: Job) {
    IsSuspend(job) && Impacts(job.id, job) && OutcomeOf(p.start.outcomes, job.id) == NoOutcome
  }

  /** The program of the `k`-th job lacks records, although everything it names
      has run, and the line at fault names something that has not passed. */
  ghost predicate LacksRecords(p: Run, k: nat)
    requires Shaped(p) && k < |p.runList|
  {
    Unrecorded(p.py, Before(p, k).outcomes, Before(p, k).resources, p.runList[k])
  }

  /** It lacks records, and everything that line names has passed. */
  ghost predicate HidesProgram(p: Run, k: nat)
    requires Shaped(p) && k < |p.runList|
  {
    Stale(p.py, Before(p, k).outcomes, Before(p, k).resources, p.runList[k])
  }

  /** Neither happens to a program that names resource jobs only. */
  lemma ProgramIsDecided(p: Run, k: nat)
    requires Sound(p) && k < |p.runList| && NamesResourceJobs(p, k)
    ensures !LacksRecords(p, k) && !HidesProgram(p, k)
  {
    AllHappened(p, k);
    assert p.runList[k] in p.runList;
    assert Answerable(p.py, p.start.outcomes, p.runList[k]);
    RecordedIsDecided(p.py, Before(p, k).outcomes, Before(p, k).resources, p.runList[k]);
  }

  /** At its turn a job never waits for something still to come. There are two
      exceptions, and they always are: a suspend job that carries its own marker
      and has no outcome yet waits for itself, and a program waits for records
      that will not come. */
  lemma PendingAtTurn(p: Run, k: nat)
    requires Sound(p) && k < |p.runList|
    ensures MeetsPending(p, k) <==> WaitsForItself(p, p.runList[k]) || LacksRecords(p, k)
  {
    var job, now := p.runList[k], Before(p, k);
    var running := Among(p.jobs, IdSet(p.runList[..k + 1]));
    AllHappened(p, k);
    KeysStay(p, k);
    assert job in p.runList;
    PendingMeaning(p.py, now.outcomes, now.resources, job, running);
    WaitsForItselfOnly(p, k);
  }

  lemma WaitsForItselfOnly(p: Run, k: nat)
    requires Sound(p) && k < |p.runList|
    ensures SuspendWaits(Before(p, k).outcomes, p.runList[k], Among(p.jobs, IdSet(p.runList[..k + 1])))
            <==> WaitsForItself(p, p.runList[k])
  {
    var job, now := p.runList[k], Before(p, k);
    var running := Among(p.jobs, IdSet(p.runList[..k + 1]));
    assert job in p.runList;
    InAmong(p.jobs, IdSet(p.runList[..k + 1]));
    forall i | 0 <= i < k ensures p.runList[i].id != job.id { assert Ids(p.runList)[i] != Ids(p.runList)[k]; }
    UntouchedStays(p, job.id, k);
    TakeMore(p.runList, k);
    IdSetAppend(p.runList[..k], job);
    assert job in running;
    forall j | j in running && OutcomeOf(now.outcomes, j.id) == NoOutcome ensures j == job {
      OnlyItselfLeft(p, k, j);
    }
  }

  lemma EarlierHappened(p: Run, k: nat, i: nat)
    requires Sound(p) && i < k < |p.runList|
    ensures OutcomeOf(Before(p, k).outcomes, p.runList[i].id) != NoOutcome
  {
    OutcomeStays(p, i, k);
    ReportedSomething(p, i);
  }

  lemma OnlyItselfLeft(p: Run, k: nat, j: Job)
    requires Sound(p) && k < |p.runList| && j in p.jobs && j.id in IdSet(p.runList[..k + 1])
    requires OutcomeOf(Before(p, k).outcomes, j.id) == NoOutcome
    ensures j == p.runList[k]
  {
    TakeMore(p.runList, k);
    IdSetAppend(p.runList[..k], p.runList[k]);
    if j.id in IdSet(p.runList[..k]) {
      var i := InPrefix(p.runList, k, j.id);
      EarlierHappened(p, k, i);
      assert false;
    }
    assert p.runList[k] in p.runList;
    SameIdSameJob(p.jobs, p.runList[k], j);
  }

  lemma InPrefix(jobs: seq<Job>, k: nat, id: string) returns (i: nat)
    requires k <= |jobs| && id in IdSet(jobs[..k])
    ensures i < k && jobs[i].id == id
  {
    IdsAndIdSet(jobs[..k]);
    i :| 0 <= i < k && Ids(jobs[..k])[i] == id;
  }

  lemma SameIdSameJob(jobs: seq<Job>, a: Job, b: Job)
    requires Distinct(Ids(jobs)) && a in jobs && b in jobs && a.id == b.id
    ensures a == b
  {
    MapOfDistinct(jobs);
  }

  /** A suspend job that was itself asked for cannot carry its own marker: the
      solver would have found a cycle. So nothing asked for waits but for records. */
  lemma NothingAskedForWaits(p: Run, k: nat)
    requires Sound(p) && k < |p.runList| && p.runList[k] in p.visits
    ensures MeetsPending(p, k) <==> LacksRecords(p, k)
    ensures NamesResourceJobs(p, k) ==> !MeetsPending(p, k)
  {
    PendingAtTurn(p, k);
    if NamesResourceJobs(p, k) { ProgramIsDecided(p, k); }
    var job := p.runList[k];
    forall i | 0 <= i < k ensures p.runList[i].id != job.id { assert Ids(p.runList)[i] != Ids(p.runList)[k]; }
    if IsSuspend(job) && Impacts(job.id, job) {
      var i := DependencyIsEarlier(p, k, job.id);
    }
  }

  /** One pass gives every job of the run list an outcome, and leaves all other
      jobs as they were. */
  lemma OnePassCompletes(p: Run)
    requires Sound(p)
    ensures forall j | j in p.runList :: OutcomeOf(After(p).outcomes, j.id) != NoOutcome
    ensures forall id | id !in IdSet(p.runList) :: OutcomeOf(After(p).outcomes, id) == OutcomeOf(p.start.outcomes, id)
  {
    forall j | j in p.runList ensures OutcomeOf(After(p).outcomes, j.id) != NoOutcome {
      var i :| 0 <= i < |p.runList| && p.runList[i] == j;
      OutcomeStays(p, i, |p.runList|);
      ReportedSomething(p, i);
    }
    forall id | id !in IdSet(p.runList) ensures OutcomeOf(After(p).outcomes, id) == OutcomeOf(p.start.outcomes, id) {
      UntouchedStays(p, id, |p.runList|);
    }
  }

  // ----- How outcomes spread -----

  ghost function Final(p: Run, id: string): JobOutcome
    requires Shaped(p)
  {
    OutcomeOf(After(p).outcomes, id)
  }

  /** A direct dependency has its final outcome when its dependant's turn comes. */
  lemma DirectIsFinal(p: Run, k: nat, id: string) returns (i: nat)
    requires Sound(p) && k < |p.runList| && id in p.runList[k].direct
    ensures i < k && p.runList[i].id == id
    ensures OutcomeOf(Before(p, k).outcomes, id) == Final(p, id) == p.results[i].outcome != NoOutcome
  {
    i := DependencyIsEarlier(p, k, id);
    OutcomeStays(p, i, k);
    OutcomeStays(p, i, |p.runList|);
    ReportedSomething(p, i);
  }

  /** A job is handed to the runner exactly when it has attempts left, its
      program is satisfied by the records at its turn or hidden, its direct
      dependencies pass, its salvaged jobs have failed by then, and it does not
      wait for itself to suspend. */
  lemma HandedExactlyWhenReady(p: Run, k: nat)
    requires Sound(p) && k < |p.runList|
    ensures var job, now := p.runList[k], Before(p, k);
            Handed(p, k)
            <==> && p.attempts[job.id] > 0
                 && (ProgramSatisfied(p.py, now.resources, job) || HidesProgram(p, k))
                 && (forall id | id in job.direct :: Final(p, id) == Passed)
                 && (forall id | id in job.salvage :: OutcomeOf(now.outcomes, id) == Failed)
                 && !WaitsForItself(p, job)
    ensures NamesResourceJobs(p, k) ==> !HidesProgram(p, k)
  {
    var job, now := p.runList[k], Before(p, k);
    var running := Among(p.jobs, IdSet(p.runList[..k + 1]));
    assert job in p.runList;
    AllHappened(p, k);
    KeysStay(p, k);
    DirectAllFinal(p, k);
    WaitsForItselfOnly(p, k);
    if NamesResourceJobs(p, k) { ProgramIsDecided(p, k); }
    ReadyAtTurn(p.py, now.outcomes, now.resources, job, running);
  }

  lemma DirectAllFinal(p: Run, k: nat)
    requires Sound(p) && k < |p.runList|
    ensures forall id | id in p.runList[k].direct :: OutcomeOf(Before(p, k).outcomes, id) == Final(p, id)
  {
    forall id | id in p.runList[k].direct ensures OutcomeOf(Before(p, k).outcomes, id) == Final(p, id) {
      var _ := DirectIsFinal(p, k, id);
    }
  }

  /** With everything it depends on behind it, a job's list is empty exactly
      when its program, direct and salvage conditions hold and nothing pends. */
  lemma ReadyAtTurn(py: Python, outcomes: Outcomes, resources: ResourceMap, job: Job, running: seq<Job>)
    requires Answerable(py, outcomes, job)
    requires forall id | id in job.direct + job.after :: OutcomeOf(outcomes, id) != NoOutcome
    ensures Inhibitors(py, outcomes, resources, job, running) == []
            <==> && (ProgramSatisfied(py, resources, job) || Stale(py, outcomes, resources, job))
                 && (forall id | id in job.direct :: OutcomeOf(outcomes, id) == Passed)
                 && (forall id | id in job.salvage :: OutcomeOf(outcomes, id) == Failed)
                 && !SuspendWaits(outcomes, job, running)
  {
    EmptyListMeaning(py, outcomes, resources, job, running);
    MetAtTurn(outcomes, job, running);
  }

  lemma MetAtTurn(outcomes: Outcomes, job: Job, running: seq<Job>)
    requires forall id | id in job.direct + job.after :: OutcomeOf(outcomes, id) != NoOutcome
    ensures DependenciesMet(outcomes, job, running)
            <==> && (forall id | id in job.direct :: OutcomeOf(outcomes, id) == Passed)
                 && (forall id | id in job.salvage :: OutcomeOf(outcomes, id) == Failed)
                 && !SuspendWaits(outcomes, job, running)
  {
    assert forall id | id in job.after :: id in job.direct + job.after;
  }

  /** A blocked job mirrors a skipped direct dependency, and is not supported
      otherwise. */
  lemma BlockedOutcomeExactly(p: Run, k: nat)
    requires Sound(p) && k < |p.runList| && !Handed(p, k)
    ensures Final(p, p.runList[k].id)
            == if exists id :: id in p.runList[k].direct && Final(p, id) == Skipped then Skipped else NotSupported
  {
    var job, now := p.runList[k], Before(p, k);
    var running := Among(p.jobs, IdSet(p.runList[..k + 1]));
    OutcomeStays(p, k, |p.runList|);
    assert job in p.runList && StepDone(p, k);
    KeysStay(p, k);
    DirectAllFinal(p, k);
    SkipIsMirrored(p.py, now.outcomes, now.resources, job, running);
  }

  lemma SkipIsMirrored(py: Python, outcomes: Outcomes, resources: ResourceMap, job: Job, running: seq<Job>)
    requires Answerable(py, outcomes, job)
    ensures BlockedOutcome(outcomes, Inhibitors(py, outcomes, resources, job, running))
            == if exists id :: id in job.direct && OutcomeOf(outcomes, id) == Skipped then Skipped else NotSupported
  {
    var all := Inhibitors(py, outcomes, resources, job, running);
    if id :| id in job.direct && OutcomeOf(outcomes, id) == Skipped {
      FailedDepMeaning(py, outcomes, resources, job, running, About(FailedDep, id));
      assert MirrorsSkip(outcomes, About(FailedDep, id));
    } else {
      forall x | x in all ensures !MirrorsSkip(outcomes, x) {
        if x.cause == FailedDep {
          FailedDepMeaning(py, outcomes, resources, job, running, x);
        }
      }
    }
  }

  /** The direct dependencies among all jobs. */
  function DirectRelation(p: Run): Relation {
    var m := MapOf(p.jobs);
    map id | id in m :: m[id].direct
  }

  lemma FirstStep(p: Run, k: nat, path: seq<string>) returns (i: nat)
    requires Sound(p) && k < |p.runList| && |path| > 1
    requires IsPath(DirectRelation(p), path) && path[0] == p.runList[k].id
    ensures i < k && p.runList[i].id == path[1] && path[1] in p.runList[k].direct
    ensures IsPath(DirectRelation(p), path[1..])
    ensures Final(p, path[1]) == p.results[i].outcome
  {
    assert Step(DirectRelation(p), path, 0);
    MapOfDistinct(p.jobs);
    assert p.runList[k] in p.runList;
    i := DirectIsFinal(p, k, path[1]);
    PathSuffix(DirectRelation(p), path, 1);
  }

  lemma BlockedByDirect(p: Run, k: nat, id: string)
    requires Sound(p) && k < |p.runList| && id in p.runList[k].direct && Final(p, id) != Passed
    ensures !Handed(p, k)
    ensures Final(p, p.runList[k].id) in {Skipped, NotSupported}
    ensures Final(p, id) == Skipped ==> Final(p, p.runList[k].id) == Skipped
  {
    HandedExactlyWhenReady(p, k);
    BlockedOutcomeExactly(p, k);
  }

  /** A job from which direct dependencies lead to any job that did not pass is
      never handed to the runner. */
  lemma {:induction false} NeverHandedAboveNonPass(p: Run, k: nat, path: seq<string>)
    requires Sound(p) && k < |p.runList| && |path| > 1
    requires IsPath(DirectRelation(p), path) && path[0] == p.runList[k].id
    requires Final(p, path[|path| - 1]) != Passed
    ensures !Handed(p, k) && Final(p, p.runList[k].id) in {Skipped, NotSupported}
    decreases |path|
  {
    var i := FirstStep(p, k, path);
    if |path| > 2 {
      NeverHandedAboveNonPass(p, i, path[1..]);
    }
    BlockedByDirect(p, k, path[1]);
  }

  /** A skip reaches every job from which direct dependencies lead to it. */
  lemma {:induction false} SkipReachesDependants(p: Run, k: nat, path: seq<string>)
    requires Sound(p) && k < |p.runList|
    requires IsPath(DirectRelation(p), path) && path[0] == p.runList[k].id
    requires Final(p, path[|path| - 1]) == Skipped
    ensures Final(p, p.runList[k].id) == Skipped
    decreases |path|
  {
    if |path| > 1 {
      var i := FirstStep(p, k, path);
      SkipReachesDependants(p, i, path[1..]);
      BlockedByDirect(p, k, path[1]);
    }
  }

  // ----- Records keep up with outcomes, whatever the order of results -----

  function Observed(now: Progress, log: seq<(Job, JobResult)>): Progress {
    if log == [] then now
    else Next(Observed(now, log[..|log| - 1]), log[|log| - 1].0, log[|log| - 1].1)
  }

  /** Results may come for any jobs, in any order, any number of times: a
      resource job with an outcome always has records. */
  lemma {:induction false} RecordsKeepUp(now: Progress, log: seq<(Job, JobResult)>, resourceIds: set<string>)
    requires Recorded(now.outcomes, now.resources, resourceIds)
    requires forall entry | entry in log && entry.0.id in resourceIds :: entry.0.isResource
    ensures var later := Observed(now, log);
            Recorded(later.outcomes, later.resources, resourceIds)
  {
    if log == [] {
    } else {
      assert log[|log| - 1] in log;
      RecordsKeepUp(now, log[..|log| - 1], resourceIds);
    }
  }

  /** Ordinary jobs leave no records. So one result, the pass of an ordinary job
      that a program names, can hide that program: the job it guards is ready
      although the program does not hold. */
  lemma OrdinaryPassHides(py: Python, now: Progress, named: Job, result: JobResult, job: Job, running: seq<Job>)
    requires !named.isResource && result.outcome == Passed && RequiredIds(py, job) == {named.id}
    requires named.id !in now.resources && OutcomeOf(now.outcomes, named.id) != Passed
    requires Answerable(py, now.outcomes, job)
    requires DependenciesMet(Next(now, named, result).outcomes, job, running)
    ensures var later := Next(now, named, result);
            && Inhibitors(py, now.outcomes, now.resources, job, running) != []
            && Inhibitors(py, later.outcomes, later.resources, job, running) == []
            && !ProgramSatisfied(py, later.resources, job)
  {
    var later := Next(now, named, result);
    assert Answerable(py, later.outcomes, job);
    EmptyThoughUnsatisfied(py, later.outcomes, later.resources, job, running);
    EmptyListMeaning(py, now.outcomes, now.resources, job, running);
    NamedByFault(py, now.resources, job, named.id);
  }

  /** The line at fault names the one thing the program names. */
  lemma NamedByFault(py: Python, resources: ResourceMap, job: Job, id: string)
    requires HasValidProgram(py, job) && RequiredIds(py, job) == {id} && id !in resources
    ensures var v := VerdictOf(py, job.program.value, resources);
            v.CannotEvaluate? && id in ResourceIds(py, v.expression)
  {
    VerdictMeaning(py, job.program.value, resources);
    var v := VerdictOf(py, job.program.value, resources);
    assert id in AllIds(py, job.program.value);
    assert v.id in AllIds(py, job.program.value);
  }
}
