/** Why a job may not start yet: the readiness inhibitors of a job, computed
    from the outcomes and records gathered so far (ctrl.py, get_inhibitor_list). */
module Readiness {
  import opened Base
  import opened Resource
  import opened Jobs

  datatype JobOutcome =
    | NoOutcome | Passed | Failed | Skipped | NotSupported | NotImplemented | Undecided | Crashed

  datatype Cause = Undesired | PendingDep | FailedDep | PendingResource | FailedResource | NotFailedDep

  /** The related job is represented by its id. */
  datatype Inhibitor = Inhibitor(cause: Cause, related: Option<string>, expression: Option<Expression>)

  const UNDESIRED: Inhibitor := Inhibitor(Undesired, None, None)

  type Outcomes = map<string, JobOutcome>

  function OutcomeOf(outcomes: Outcomes, id: string): JobOutcome {
    if id in outcomes then outcomes[id] else NoOutcome
  }

  function About(cause: Cause, id: string): Inhibitor {
    Inhibitor(cause, Some(id), None)
  }

  // ----- The five parts of the list -----

  /** One loop of the source: what checking the items, in order, adds up to. */
  function Collect<T>(check: T -> seq<Inhibitor>, items: seq<T>): seq<Inhibitor> {
    if items == [] then [] else check(items[0]) + Collect(check, items[1..])
  }

  /** A resource still pending: its job has not passed. */
  function PendingResourceCheck(outcomes: Outcomes, e: Expression): string -> seq<Inhibitor> {
    id => if OutcomeOf(outcomes, id) == Passed then [] else [Inhibitor(PendingResource, Some(id), Some(e))]
  }

  function FailedResourceCheck(e: Expression): string -> seq<Inhibitor> {
    id => [Inhibitor(FailedResource, Some(id), Some(e))]
  }

  function DirectCheck(outcomes: Outcomes): string -> seq<Inhibitor> {
    id => match OutcomeOf(outcomes, id)
      case NoOutcome => [About(PendingDep, id)]
      case Passed => []
      case _ => [About(FailedDep, id)]
  }

  function AfterCheck(outcomes: Outcomes): string -> seq<Inhibitor> {
    id => if OutcomeOf(outcomes, id) == NoOutcome then [About(PendingDep, id)] else []
  }

  function SalvageCheck(outcomes: Outcomes): string -> seq<Inhibitor> {
    id => if OutcomeOf(outcomes, id) == Failed then [] else [About(NotFailedDep, id)]
  }

  function SuspendCheck(outcomes: Outcomes, suspendId: string): Job -> seq<Inhibitor> {
    (job: Job) =>
      if Impacts(suspendId, job) && OutcomeOf(outcomes, job.id) == NoOutcome then [About(PendingDep, job.id)] else []
  }

  function PendingResources(outcomes: Outcomes, e: Expression, ids: seq<string>): seq<Inhibitor> {
    Collect(PendingResourceCheck(outcomes, e), ids)
  }

  function FailedResources(e: Expression, ids: seq<string>): seq<Inhibitor> {
    Collect(FailedResourceCheck(e), ids)
  }

  ghost function ProgramPart(py: Python, outcomes: Outcomes, resources: ResourceMap, job: Job): seq<Inhibitor> {
    match job.program
    case None => []
    case Some(program) =>
      match VerdictOf(py, program, resources)
      case CannotEvaluate(e, _) => PendingResources(outcomes, e, ResourceIds(py, e))
      case Unsatisfied(e) => FailedResources(e, ResourceIds(py, e))
      case _ => []
  }

  function DirectPart(outcomes: Outcomes, job: Job): seq<Inhibitor> {
    Collect(DirectCheck(outcomes), Sorted(job.direct))
  }

  function AfterPart(outcomes: Outcomes, job: Job): seq<Inhibitor> {
    Collect(AfterCheck(outcomes), Sorted(job.after))
  }

  function SalvagePart(outcomes: Outcomes, job: Job): seq<Inhibitor> {
    Collect(SalvageCheck(outcomes), Sorted(job.salvage))
  }

  /** `running` lists the jobs not marked undesired at the time of asking. */
  function SuspendPart(outcomes: Outcomes, job: Job, running: seq<Job>): seq<Inhibitor> {
    if IsSuspend(job) then Collect(SuspendCheck(outcomes, job.id), running) else []
  }

  ghost function Inhibitors(py: Python, outcomes: Outcomes, resources: ResourceMap, job: Job, running: seq<Job>)
    : seq<Inhibitor>
  {
    ProgramPart(py, outcomes, resources, job) + DirectPart(outcomes, job) + AfterPart(outcomes, job)
    + SalvagePart(outcomes, job) + SuspendPart(outcomes, job, running)
  }

  /** `job.controller.get_inhibitor_list`, on given resource records. */
  type Inspector = (Outcomes, Job, seq<Job>) -> seq<Inhibitor>

  ghost function InspectorOf(py: Python, resources: ResourceMap): Inspector {
    (outcomes, job, running) => Inhibitors(py, outcomes, resources, job, running)
  }

  // ----- What each part says -----

  lemma {:induction false} CollectEmpty<T>(check: T -> seq<Inhibitor>, items: seq<T>)
    ensures Collect(check, items) == [] <==> forall x | x in items :: check(x) == []
  {
    if items == [] {
    } else {
      CollectEmpty(check, items[1..]);
    }
  }

  lemma {:induction false} InCollect<T(!new)>(check: T -> seq<Inhibitor>, items: seq<T>, y: Inhibitor)
    ensures y in Collect(check, items) <==> exists x :: x in items && y in check(x)
  {
    if items == [] {
    } else {
      InCollect(check, items[1..], y);
      assert forall x :: x in items <==> x == items[0] || x in items[1..];
    }
  }

  /** Checking one more item is one more turn of the loop. */
  lemma CollectOneMore<T>(check: T -> seq<Inhibitor>, items: seq<T>, i: nat, done: seq<Inhibitor>)
    requires i < |items|
    ensures (done + check(items[i])) + Collect(check, items[i + 1..]) == done + Collect(check, items[i..])
    ensures check(items[i]) == [] ==> done + Collect(check, items[i + 1..]) == done + Collect(check, items[i..])
  {
    DropMore(items, i);
    Regroup(done, check(items[i]), Collect(check, items[i + 1..]));
  }

  predicate OnlyCauses(inhibitors: seq<Inhibitor>, causes: set<Cause>) {
    forall x | x in inhibitors :: x.cause in causes
  }

  lemma {:induction false} CollectCauses<T(!new)>(check: T -> seq<Inhibitor>, items: seq<T>, causes: set<Cause>)
    requires forall x | x in items :: OnlyCauses(check(x), causes)
    ensures OnlyCauses(Collect(check, items), causes)
  {
    if items == [] {
    } else {
      CollectCauses(check, items[1..], causes);
      assert items[0] in items;
    }
  }

  /** Each part has causes of its own. */
  lemma PartCauses(outcomes: Outcomes, job: Job, running: seq<Job>)
    ensures OnlyCauses(DirectPart(outcomes, job), {PendingDep, FailedDep})
    ensures OnlyCauses(AfterPart(outcomes, job), {PendingDep})
    ensures OnlyCauses(SalvagePart(outcomes, job), {NotFailedDep})
    ensures OnlyCauses(SuspendPart(outcomes, job, running), {PendingDep})
  {
    CollectCauses(DirectCheck(outcomes), Sorted(job.direct), {PendingDep, FailedDep});
    CollectCauses(AfterCheck(outcomes), Sorted(job.after), {PendingDep});
    CollectCauses(SalvageCheck(outcomes), Sorted(job.salvage), {NotFailedDep});
    CollectCauses(SuspendCheck(outcomes, job.id), running, {PendingDep});
  }

  lemma PendingResourcesMeaning(outcomes: Outcomes, e: Expression, ids: seq<string>)
    ensures OnlyCauses(PendingResources(outcomes, e, ids), {PendingResource})
    ensures PendingResources(outcomes, e, ids) == [] <==> forall id | id in ids :: OutcomeOf(outcomes, id) == Passed
  {
    CollectEmpty(PendingResourceCheck(outcomes, e), ids);
    CollectCauses(PendingResourceCheck(outcomes, e), ids, {PendingResource});
  }

  lemma FailedResourcesMeaning(e: Expression, ids: seq<string>)
    ensures OnlyCauses(FailedResources(e, ids), {FailedResource})
    ensures FailedResources(e, ids) == [] <==> ids == []
  {
    if ids == [] {
    } else {
      assert Collect(FailedResourceCheck(e), ids)[0] == Inhibitor(FailedResource, Some(ids[0]), Some(e));
    }
    CollectCauses(FailedResourceCheck(e), ids, {FailedResource});
  }

  lemma DirectPartMeaning(outcomes: Outcomes, job: Job, x: Inhibitor)
    ensures x in DirectPart(outcomes, job)
            <==> exists id :: id in job.direct && x in DirectCheck(outcomes)(id)
  {
    InCollect(DirectCheck(outcomes), Sorted(job.direct), x);
    InSorted(job.direct);
  }

  // ----- get_inhibitor_list and _get_suspend_inhibitor_list -----

  /** The job has no program, or one that can be evaluated: `get_inhibitor_list`
      lets the exceptions of any other program through. */
  ghost predicate HasValidProgram(py: Python, job: Job) {
    job.program.Some? ==> NamesResources(py, job.program.value)
  }

  /** Every id the job refers to has a job state, and its program is valid. */
  ghost predicate Answerable(py: Python, outcomes: Outcomes, job: Job) {
    && job.direct <= outcomes.Keys && job.after <= outcomes.Keys && job.salvage <= outcomes.Keys
    && RequiredIds(py, job) <= outcomes.Keys
    && HasValidProgram(py, job)
  }

  method GetInhibitorList(py: Python, outcomes: Outcomes, resources: ResourceMap, job: Job, running: seq<Job>)
    returns (inhibitors: seq<Inhibitor>)
    requires Answerable(py, outcomes, job)
    requires forall j | j in running :: j.id in outcomes
    ensures inhibitors == Inhibitors(py, outcomes, resources, job, running)
  {
    InSorted(job.direct);
    InSorted(job.after);
    InSorted(job.salvage);
    inhibitors := ProgramInhibitors(py, outcomes, resources, job);
    var direct := DirectInhibitors(outcomes, Sorted(job.direct));
    var after := AfterInhibitors(outcomes, Sorted(job.after));
    var salvage := SalvageInhibitors(outcomes, Sorted(job.salvage));
    inhibitors := inhibitors + direct + after + salvage;
    if IsSuspend(job) {
      var suspend := GetSuspendInhibitorList(outcomes, job, running);
      inhibitors := inhibitors + suspend;
    }
  }

  method ProgramInhibitors(py: Python, outcomes: Outcomes, resources: ResourceMap, job: Job)
    returns (inhibitors: seq<Inhibitor>)
    requires Answerable(py, outcomes, job)
    ensures inhibitors == ProgramPart(py, outcomes, resources, job)
  {
    inhibitors := [];
    if job.program.Some? {
      var verdict := EvaluateOrRaise(py, job.program.value, resources);
      VerdictMeaning(py, job.program.value, resources);
      if verdict.CannotEvaluate? {
        var ids := ResolveAliases(py, verdict.expression);
        forall id | id in ids ensures id in outcomes {
          assert id in AllIds(py, job.program.value);
        }
        inhibitors := PendingInhibitors(outcomes, verdict.expression, ids);
      } else if verdict.Unsatisfied? {
        var ids := ResolveAliases(py, verdict.expression);
        inhibitors := FailedInhibitors(verdict.expression, ids);
      }
    }
  }

  method PendingInhibitors(outcomes: Outcomes, e: Expression, ids: seq<string>) returns (inhibitors: seq<Inhibitor>)
    requires forall id | id in ids :: id in outcomes
    ensures inhibitors == PendingResources(outcomes, e, ids)
  {
    ghost var check := PendingResourceCheck(outcomes, e);
    inhibitors := [];
    for i := 0 to |ids|
      invariant inhibitors + Collect(check, ids[i..]) == Collect(check, ids)
    {
      CollectOneMore(check, ids, i, inhibitors);
      if outcomes[ids[i]] != Passed {
        inhibitors := inhibitors + [Inhibitor(PendingResource, Some(ids[i]), Some(e))];
      }
    }
  }

  method FailedInhibitors(e: Expression, ids: seq<string>) returns (inhibitors: seq<Inhibitor>)
    ensures inhibitors == FailedResources(e, ids)
  {
    ghost var check := FailedResourceCheck(e);
    inhibitors := [];
    for i := 0 to |ids|
      invariant inhibitors + Collect(check, ids[i..]) == Collect(check, ids)
    {
      CollectOneMore(check, ids, i, inhibitors);
      inhibitors := inhibitors + [Inhibitor(FailedResource, Some(ids[i]), Some(e))];
    }
  }

  method DirectInhibitors(outcomes: Outcomes, ids: seq<string>) returns (inhibitors: seq<Inhibitor>)
    requires forall id | id in ids :: id in outcomes
    ensures inhibitors == Collect(DirectCheck(outcomes), ids)
  {
    ghost var check := DirectCheck(outcomes);
    inhibitors := [];
    for i := 0 to |ids|
      invariant inhibitors + Collect(check, ids[i..]) == Collect(check, ids)
    {
      CollectOneMore(check, ids, i, inhibitors);
      if outcomes[ids[i]] == NoOutcome {
        inhibitors := inhibitors + [About(PendingDep, ids[i])];
      } else if outcomes[ids[i]] != Passed {
        inhibitors := inhibitors + [About(FailedDep, ids[i])];
      }
    }
  }

  method AfterInhibitors(outcomes: Outcomes, ids: seq<string>) returns (inhibitors: seq<Inhibitor>)
    requires forall id | id in ids :: id in outcomes
    ensures inhibitors == Collect(AfterCheck(outcomes), ids)
  {
    ghost var check := AfterCheck(outcomes);
    inhibitors := [];
    for i := 0 to |ids|
      invariant inhibitors + Collect(check, ids[i..]) == Collect(check, ids)
    {
      CollectOneMore(check, ids, i, inhibitors);
      if outcomes[ids[i]] == NoOutcome {
        inhibitors := inhibitors + [About(PendingDep, ids[i])];
      }
    }
  }

  method SalvageInhibitors(outcomes: Outcomes, ids: seq<string>) returns (inhibitors: seq<Inhibitor>)
    requires forall id | id in ids :: id in outcomes
    ensures inhibitors == Collect(SalvageCheck(outcomes), ids)
  {
    ghost var check := SalvageCheck(outcomes);
    inhibitors := [];
    for i := 0 to |ids|
      invariant inhibitors + Collect(check, ids[i..]) == Collect(check, ids)
    {
      CollectOneMore(check, ids, i, inhibitors);
      if outcomes[ids[i]] != Failed {
        inhibitors := inhibitors + [About(NotFailedDep, ids[i])];
      }
    }
  }

  method GetSuspendInhibitorList(outcomes: Outcomes, suspend: Job, running: seq<Job>)
    returns (inhibitors: seq<Inhibitor>)
    requires IsSuspend(suspend)
    requires forall j | j in running :: j.id in outcomes
    ensures inhibitors == SuspendPart(outcomes, suspend, running)
  {
    ghost var check := SuspendCheck(outcomes, suspend.id);
    inhibitors := [];
    for i := 0 to |running|
      invariant inhibitors + Collect(check, running[i..]) == Collect(check, running)
    {
      CollectOneMore(check, running, i, inhibitors);
      var impacting := IsJobImpactingSuspend(suspend.id, running[i]);
      if impacting && outcomes[running[i].id] == NoOutcome {
        inhibitors := inhibitors + [About(PendingDep, running[i].id)];
      }
    }
  }

  // ----- Exact readiness -----

  /** The branch that hides a pending program: it cannot be evaluated, yet every
      resource job named by the line at fault has passed. */
  ghost predicate Stale(py: Python, outcomes: Outcomes, resources: ResourceMap, job: Job) {
    && job.program.Some?
    && var v := VerdictOf(py, job.program.value, resources);
       v.CannotEvaluate? && forall id | id in ResourceIds(py, v.expression) :: OutcomeOf(outcomes, id) == Passed
  }

  /** The branch that shows it: not every one of them has passed. */
  ghost predicate Unrecorded(py: Python, outcomes: Outcomes, resources: ResourceMap, job: Job) {
    && job.program.Some?
    && var v := VerdictOf(py, job.program.value, resources);
       v.CannotEvaluate? && exists id | id in ResourceIds(py, v.expression) :: OutcomeOf(outcomes, id) != Passed
  }

  ghost predicate ProgramSatisfied(py: Python, resources: ResourceMap, job: Job) {
    job.program.Some? ==> VerdictOf(py, job.program.value, resources) == Satisfied
  }

  lemma ProgramPartMeaning(py: Python, outcomes: Outcomes, resources: ResourceMap, job: Job)
    requires Answerable(py, outcomes, job)
    ensures OnlyCauses(ProgramPart(py, outcomes, resources, job), {PendingResource, FailedResource})
    ensures ProgramPart(py, outcomes, resources, job) == []
            <==> ProgramSatisfied(py, resources, job) || Stale(py, outcomes, resources, job)
  {
    if job.program.Some? {
      VerdictMeaning(py, job.program.value, resources);
      var v := VerdictOf(py, job.program.value, resources);
      if v.CannotEvaluate? {
        PendingResourcesMeaning(outcomes, v.expression, ResourceIds(py, v.expression));
      } else if v.Unsatisfied? {
        FailedResourcesMeaning(v.expression, ResourceIds(py, v.expression));
      }
    }
  }

  lemma ProgramPending(py: Python, outcomes: Outcomes, resources: ResourceMap, job: Job)
    requires Answerable(py, outcomes, job)
    ensures SomePending(ProgramPart(py, outcomes, resources, job)) <==> Unrecorded(py, outcomes, resources, job)
  {
    if job.program.Some? {
      var v := VerdictOf(py, job.program.value, resources);
      if v.CannotEvaluate? {
        PendingResourcesMeaning(outcomes, v.expression, ResourceIds(py, v.expression));
        SomeOrNone(PendingResources(outcomes, v.expression, ResourceIds(py, v.expression)));
      } else if v.Unsatisfied? {
        FailedResourcesMeaning(v.expression, ResourceIds(py, v.expression));
      }
    }
  }

  lemma SomeOrNone(inhibitors: seq<Inhibitor>)
    requires OnlyCauses(inhibitors, {PendingDep, PendingResource})
    ensures SomePending(inhibitors) <==> inhibitors != []
  {
    if inhibitors != [] {
      assert inhibitors[0] in inhibitors;
    }
  }

  /** With records for every resource it names, a program is never pending. */
  lemma RecordedIsDecided(py: Python, outcomes: Outcomes, resources: ResourceMap, job: Job)
    requires HasValidProgram(py, job) && RequiredIds(py, job) <= resources.Keys
    ensures !Stale(py, outcomes, resources, job) && !Unrecorded(py, outcomes, resources, job)
  {
    if job.program.Some? {
      VerdictMeaning(py, job.program.value, resources);
    }
  }

  /** The conditions that do not involve the program. */
  ghost predicate DependenciesMet(outcomes: Outcomes, job: Job, running: seq<Job>) {
    && (forall id | id in job.direct :: OutcomeOf(outcomes, id) == Passed)
    && (forall id | id in job.after :: OutcomeOf(outcomes, id) != NoOutcome)
    && (forall id | id in job.salvage :: OutcomeOf(outcomes, id) == Failed)
    && (IsSuspend(job) ==> forall j | j in running && Impacts(job.id, j) :: OutcomeOf(outcomes, j.id) != NoOutcome)
  }

  lemma DirectEmpty(outcomes: Outcomes, job: Job)
    ensures DirectPart(outcomes, job) == [] <==> forall id | id in job.direct :: OutcomeOf(outcomes, id) == Passed
  {
    InSorted(job.direct);
    CollectEmpty(DirectCheck(outcomes), Sorted(job.direct));
  }

  lemma AfterEmpty(outcomes: Outcomes, job: Job)
    ensures AfterPart(outcomes, job) == [] <==> forall id | id in job.after :: OutcomeOf(outcomes, id) != NoOutcome
  {
    InSorted(job.after);
    CollectEmpty(AfterCheck(outcomes), Sorted(job.after));
  }

  lemma SalvageEmpty(outcomes: Outcomes, job: Job)
    ensures SalvagePart(outcomes, job) == [] <==> forall id | id in job.salvage :: OutcomeOf(outcomes, id) == Failed
  {
    InSorted(job.salvage);
    CollectEmpty(SalvageCheck(outcomes), Sorted(job.salvage));
  }

  lemma SuspendEmpty(outcomes: Outcomes, job: Job, running: seq<Job>)
    ensures SuspendPart(outcomes, job, running) == []
            <==> (IsSuspend(job) ==> forall j | j in running && Impacts(job.id, j) ::
                 OutcomeOf(outcomes, j.id) != NoOutcome)
  {
    CollectEmpty(SuspendCheck(outcomes, job.id), running);
  }

  lemma DependencyPartsEmpty(outcomes: Outcomes, job: Job, running: seq<Job>)
    ensures DependenciesMet(outcomes, job, running)
            <==> && DirectPart(outcomes, job) == [] && AfterPart(outcomes, job) == []
                 && SalvagePart(outcomes, job) == [] && SuspendPart(outcomes, job, running) == []
  {
    DirectEmpty(outcomes, job);
    AfterEmpty(outcomes, job);
    SalvageEmpty(outcomes, job);
    SuspendEmpty(outcomes, job, running);
  }

  /** No inhibitors exactly when the dependencies are met and the program is
      satisfied or stale. */
  lemma EmptyListMeaning(py: Python, outcomes: Outcomes, resources: ResourceMap, job: Job, running: seq<Job>)
    requires Answerable(py, outcomes, job)
    ensures Inhibitors(py, outcomes, resources, job, running) == []
            <==> DependenciesMet(outcomes, job, running)
                 && (ProgramSatisfied(py, resources, job) || Stale(py, outcomes, resources, job))
  {
    DependencyPartsEmpty(outcomes, job, running);
    ProgramPartMeaning(py, outcomes, resources, job);
  }

  /** Whatever resource job has produced an outcome has produced records. */
  ghost predicate Recorded(outcomes: Outcomes, resources: ResourceMap, ids: set<string>) {
    forall id | id in ids && OutcomeOf(outcomes, id) != NoOutcome :: id in resources
  }

  /** While outcomes come with records nothing is stale, and the list is empty
      exactly when the job is ready. */
  lemma EmptyExactlyWhenReady(py: Python, outcomes: Outcomes, resources: ResourceMap, job: Job, running: seq<Job>)
    requires Answerable(py, outcomes, job)
    requires Recorded(outcomes, resources, RequiredIds(py, job))
    ensures Inhibitors(py, outcomes, resources, job, running) == []
            <==> DependenciesMet(outcomes, job, running) && ProgramSatisfied(py, resources, job)
  {
    EmptyListMeaning(py, outcomes, resources, job, running);
    if job.program.Some? {
      VerdictMeaning(py, job.program.value, resources);
      var v := VerdictOf(py, job.program.value, resources);
      assert v.CannotEvaluate? ==> v.id in AllIds(py, job.program.value) && OutcomeOf(outcomes, v.id) == NoOutcome;
    }
  }

  /** Without that, the list can be empty for a job that is not ready: resources
      that are marked as passed but were never recorded hide the program. */
  lemma EmptyThoughUnsatisfied(py: Python, outcomes: Outcomes, resources: ResourceMap, job: Job, running: seq<Job>)
    requires Answerable(py, outcomes, job) && DependenciesMet(outcomes, job, running)
    requires RequiredIds(py, job) != {} && RequiredIds(py, job) !! resources.Keys
    requires forall id | id in RequiredIds(py, job) :: OutcomeOf(outcomes, id) == Passed
    ensures Inhibitors(py, outcomes, resources, job, running) == [] && !ProgramSatisfied(py, resources, job)
  {
    var program := job.program.value;
    VerdictMeaning(py, program, resources);
    var id :| id in AllIds(py, program);
    var v := VerdictOf(py, program, resources);
    forall i | i in ResourceIds(py, v.expression) ensures i in RequiredIds(py, job) {
      assert v.expression in program;
    }
    EmptyListMeaning(py, outcomes, resources, job, running);
  }

  predicate SomePending(inhibitors: seq<Inhibitor>) {
    exists x :: x in inhibitors && x.cause in {PendingDep, PendingResource}
  }

  lemma SomePendingAppend(a: seq<Inhibitor>, b: seq<Inhibitor>)
    ensures SomePending(a + b) <==> SomePending(a) || SomePending(b)
  {
    assert forall x :: x in a + b <==> x in a || x in b;
  }

  /** A suspend job waits for a job that impacts it. */
  ghost predicate SuspendWaits(outcomes: Outcomes, job: Job, running: seq<Job>) {
    IsSuspend(job) && exists j :: j in running && Impacts(job.id, j) && OutcomeOf(outcomes, j.id) == NoOutcome
  }

  /** Once the dependencies have outcomes, what can still be pending is a program
      that lacks records, or an impacting job without outcome. */
  lemma PendingMeaning(py: Python, outcomes: Outcomes, resources: ResourceMap, job: Job, running: seq<Job>)
    requires Answerable(py, outcomes, job)
    requires forall id | id in job.direct + job.after :: OutcomeOf(outcomes, id) != NoOutcome
    ensures SomePending(Inhibitors(py, outcomes, resources, job, running))
            <==> Unrecorded(py, outcomes, resources, job) || SuspendWaits(outcomes, job, running)
  {
    var program, direct := ProgramPart(py, outcomes, resources, job), DirectPart(outcomes, job);
    var after, salvage, suspend := AfterPart(outcomes, job), SalvagePart(outcomes, job),
        SuspendPart(outcomes, job, running);
    SomePendingAppend(program, direct);
    SomePendingAppend(program + direct, after);
    SomePendingAppend(program + direct + after, salvage);
    SomePendingAppend(program + direct + after + salvage, suspend);
    ProgramPending(py, outcomes, resources, job);
    PartCauses(outcomes, job, running);
    NothingPendingBefore(outcomes, job);
    SuspendPending(outcomes, job, running);
  }

  lemma NothingPendingBefore(outcomes: Outcomes, job: Job)
    requires forall id | id in job.direct + job.after :: OutcomeOf(outcomes, id) != NoOutcome
    ensures !SomePending(DirectPart(outcomes, job)) && AfterPart(outcomes, job) == []
  {
    InSorted(job.direct);
    forall id | id in Sorted(job.direct) ensures OnlyCauses(DirectCheck(outcomes)(id), {FailedDep}) {
      assert id in job.direct + job.after;
    }
    CollectCauses(DirectCheck(outcomes), Sorted(job.direct), {FailedDep});
    AfterEmpty(outcomes, job);
  }

  lemma SuspendPending(outcomes: Outcomes, job: Job, running: seq<Job>)
    ensures SomePending(SuspendPart(outcomes, job, running))
            <==> SuspendWaits(outcomes, job, running)
  {
    PartCauses(outcomes, job, running);
    SuspendEmpty(outcomes, job, running);
    var part := SuspendPart(outcomes, job, running);
    if part != [] {
      assert part[0] in part;
    }
  }

  /** A failed-dependency inhibitor names exactly the direct dependencies that
      have an outcome other than a pass. */
  lemma FailedDepMeaning(py: Python, outcomes: Outcomes, resources: ResourceMap, job: Job, running: seq<Job>,
          x: Inhibitor)
    requires Answerable(py, outcomes, job) && x.cause == FailedDep
    ensures x in Inhibitors(py, outcomes, resources, job, running)
            <==> exists id ::
                   id in job.direct && x == About(FailedDep, id) && OutcomeOf(outcomes, id) !in {NoOutcome, Passed}
  {
    OnlyDirectFails(py, outcomes, resources, job, running, x);
    DirectPartMeaning(outcomes, job, x);
    FailedCheck(outcomes, x);
  }

  lemma OnlyDirectFails(py: Python, outcomes: Outcomes, resources: ResourceMap, job: Job, running: seq<Job>,
          x: Inhibitor)
    requires Answerable(py, outcomes, job) && x.cause == FailedDep
    ensures x in Inhibitors(py, outcomes, resources, job, running) <==> x in DirectPart(outcomes, job)
  {
    ProgramPartMeaning(py, outcomes, resources, job);
    PartCauses(outcomes, job, running);
  }

  lemma FailedCheck(outcomes: Outcomes, x: Inhibitor)
    requires x.cause == FailedDep
    ensures forall id ::
              x in DirectCheck(outcomes)(id)
              <==> x == About(FailedDep, id) && OutcomeOf(outcomes, id) !in {NoOutcome, Passed}
  {
  }

  // ----- What each other cause stands for -----

  lemma InParts(py: Python, outcomes: Outcomes, resources: ResourceMap, job: Job, running: seq<Job>, x: Inhibitor)
    ensures x in Inhibitors(py, outcomes, resources, job, running)
            <==> || x in ProgramPart(py, outcomes, resources, job) || x in DirectPart(outcomes, job)
                 || x in AfterPart(outcomes, job) || x in SalvagePart(outcomes, job)
                 || x in SuspendPart(outcomes, job, running)
  {
  }

  /** The two that come from the program. */
  lemma FromProgram(py: Python, outcomes: Outcomes, resources: ResourceMap, job: Job, running: seq<Job>,
          x: Inhibitor)
    requires x.cause == PendingResource || x.cause == FailedResource
    ensures x in Inhibitors(py, outcomes, resources, job, running) <==> x in ProgramPart(py, outcomes, resources, job)
  {
    InParts(py, outcomes, resources, job, running, x);
    PartCauses(outcomes, job, running);
  }

  lemma FromDependencies(py: Python, outcomes: Outcomes, resources: ResourceMap, job: Job, running: seq<Job>,
          x: Inhibitor)
    requires Answerable(py, outcomes, job) && x.cause != PendingResource && x.cause != FailedResource
    ensures x in Inhibitors(py, outcomes, resources, job, running)
            <==> || x in DirectPart(outcomes, job) || x in AfterPart(outcomes, job)
                 || x in SalvagePart(outcomes, job) || x in SuspendPart(outcomes, job, running)
  {
    InParts(py, outcomes, resources, job, running, x);
    ProgramPartMeaning(py, outcomes, resources, job);
  }

  /** A failed-resource inhibitor names the line that fails, and there is one for
      each resource of that line. */
  lemma FailedResourceMeaning(py: Python, outcomes: Outcomes, resources: ResourceMap, job: Job, running: seq<Job>,
          x: Inhibitor)
    requires x.cause == FailedResource
    ensures x in Inhibitors(py, outcomes, resources, job, running)
            <==> && job.program.Some?
                 && var v := VerdictOf(py, job.program.value, resources);
                    && v.Unsatisfied?
                    && exists id :: id in ResourceIds(py, v.expression)
                                    && x == Inhibitor(FailedResource, Some(id), Some(v.expression))
  {
    FromProgram(py, outcomes, resources, job, running, x);
    if job.program.Some? {
      var v := VerdictOf(py, job.program.value, resources);
      if v.Unsatisfied? {
        InCollect(FailedResourceCheck(v.expression), ResourceIds(py, v.expression), x);
      } else if v.CannotEvaluate? {
        PendingResourcesMeaning(outcomes, v.expression, ResourceIds(py, v.expression));
      }
    }
  }

  lemma InPendingResources(outcomes: Outcomes, e: Expression, ids: seq<string>, x: Inhibitor)
    ensures x in PendingResources(outcomes, e, ids)
            <==> exists id :: id in ids && OutcomeOf(outcomes, id) != Passed
                              && x == Inhibitor(PendingResource, Some(id), Some(e))
  {
    InCollect(PendingResourceCheck(outcomes, e), ids, x);
  }

  /** A pending-resource inhibitor names the line that cannot be evaluated, and
      there is one for each resource of that line whose job has not passed. */
  lemma PendingResourceMeaning(py: Python, outcomes: Outcomes, resources: ResourceMap, job: Job, running: seq<Job>,
          x: Inhibitor)
    requires x.cause == PendingResource
    ensures x in Inhibitors(py, outcomes, resources, job, running)
            <==> && job.program.Some?
                 && var v := VerdictOf(py, job.program.value, resources);
                    && v.CannotEvaluate?
                    && exists id :: id in ResourceIds(py, v.expression) && OutcomeOf(outcomes, id) != Passed
                                    && x == Inhibitor(PendingResource, Some(id), Some(v.expression))
  {
    FromProgram(py, outcomes, resources, job, running, x);
    if job.program.Some? {
      var v := VerdictOf(py, job.program.value, resources);
      if v.CannotEvaluate? {
        InPendingResources(outcomes, v.expression, ResourceIds(py, v.expression), x);
      } else if v.Unsatisfied? {
        FailedResourcesMeaning(v.expression, ResourceIds(py, v.expression));
      }
    }
  }

  /** What has to have an outcome before the job may start. */
  ghost predicate MustHaveRun(job: Job, running: seq<Job>, id: string) {
    || id in job.direct || id in job.after
    || (IsSuspend(job) && exists j :: j in running && j.id == id && Impacts(job.id, j))
  }

  /** A pending-dependency inhibitor names something that has to have run and has
      not: a direct or after dependency or, for a suspend job, a job that impacts
      it; and there is one for each of these. */
  lemma PendingDepMeaning(py: Python, outcomes: Outcomes, resources: ResourceMap, job: Job, running: seq<Job>,
          x: Inhibitor)
    requires Answerable(py, outcomes, job) && x.cause == PendingDep
    ensures x in Inhibitors(py, outcomes, resources, job, running)
            <==> exists id :: MustHaveRun(job, running, id) && OutcomeOf(outcomes, id) == NoOutcome
                              && x == About(PendingDep, id)
  {
    FromDependencies(py, outcomes, resources, job, running, x);
    PartCauses(outcomes, job, running);
    DirectPending(outcomes, job, x);
    AfterPending(outcomes, job, x);
    SuspendPartMeaning(outcomes, job, running, x);
  }

  lemma DirectPending(outcomes: Outcomes, job: Job, x: Inhibitor)
    requires x.cause == PendingDep
    ensures x in DirectPart(outcomes, job)
            <==> exists id :: id in job.direct && OutcomeOf(outcomes, id) == NoOutcome && x == About(PendingDep, id)
  {
    DirectPartMeaning(outcomes, job, x);
    PendingCheck(outcomes, x);
  }

  lemma PendingCheck(outcomes: Outcomes, x: Inhibitor)
    requires x.cause == PendingDep
    ensures forall id ::
              x in DirectCheck(outcomes)(id) <==> OutcomeOf(outcomes, id) == NoOutcome && x == About(PendingDep, id)
  {
  }

  lemma AfterPending(outcomes: Outcomes, job: Job, x: Inhibitor)
    requires x.cause == PendingDep
    ensures x in AfterPart(outcomes, job)
            <==> exists id :: id in job.after && OutcomeOf(outcomes, id) == NoOutcome && x == About(PendingDep, id)
  {
    InSorted(job.after);
    InCollect(AfterCheck(outcomes), Sorted(job.after), x);
  }

  lemma SuspendPartMeaning(outcomes: Outcomes, job: Job, running: seq<Job>, x: Inhibitor)
    ensures x in SuspendPart(outcomes, job, running)
            <==> IsSuspend(job) && exists j :: j in running && Impacts(job.id, j)
                                               && OutcomeOf(outcomes, j.id) == NoOutcome && x == About(PendingDep, j.id)
  {
    InCollect(SuspendCheck(outcomes, job.id), running, x);
  }

  /** A not-failed inhibitor names a salvaged job that has not failed, and there
      is one for each of these. */
  lemma NotFailedDepMeaning(py: Python, outcomes: Outcomes, resources: ResourceMap, job: Job, running: seq<Job>,
          x: Inhibitor)
    requires Answerable(py, outcomes, job) && x.cause == NotFailedDep
    ensures x in Inhibitors(py, outcomes, resources, job, running)
            <==> exists id :: id in job.salvage && OutcomeOf(outcomes, id) != Failed && x == About(NotFailedDep, id)
  {
    FromDependencies(py, outcomes, resources, job, running, x);
    PartCauses(outcomes, job, running);
    InSorted(job.salvage);
    InCollect(SalvageCheck(outcomes), Sorted(job.salvage), x);
  }

  /** No inhibitor on the list is the undesired mark. */
  lemma NoneUndesired(py: Python, outcomes: Outcomes, resources: ResourceMap, job: Job, running: seq<Job>,
          x: Inhibitor)
    requires Answerable(py, outcomes, job) && x.cause == Undesired
    ensures x !in Inhibitors(py, outcomes, resources, job, running)
  {
    FromDependencies(py, outcomes, resources, job, running, x);
    PartCauses(outcomes, job, running);
  }

  // ----- The order of the list -----

  /** These inhibitors are about some of these ids, in their order. */
  ghost predicate InOrderOf(part: seq<Inhibitor>, ids: seq<string>) {
    && (forall x | x in part :: x.related.Some? && x.related.value in ids)
    && forall i, j | 0 <= i < j < |part| :: OneBefore(ids, part[i].related, part[j].related)
  }

  ghost predicate OneBefore(ids: seq<string>, a: Option<string>, b: Option<string>) {
    exists k: nat, l: nat :: k < l < |ids| && a == Some(ids[k]) && b == Some(ids[l])
  }

  /** Checking an item gives at most one inhibitor, and that is about the item. */
  ghost predicate AboutItself<T(!new)>(check: T -> seq<Inhibitor>, key: T -> string) {
    forall x :: |check(x)| <= 1 && forall y | y in check(x) :: y.related == Some(key(x))
  }

  function Keys<T>(key: T -> string, items: seq<T>): (ids: seq<string>)
    ensures |ids| == |items| && forall i | 0 <= i < |ids| :: ids[i] == key(items[i])
  {
    seq(|items|, i requires 0 <= i < |items| => key(items[i]))
  }

  lemma {:induction false} CollectInOrder<T(!new)>(check: T -> seq<Inhibitor>, key: T -> string, items: seq<T>)
    requires AboutItself(check, key)
    ensures InOrderOf(Collect(check, items), Keys(key, items))
  {
    if items == [] {
    } else {
      CollectInOrder(check, key, items[1..]);
      OneMoreInFront(check(items[0]), Collect(check, items[1..]), Keys(key, items), Keys(key, items[1..]));
    }
  }

  lemma OneMoreInFront(first: seq<Inhibitor>, rest: seq<Inhibitor>, ids: seq<string>, more: seq<string>)
    requires ids != [] && more == ids[1..] && InOrderOf(rest, more)
    requires |first| <= 1 && forall y | y in first :: y.related == Some(ids[0])
    ensures InOrderOf(first + rest, ids)
  {
    var all := first + rest;
    forall i, j | 0 <= i < j < |all| ensures OneBefore(ids, all[i].related, all[j].related) {
      var y := rest[j - |first|];
      if i < |first| {
        assert y in rest;
        var l :| 0 <= l < |more| && more[l] == y.related.value;
        assert 0 < l + 1 < |ids| && all[i].related == Some(ids[0]) && all[j].related == Some(ids[l + 1]);
      } else {
        var x := rest[i - |first|];
        assert OneBefore(more, x.related, y.related);
        var k: nat, l: nat :| k < l < |more| && x.related == Some(more[k]) && y.related == Some(more[l]);
        assert x.related == Some(ids[k + 1]) && y.related == Some(ids[l + 1]);
      }
    }
    forall x | x in all ensures x.related.Some? && x.related.value in ids {
      if x in first { assert x.related == Some(ids[0]); } else { assert x.related.value in more; }
    }
  }

  /** One part of the list: what it is about, in which order, and its causes. */
  ghost predicate Part(part: seq<Inhibitor>, ids: seq<string>, causes: set<Cause>) {
    InOrderOf(part, ids) && OnlyCauses(part, causes)
  }

  lemma StringPart(check: string -> seq<Inhibitor>, ids: seq<string>, causes: set<Cause>)
    requires forall id :: |check(id)| <= 1 && forall y | y in check(id) :: y.related == Some(id) && y.cause in causes
    ensures Part(Collect(check, ids), ids, causes)
  {
    assert AboutItself(check, id => id);
    assert Keys(id => id, ids) == ids;
    CollectInOrder(check, id => id, ids);
    CollectCauses(check, ids, causes);
  }

  /** The ids of the line that stopped the program. */
  ghost function LineIds(py: Python, resources: ResourceMap, job: Job): seq<string> {
    match job.program
    case None => []
    case Some(program) =>
      match VerdictOf(py, program, resources)
      case CannotEvaluate(e, _) => ResourceIds(py, e)
      case Unsatisfied(e) => ResourceIds(py, e)
      case _ => []
  }

  lemma ProgramOrder(py: Python, outcomes: Outcomes, resources: ResourceMap, job: Job)
    ensures Part(ProgramPart(py, outcomes, resources, job), LineIds(py, resources, job),
                 {PendingResource, FailedResource})
  {
    if job.program.Some? {
      var v := VerdictOf(py, job.program.value, resources);
      if v.CannotEvaluate? {
        StringPart(PendingResourceCheck(outcomes, v.expression), ResourceIds(py, v.expression),
            {PendingResource, FailedResource});
      } else if v.Unsatisfied? {
        StringPart(FailedResourceCheck(v.expression), ResourceIds(py, v.expression),
            {PendingResource, FailedResource});
      }
    }
  }

  lemma SuspendOrder(outcomes: Outcomes, job: Job, running: seq<Job>)
    ensures Part(SuspendPart(outcomes, job, running), Keys((j: Job) => j.id, running), {PendingDep})
  {
    PartCauses(outcomes, job, running);
    assert AboutItself(SuspendCheck(outcomes, job.id), (j: Job) => j.id);
    CollectInOrder(SuspendCheck(outcomes, job.id), (j: Job) => j.id, running);
  }

  /** First come the inhibitors of the program, in the order of its line, then
      those of the direct, of the after and of the salvage dependencies, sorted
      by id, and last those of the suspend rule, in the order of the session. */
  lemma InhibitorOrder(py: Python, outcomes: Outcomes, resources: ResourceMap, job: Job, running: seq<Job>)
    returns (program: seq<Inhibitor>, direct: seq<Inhibitor>, after: seq<Inhibitor>, salvage: seq<Inhibitor>,
             suspend: seq<Inhibitor>)
    ensures Inhibitors(py, outcomes, resources, job, running) == program + direct + after + salvage + suspend
    ensures Part(program, LineIds(py, resources, job), {PendingResource, FailedResource})
    ensures Part(direct, Sorted(job.direct), {PendingDep, FailedDep})
    ensures Part(after, Sorted(job.after), {PendingDep}) && Part(salvage, Sorted(job.salvage), {NotFailedDep})
    ensures Part(suspend, Keys((j: Job) => j.id, running), {PendingDep})
  {
    program, direct := ProgramPart(py, outcomes, resources, job), DirectPart(outcomes, job);
    after, salvage := AfterPart(outcomes, job), SalvagePart(outcomes, job);
    suspend := SuspendPart(outcomes, job, running);
    ProgramOrder(py, outcomes, resources, job);
    StringPart(DirectCheck(outcomes), Sorted(job.direct), {PendingDep, FailedDep});
    StringPart(AfterCheck(outcomes), Sorted(job.after), {PendingDep});
    StringPart(SalvageCheck(outcomes), Sorted(job.salvage), {NotFailedDep});
    SuspendOrder(outcomes, job, running);
  }
}
