/** Choosing what to run: the retry loop of SessionState.update_desired_job_list
    (session/state.py), which drops the job at fault and solves again until the
    rest can be solved. */
module Selection {
  import opened Base
  import opened Resource
  import opened Graph
  import opened Jobs
  import opened Solver

  /** The controller of every job: get_dependency_set. */
  function ControllerOf(py: Python): Controller {
    (job: Job, visits: seq<Job>) => DependencySet(py, job, visits)
  }

  /** The dependency relation among the listed jobs while `visits` are desired. */
  function Dependencies(py: Python, jobs: seq<Job>, visits: seq<Job>): Relation {
    Relates(ControllerOf(py), MapOf(jobs), visits)
  }

  lemma OwnDependencies(py: Python, jobs: seq<Job>, visits: seq<Job>, job: Job)
    requires Distinct(Ids(jobs)) && job in jobs
    ensures job.id in Dependencies(py, jobs, visits)
    ensures Dependencies(py, jobs, visits)[job.id] == DependencyIds(py, job, visits)
  {
    MapOfDistinct(jobs);
  }

  /** No two different jobs with one id. */
  ghost predicate SameObjects(desired: seq<Job>, jobs: seq<Job>) {
    forall j, k | j in desired && k in jobs && j.id == k.id :: j == k
  }

  /** The job on its own could not be solved. */
  ghost predicate Broken(next: Relation, id: string) {
    !Solvable(next, {id})
  }

  lemma UnknownIsBroken(next: Relation, id: string)
    requires id !in next
    ensures Broken(next, id)
  {
    RootNeeded(next, {id}, id);
  }

  lemma CycleIsBroken(next: Relation, c: seq<string>)
    requires IsCycle(next, c)
    ensures Broken(next, c[0])
  {
    RootNeeded(next, {c[0]}, c[0]);
  }

  /** Depending on a broken job is being broken. */
  lemma BrokenSpreads(next: Relation, a: string, b: string)
    requires Edge(next, a, b) && Broken(next, b)
    ensures Broken(next, a)
  {
    ReachesSelf(next, a);
    ReachesThenEdge(next, a, a, b);
    if x :| Needed(next, {b}, x) && x !in next {
      ReachesTransitive(next, a, b, x);
      assert Needed(next, {a}, x);
    } else {
      var c :| IsCycle(next, c) && Needed(next, {b}, c[0]);
      ReachesTransitive(next, a, b, c[0]);
      assert Needed(next, {a}, c[0]);
    }
  }

  lemma MoreVisitsMoreEdges(py: Python, rest: seq<Job>, jobs: seq<Job>, few: seq<Job>, many: seq<Job>)
    requires Distinct(Ids(rest)) && Distinct(Ids(jobs))
    requires (forall j | j in rest :: j in jobs) && forall j | j in few :: j in many
    ensures SubRelation(Dependencies(py, rest, few), Dependencies(py, jobs, many))
  {
    MapOfDistinct(rest);
    MapOfDistinct(jobs);
    forall id | id in MapOf(rest)
      ensures id in MapOf(jobs) && MapOf(jobs)[id] == MapOf(rest)[id]
      ensures DependencyIds(py, MapOf(rest)[id], few) <= DependencyIds(py, MapOf(jobs)[id], many)
    {
      MoreVisitsMoreDependencies(py, MapOf(rest)[id], few, many);
    }
  }

  lemma MoreVisitsMoreDependencies(py: Python, job: Job, few: seq<Job>, many: seq<Job>)
    requires forall j | j in few :: j in many
    ensures DependencyIds(py, job, few) <= DependencyIds(py, job, many)
  {
    assert BeforeSuspend(job.id, few) <= BeforeSuspend(job.id, many);
    assert DependencySet(py, job, few) <= DependencySet(py, job, many);
  }

  /** The job blamed by a genuine error is broken already among all the jobs,
      provided that whatever was dropped before it was. */
  lemma BlamedIsBroken(py: Python, jobs: seq<Job>, rest: seq<Job>, all: seq<Job>, desired: seq<Job>, e: DependencyError)
    requires Distinct(Ids(rest)) && Distinct(Ids(jobs)) && SameObjects(all, jobs)
    requires (forall j | j in rest :: j in jobs) && forall j | j in desired :: j in all
    requires forall j | j in jobs && j !in rest :: Broken(Dependencies(py, jobs, all), j.id)
    requires Genuine(ControllerOf(py), MapOf(rest), desired, e)
    ensures e.CycleError? ==> e.jobs != []
    ensures Broken(Dependencies(py, jobs, all), e.Affected().id)
    ensures e.Affected() in desired || e.Affected() in rest
  {
    var big, small := Dependencies(py, jobs, all), Dependencies(py, rest, desired);
    MoreVisitsMoreEdges(py, rest, jobs, desired, all);
    match e
    case UnknownError(j) =>
      MissingIsBroken(py, jobs, rest, all, j.id);
    case MissingError(j, id, kind) =>
      DependencyIsEdge(ControllerOf(py), MapOf(rest), desired, j.id, (kind, id));
      MissingIsBroken(py, jobs, rest, all, id);
      BrokenSpreads(big, j.id, id);
    case CycleError(js) =>
      PathInBigger(small, big, Ids(js));
      CycleIsBroken(big, Ids(js));
  }

  lemma MissingIsBroken(py: Python, jobs: seq<Job>, rest: seq<Job>, all: seq<Job>, id: string)
    requires forall j | j in jobs && j !in rest :: Broken(Dependencies(py, jobs, all), j.id)
    requires id !in MapOf(rest)
    ensures Broken(Dependencies(py, jobs, all), id)
  {
    if id in MapOf(jobs) {
      var j := MapOf(jobs)[id];
      assert j !in rest;
    } else {
      UnknownIsBroken(Dependencies(py, jobs, all), id);
    }
  }

  lemma DistinctHead(head: Job, tail: seq<Job>)
    ensures Distinct(Ids([head] + tail)) <==> head.id !in IdSet(tail) && Distinct(Ids(tail))
  {
    assert Ids([head] + tail) == [head.id] + Ids(tail);
    DistinctCons(head.id, Ids(tail));
    IdsAndIdSet(tail);
  }

  lemma {:induction false} RemovalKeepsDistinct(jobs: seq<Job>, job: Job)
    requires Distinct(Ids(jobs))
    ensures Distinct(Ids(RemoveFirst(jobs, job))) && job !in RemoveFirst(jobs, job)
  {
    if jobs == [] {
    } else {
      var head, tail := jobs[0], jobs[1..];
      assert jobs == [head] + tail;
      DistinctHead(head, tail);
      if head != job {
        RemovalKeepsDistinct(tail, job);
        RemoveFirstMeaning(tail, job);
        DistinctHead(head, RemoveFirst(tail, job));
      }
    }
  }

  /** An order found among the remaining jobs is a solution among all of them. */
  lemma SolutionAmongAll(py: Python, jobs: seq<Job>, rest: seq<Job>, desired: seq<Job>, solution: seq<Job>)
    requires Distinct(Ids(rest)) && Distinct(Ids(jobs)) && forall j | j in rest :: j in jobs
    requires IsSolution(Dependencies(py, rest, desired), IdSet(desired), MapOf(rest), solution)
    ensures IsSolution(Dependencies(py, jobs, desired), IdSet(desired), MapOf(jobs), solution)
  {
    var small, big, roots := Dependencies(py, rest, desired), Dependencies(py, jobs, desired), IdSet(desired);
    SameAmongAll(py, jobs, rest, desired);
    SameOrder(small, big, Ids(solution));
    IdsAndIdSet(solution);
    forall a | a in roots ensures a in Ids(solution) { RootNeeded(small, roots, a); }
    OrderMeansSolvable(big, roots, Ids(solution));
    forall id | Needed(small, roots, id) ensures Needed(big, roots, id) { NeededInBigger(small, big, roots, id); }
  }

  lemma SameAmongAll(py: Python, jobs: seq<Job>, rest: seq<Job>, desired: seq<Job>)
    requires Distinct(Ids(rest)) && Distinct(Ids(jobs)) && forall j | j in rest :: j in jobs
    ensures forall id | id in MapOf(rest) :: id in MapOf(jobs) && MapOf(jobs)[id] == MapOf(rest)[id]
    ensures var small, big := Dependencies(py, rest, desired), Dependencies(py, jobs, desired);
            SubRelation(small, big) && forall id | id in small :: id in big && big[id] == small[id]
  {
    var small, big := Dependencies(py, rest, desired), Dependencies(py, jobs, desired);
    MapOfDistinct(jobs);
    forall id | id in MapOf(rest)
      ensures id in MapOf(jobs) && MapOf(jobs)[id] == MapOf(rest)[id] && big[id] == small[id]
    {
      OwnDependencies(py, rest, desired, MapOf(rest)[id]);
      OwnDependencies(py, jobs, desired, MapOf(rest)[id]);
    }
  }

  // ----- The problems reported -----

  predicate NamesJob(e: DependencyError) {
    e.CycleError? ==> e.jobs != []
  }

  /** What is left of a list once the jobs that these problems blame have been
      removed, one for each problem. */
  function Left(list: seq<Job>, problems: seq<DependencyError>): seq<Job>
    requires forall e | e in problems :: NamesJob(e)
  {
    if problems == [] then list
    else
      var init, last := problems[..|problems| - 1], problems[|problems| - 1];
      assert NamesJob(last) && forall e | e in init :: e in problems;
      RemoveFirst(Left(list, init), last.Affected())
  }

  /** The problem is a genuine error on what the problems before it left, that of
      the first job there that cannot be solved, and it blames a job that is
      still there. */
  ghost predicate ProblemAfter(py: Python, jobs: seq<Job>, all: seq<Job>, before: seq<DependencyError>,
                               e: DependencyError) {
    && (forall x | x in before :: NamesJob(x)) && NamesJob(e)
    && var rest, desired := Left(jobs, before), Left(all, before);
       && Genuine(ControllerOf(py), MapOf(rest), desired, e)
       && FirstFailure(ControllerOf(py), MapOf(rest), desired, e)
       && (e.Affected() in desired || e.Affected() in rest)
  }

  /** Every problem was met in its turn. */
  ghost predicate Reported(py: Python, jobs: seq<Job>, all: seq<Job>, problems: seq<DependencyError>) {
    && (forall e | e in problems :: NamesJob(e))
    && forall i | 0 <= i < |problems| :: ProblemAfter(py, jobs, all, problems[..i], problems[i])
  }

  lemma LeftOneMore(list: seq<Job>, problems: seq<DependencyError>, e: DependencyError)
    requires (forall x | x in problems :: NamesJob(x)) && NamesJob(e)
    ensures forall x | x in problems + [e] :: NamesJob(x)
    ensures Left(list, problems + [e]) == RemoveFirst(Left(list, problems), e.Affected())
  {
    var more := problems + [e];
    assert more[..|more| - 1] == problems && more[|more| - 1] == e;
  }

  lemma ReportedOneMore(py: Python, jobs: seq<Job>, all: seq<Job>, problems: seq<DependencyError>, e: DependencyError)
    requires Reported(py, jobs, all, problems) && ProblemAfter(py, jobs, all, problems, e)
    ensures Reported(py, jobs, all, problems + [e])
  {
    OneMoreAfter((before, x) => ProblemAfter(py, jobs, all, before, x), problems, e);
  }

  lemma OneMoreAfter<T>(holds: (seq<T>, T) -> bool, s: seq<T>, x: T)
    requires (forall i | 0 <= i < |s| :: holds(s[..i], s[i])) && holds(s, x)
    ensures forall i | 0 <= i < |s + [x]| :: holds((s + [x])[..i], (s + [x])[i])
  {
    var more := s + [x];
    forall i | 0 <= i < |more| ensures holds(more[..i], more[i]) {
      assert more[..i] == if i < |s| then s[..i] else s;
    }
  }

  predicate Blamed(problems: seq<DependencyError>, j: Job) {
    exists i :: 0 <= i < |problems| && NamesJob(problems[i]) && problems[i].Affected() == j
  }

  /** Whatever is gone from a list was blamed. */
  lemma {:induction false} GoneIsBlamed(list: seq<Job>, problems: seq<DependencyError>, j: Job)
    requires (forall e | e in problems :: NamesJob(e)) && j in list && j !in Left(list, problems)
    ensures Blamed(problems, j)
  {
    if problems == [] {
    } else {
      var init, last := problems[..|problems| - 1], problems[|problems| - 1];
      assert last in problems && forall e | e in init :: e in problems;
      if last.Affected() != j {
        RemoveFirstMeaning(Left(list, init), last.Affected());
        GoneIsBlamed(list, init, j);
        var i :| 0 <= i < |init| && NamesJob(init[i]) && init[i].Affected() == j;
        assert problems[i] == init[i];
      } else {
        assert problems[|problems| - 1].Affected() == j;
      }
    }
  }

  /** What is still desired comes from what was asked for and is solved by the
      run list; whatever was dropped was broken to begin with and blamed by a
      problem; every problem was met in its turn, and what is desired is what
      they left; nothing is dropped, and no problem reported, when everything can
      be solved. */
  ghost predicate Selected(py: Python, jobs: seq<Job>, all: seq<Job>, desired: seq<Job>, runList: seq<Job>,
                           problems: seq<DependencyError>) {
    && multiset(desired) <= multiset(all)
    && IsSolution(Dependencies(py, jobs, desired), IdSet(desired), MapOf(jobs), runList)
    && (forall j | j in all && j !in desired :: Broken(Dependencies(py, jobs, all), j.id) && Blamed(problems, j))
    && Reported(py, jobs, all, problems) && desired == Left(all, problems)
    && (problems == [] <==> Solvable(Dependencies(py, jobs, all), IdSet(all)))
    && (problems == [] ==> desired == all)
  }

  /** The loop. It always ends; what it returns is solved by what it returns to
      run; and it only ever drops jobs that were broken to begin with, reporting
      a genuine problem for each. */
  method SolveWhatCanBe(py: Python, jobs: seq<Job>, all: seq<Job>)
    returns (desired: seq<Job>, runList: seq<Job>, problems: seq<DependencyError>)
    requires Distinct(Ids(jobs)) && SameObjects(all, jobs)
    ensures Selected(py, jobs, all, desired, runList, problems)
  {
    desired, runList, problems := all, [], [];
    var rest := jobs;
    while desired != []
      invariant Underway(py, jobs, all, desired, rest, problems) && runList == []
      decreases |desired| + |rest|
    {
      var r := ResolveDependencies(ControllerOf(py), rest, Some(desired));
      if r.Success? {
        runList := r.value;
        LoopEnds(py, jobs, all, desired, rest, problems, runList);
        return;
      }
      ProblemNoted(py, jobs, all, desired, rest, problems, r.error);
      var blamed := r.error.Affected();
      desired := RemoveFirst(desired, blamed);
      rest := RemoveFirst(rest, blamed);
      problems := problems + [r.error];
    }
    NothingNeeded(Dependencies(py, rest, []));
    LoopEnds(py, jobs, all, desired, rest, problems, runList);
  }

  /** What holds between two rounds. */
  ghost predicate Underway(py: Python, jobs: seq<Job>, all: seq<Job>, desired: seq<Job>, rest: seq<Job>,
                           problems: seq<DependencyError>) {
    && Trimmed(Dependencies(py, jobs, all), jobs, all, desired, rest)
    && Accounted(py, jobs, all, desired, rest, problems)
    && (problems != [] ==> !Solvable(Dependencies(py, jobs, all), IdSet(all)))
  }

  lemma ProblemNoted(py: Python, jobs: seq<Job>, all: seq<Job>, desired: seq<Job>, rest: seq<Job>,
          problems: seq<DependencyError>, e: DependencyError)
    requires Distinct(Ids(jobs)) && SameObjects(all, jobs) && Underway(py, jobs, all, desired, rest, problems)
    requires Genuine(ControllerOf(py), MapOf(rest), desired, e)
    requires FirstFailure(ControllerOf(py), MapOf(rest), desired, e)
    ensures NamesJob(e)
    ensures Underway(py, jobs, all, RemoveFirst(desired, e.Affected()), RemoveFirst(rest, e.Affected()), problems + [e])
    ensures |RemoveFirst(desired, e.Affected())| + |RemoveFirst(rest, e.Affected())| < |desired| + |rest|
  {
    BlamedIsBroken(py, jobs, rest, all, desired, e);
    TrimmedMore(Dependencies(py, jobs, all), jobs, all, desired, rest, e.Affected());
    AccountedMore(py, jobs, all, desired, rest, problems, e);
    if problems == [] {
      GenuineMeansUnsolvable(ControllerOf(py), MapOf(jobs), all, e);
    }
  }

  lemma LoopEnds(py: Python, jobs: seq<Job>, all: seq<Job>, desired: seq<Job>, rest: seq<Job>,
          problems: seq<DependencyError>, runList: seq<Job>)
    requires Distinct(Ids(jobs)) && Underway(py, jobs, all, desired, rest, problems)
    requires Solvable(Dependencies(py, rest, desired), IdSet(desired))
    requires IsSolution(Dependencies(py, rest, desired), IdSet(desired), MapOf(rest), runList)
    ensures Selected(py, jobs, all, desired, runList, problems)
  {
    SolutionAmongAll(py, jobs, rest, desired, runList);
    DroppedIsBlamed(py, jobs, all, desired, rest, problems);
  }

  /** The problems account for what is missing from the two lists. */
  ghost predicate Accounted(py: Python, jobs: seq<Job>, all: seq<Job>, desired: seq<Job>, rest: seq<Job>,
                            problems: seq<DependencyError>) {
    Reported(py, jobs, all, problems) && desired == Left(all, problems) && rest == Left(jobs, problems)
  }

  lemma AccountedMore(py: Python, jobs: seq<Job>, all: seq<Job>, desired: seq<Job>, rest: seq<Job>,
          problems: seq<DependencyError>, e: DependencyError)
    requires Accounted(py, jobs, all, desired, rest, problems) && NamesJob(e)
    requires Genuine(ControllerOf(py), MapOf(rest), desired, e)
    requires FirstFailure(ControllerOf(py), MapOf(rest), desired, e)
    requires e.Affected() in desired || e.Affected() in rest
    ensures Accounted(py, jobs, all, RemoveFirst(desired, e.Affected()), RemoveFirst(rest, e.Affected()),
                      problems + [e])
  {
    ReportedOneMore(py, jobs, all, problems, e);
    LeftOneMore(all, problems, e);
    LeftOneMore(jobs, problems, e);
  }

  lemma DroppedIsBlamed(py: Python, jobs: seq<Job>, all: seq<Job>, desired: seq<Job>, rest: seq<Job>,
          problems: seq<DependencyError>)
    requires Accounted(py, jobs, all, desired, rest, problems)
    ensures forall j | j in all && j !in desired :: Blamed(problems, j)
  {
    forall j | j in all && j !in desired ensures Blamed(problems, j) { GoneIsBlamed(all, problems, j); }
  }

  /** What the loop keeps: both lists only ever lose broken jobs. */
  ghost predicate Trimmed(next: Relation, jobs: seq<Job>, all: seq<Job>, desired: seq<Job>, rest: seq<Job>) {
    && multiset(desired) <= multiset(all) && Distinct(Ids(rest))
    && LosesBroken(next, all, desired) && LosesBroken(next, jobs, rest)
  }

  ghost predicate LosesBroken(next: Relation, jobs: seq<Job>, rest: seq<Job>) {
    && (forall j | j in rest :: j in jobs)
    && (forall j | j in jobs && j !in rest :: Broken(next, j.id))
  }

  lemma LosesOneMore(next: Relation, jobs: seq<Job>, rest: seq<Job>, blamed: Job)
    requires LosesBroken(next, jobs, rest) && Broken(next, blamed.id)
    ensures LosesBroken(next, jobs, RemoveFirst(rest, blamed))
    ensures |RemoveFirst(rest, blamed)| == |rest| - if blamed in rest then 1 else 0
  {
    RemoveFirstMeaning(rest, blamed);
  }

  lemma FewerStays<T>(few: multiset<T>, many: multiset<T>, x: T)
    requires few <= many
    ensures few - multiset{x} <= many
  {
  }

  lemma TrimmedMore(next: Relation, jobs: seq<Job>, all: seq<Job>, desired: seq<Job>, rest: seq<Job>, blamed: Job)
    requires Trimmed(next, jobs, all, desired, rest)
    requires Broken(next, blamed.id) && (blamed in desired || blamed in rest)
    ensures Trimmed(next, jobs, all, RemoveFirst(desired, blamed), RemoveFirst(rest, blamed))
    ensures |RemoveFirst(desired, blamed)| + |RemoveFirst(rest, blamed)| < |desired| + |rest|
  {
    LosesOneMore(next, all, desired, blamed);
    LosesOneMore(next, jobs, rest, blamed);
    RemovalKeepsDistinct(rest, blamed);
    RemoveFirstOnce(desired, blamed);
    FewerStays(multiset(desired), multiset(all), blamed);
  }

  lemma NothingNeeded(next: Relation)
    ensures forall id :: !Needed(next, {}, id)
    ensures IdSet([]) == {}
  {
  }

  // ----- What exactly is kept -----

  /** No job that was asked for has to run before a listed suspend job. So it is,
      in particular, where no suspend job is listed. */
  ghost predicate NothingBeforeSuspend(jobs: seq<Job>, all: seq<Job>) {
    forall j, k | j in jobs && IsSuspend(j) && k in all :: !Impacts(j.id, k)
  }

  lemma VisitsDoNotMatter(py: Python, jobs: seq<Job>, all: seq<Job>, desired: seq<Job>)
    requires NothingBeforeSuspend(jobs, all) && forall j | j in desired :: j in all
    ensures Dependencies(py, jobs, desired) == Dependencies(py, jobs, all)
  {
    forall j | j in jobs ensures DependencyIds(py, j, desired) == DependencyIds(py, j, all) {
      VisitsNotNeeded(py, j, desired);
      VisitsNotNeeded(py, j, all);
    }
  }

  lemma VisitsNotNeeded(py: Python, job: Job, visits: seq<Job>)
    requires IsSuspend(job) ==> forall k | k in visits :: !Impacts(job.id, k)
    ensures DependencyIds(py, job, visits) == DependencyIds(py, job, [])
  {
    if IsSuspend(job) { assert BeforeSuspend(job.id, visits) == {} == BeforeSuspend(job.id, []); }
  }

  /** Then the jobs kept are exactly those asked for that can be solved on their
      own: no job is dropped because of another that does not concern it. */
  lemma KeptExactlyWhenUnbroken(py: Python, jobs: seq<Job>, all: seq<Job>, desired: seq<Job>, runList: seq<Job>,
          problems: seq<DependencyError>)
    requires Selected(py, jobs, all, desired, runList, problems) && NothingBeforeSuspend(jobs, all)
    ensures forall j :: j in desired <==> j in all && !Broken(Dependencies(py, jobs, all), j.id)
  {
    forall j | j in desired ensures j in all { assert 0 < multiset(desired)[j] <= multiset(all)[j]; }
    VisitsDoNotMatter(py, jobs, all, desired);
    forall j | j in desired ensures !Broken(Dependencies(py, jobs, all), j.id) {
      KeptIsSolvable(py, jobs, desired, runList, j);
    }
  }

  lemma KeptIsSolvable(py: Python, jobs: seq<Job>, desired: seq<Job>, runList: seq<Job>, j: Job)
    requires IsSolution(Dependencies(py, jobs, desired), IdSet(desired), MapOf(jobs), runList) && j in desired
    ensures !Broken(Dependencies(py, jobs, desired), j.id)
  {
    RootNeeded(Dependencies(py, jobs, desired), IdSet(desired), j.id);
    IdsAndIdSet(runList);
    OrderMeansSolvable(Dependencies(py, jobs, desired), {j.id}, Ids(runList));
  }
}
