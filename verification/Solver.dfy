/** The dependency solver (depmgr.py): a three-colour depth-first search with a
    shared trail and an append-only solution. A dependency set is enumerated by
    arbitrary choice, so everything holds for every enumeration order. */
module Solver {
  import opened Base
  import opened Graph
  import opened Jobs

  datatype Color = White | Gray | Black

  datatype DependencyError =
    | DuplicateError(job: Job, duplicate: Job)
    | UnknownError(job: Job)
    | MissingError(job: Job, missingId: string, kind: DependencyKind)
    | CycleError(jobs: seq<Job>)
  {
    /** The property `affected_job`. */
    function Affected(): Job
      requires CycleError? ==> jobs != []
    {
      match this
      case CycleError(js) => js[0]
      case DuplicateError(j, _) => j
      case UnknownError(j) => j
      case MissingError(j, _, _) => j
    }
  }

  /** The list object that nested visits push to and pop from. */
  class Trail {
    var jobs: seq<Job>
    constructor (job: Job)
      ensures jobs == [job]
    {
      jobs := [job];
    }
  }

  type JobMap = map<string, Job>

  /** `job.controller.get_dependency_set(job, visit_list)`. */
  type Controller = (Job, seq<Job>) -> set<(DependencyKind, string)>

  function Ids(jobs: seq<Job>): (ids: seq<string>)
    ensures |ids| == |jobs| && forall i | 0 <= i < |jobs| :: ids[i] == jobs[i].id
  {
    seq(|jobs|, i requires 0 <= i < |jobs| => jobs[i].id)
  }

  function IdSet(jobs: seq<Job>): set<string> {
    set j | j in jobs :: j.id
  }

  lemma IdSetAppend(jobs: seq<Job>, job: Job)
    ensures IdSet(jobs + [job]) == IdSet(jobs) + {job.id}
  {
    assert job in jobs + [job];
    forall j | j in jobs ensures j in jobs + [job] { }
  }

  lemma IdsAndIdSet(jobs: seq<Job>)
    ensures forall id :: id in Ids(jobs) <==> id in IdSet(jobs)
  {
    forall id | id in Ids(jobs) ensures id in IdSet(jobs) {
      var i :| 0 <= i < |jobs| && Ids(jobs)[i] == id;
      assert jobs[i] in jobs;
    }
    forall id | id in IdSet(jobs) ensures id in Ids(jobs) {
      var j :| j in jobs && j.id == id;
      var i :| 0 <= i < |jobs| && jobs[i] == j;
      assert Ids(jobs)[i] == id;
    }
  }

  /** From each id on a job list to the job it names. */
  function MapOf(jobs: seq<Job>): (m: JobMap)
    ensures m.Keys == IdSet(jobs)
    ensures forall id | id in m :: m[id] in jobs && m[id].id == id
  {
    if jobs == [] then map[]
    else
      var init, last := jobs[..|jobs| - 1], jobs[|jobs| - 1];
      IdSetAppend(init, last);
      assert jobs == init + [last];
      MapOf(init)[last.id := last]
  }

  lemma {:induction false} MapOfDistinct(jobs: seq<Job>)
    requires Distinct(Ids(jobs))
    ensures forall j | j in jobs :: MapOf(jobs)[j.id] == j
  {
    if jobs == [] {
    } else {
      var init, last := jobs[..|jobs| - 1], jobs[|jobs| - 1];
      assert jobs == init + [last];
      assert forall i | 0 <= i < |init| :: Ids(init)[i] == Ids(jobs)[i];
      MapOfDistinct(init);
      forall j | j in init ensures j.id != last.id {
        var i :| 0 <= i < |init| && init[i] == j;
        assert Ids(jobs)[i] != Ids(jobs)[|init|];
      }
    }
  }

  lemma OneLess(all: set<(DependencyKind, string)>, left: set<(DependencyKind, string)>, d: (DependencyKind, string))
    requires d in left && left <= all
    ensures SecondOf(all - (left - {d})) == SecondOf(all - left) + {d.1}
  {
    assert all - (left - {d}) == (all - left) + {d};
  }

  /** The dependency relation seen while solving a visit list. */
  function Relates(get: Controller, m: JobMap, visits: seq<Job>): Relation {
    map id | id in m :: SecondOf(get(m[id], visits))
  }

  /** Visited jobs that are on the job list are the very jobs listed there. */
  ghost predicate VisitsFrom(m: JobMap, visits: seq<Job>) {
    forall j | j in visits && j.id in m :: m[j.id] == j
  }

  // ----- What an error must prove -----

  /** No job twice, but that the last may be one of the others. */
  ghost predicate Elementary(jobs: seq<Job>) {
    jobs != [] ==> Distinct(Ids(jobs[..|jobs| - 1]))
  }

  /** A list of known jobs that starts and ends with the same job, each
      depending on the one after it, and with no other job twice. */
  ghost predicate CycleWitness(next: Relation, m: JobMap, jobs: seq<Job>) {
    && |jobs| > 1 && jobs[0] == jobs[|jobs| - 1]
    && (forall j | j in jobs :: j.id in m && m[j.id] == j)
    && IsCycle(next, Ids(jobs)) && Elementary(jobs)
  }

  /** The error is real, and is about something that these roots need. */
  ghost predicate GenuineUnder(get: Controller, m: JobMap, visits: seq<Job>, roots: set<string>, e: DependencyError) {
    var next := Relates(get, m, visits);
    match e
    case DuplicateError(_, _) => false
    case UnknownError(j) => j in visits && j.id in roots && j.id !in m
    case MissingError(j, id, kind) =>
      && j.id in m && m[j.id] == j && Needed(next, roots, j.id)
      && (kind, id) in get(j, visits) && id !in m
    case CycleError(js) => CycleWitness(next, m, js) && Needed(next, roots, js[0].id)
  }

  ghost predicate Genuine(get: Controller, m: JobMap, visits: seq<Job>, e: DependencyError) {
    GenuineUnder(get, m, visits, IdSet(visits), e)
  }

  /** All visits before this one can be solved, and the error is about something
      that is needed once this one is made. */
  ghost predicate StopsAt(get: Controller, m: JobMap, visits: seq<Job>, i: int, e: DependencyError) {
    && 0 <= i < |visits| && Solvable(Relates(get, m, visits), IdSet(visits[..i]))
    && GenuineUnder(get, m, visits, IdSet(visits[..i + 1]), e)
  }

  /** The error is that of the first visit that cannot be solved. */
  ghost predicate FirstFailure(get: Controller, m: JobMap, visits: seq<Job>, e: DependencyError) {
    exists i :: StopsAt(get, m, visits, i, e)
  }

  lemma FirstFailureIsGenuine(get: Controller, m: JobMap, visits: seq<Job>, e: DependencyError)
    requires FirstFailure(get, m, visits, e)
    ensures Genuine(get, m, visits, e)
  {
    var i :| StopsAt(get, m, visits, i, e);
    FewerVisits(visits, i + 1);
    var next, few, many := Relates(get, m, visits), IdSet(visits[..i + 1]), IdSet(visits);
    match e
    case UnknownError(j) =>
    case MissingError(j, id, kind) => NeededByMore(next, few, many, j.id);
    case CycleError(js) => NeededByMore(next, few, many, js[0].id);
  }

  lemma DependencyIsEdge(get: Controller, m: JobMap, visits: seq<Job>, id: string, dep: (DependencyKind, string))
    requires id in m && dep in get(m[id], visits)
    ensures Edge(Relates(get, m, visits), id, dep.1)
  {
  }

  lemma NeededByMore(next: Relation, few: set<string>, many: set<string>, id: string)
    requires few <= many && Needed(next, few, id)
    ensures Needed(next, many, id)
  {
  }

  lemma MissingIsGenuine(get: Controller, m: JobMap, visits: seq<Job>, roots: set<string>, trail: seq<Job>, job: Job,
          dep: (DependencyKind, string))
    requires LeadsTo(Relates(get, m, visits), roots, m, trail, job)
    requires dep in get(job, visits) && dep.1 !in m
    ensures GenuineUnder(get, m, visits, roots, MissingError(job, dep.1, dep.0))
  {
    assert job in trail;
  }

  /** A genuine error rules a solution out. */
  lemma GenuineMeansUnsolvable(get: Controller, m: JobMap, visits: seq<Job>, e: DependencyError)
    requires Genuine(get, m, visits, e)
    ensures !Solvable(Relates(get, m, visits), IdSet(visits))
  {
    var next, roots := Relates(get, m, visits), IdSet(visits);
    match e
    case UnknownError(j) =>
      RootNeeded(next, roots, j.id);
    case MissingError(j, id, kind) =>
      DependencyIsEdge(get, m, visits, j.id, (kind, id));
      NeededThenEdge(next, roots, j.id, id);
    case CycleError(js) =>
      assert Ids(js)[0] == js[0].id;
  }

  /** `_get_job_map`. */
  method GetJobMap(jobs: seq<Job>) returns (r: Result<JobMap, DependencyError>)
    ensures Distinct(Ids(jobs)) ==> r == Success(MapOf(jobs))
    ensures !Distinct(Ids(jobs)) ==>
              && r.Failure? && r.error.DuplicateError? && r.error.job.id == r.error.duplicate.id
              && exists i, j | 0 <= i < j < |jobs| :: jobs[i] == r.error.job && jobs[j] == r.error.duplicate
  {
    var m: JobMap := map[];
    for k := 0 to |jobs|
      invariant Distinct(Ids(jobs[..k])) && m == MapOf(jobs[..k])
    {
      TakeMore(jobs, k);
      if jobs[k].id in m {
        ghost var i := ClashFound(jobs, k);
        return Failure(DuplicateError(m[jobs[k].id], jobs[k]));
      }
      NoClashYet(jobs[..k], jobs[k]);
      m := m[jobs[k].id := jobs[k]];
    }
    TakeAll(jobs);
    return Success(m);
  }

  lemma ClashFound(jobs: seq<Job>, k: nat) returns (i: nat)
    requires k < |jobs| && jobs[k].id in MapOf(jobs[..k])
    ensures i < k && jobs[i] == MapOf(jobs[..k])[jobs[k].id] && !Distinct(Ids(jobs))
  {
    var done := jobs[..k];
    i :| 0 <= i < |done| && done[i] == MapOf(done)[jobs[k].id];
    assert Ids(jobs)[i] == Ids(jobs)[k];
  }

  lemma NoClashYet(done: seq<Job>, job: Job)
    requires Distinct(Ids(done)) && job.id !in MapOf(done)
    ensures Distinct(Ids(done + [job])) && MapOf(done + [job]) == MapOf(done)[job.id := job]
  {
    assert Ids(done + [job]) == Ids(done) + [job.id];
    IdsAndIdSet(done);
    DistinctSnoc(Ids(done), job.id);
    var all := done + [job];
    assert all[..|all| - 1] == done;
  }

  /** The trail is a dependency path of needed jobs that ends at `job`. */
  ghost predicate LeadsTo(next: Relation, roots: set<string>, m: JobMap, trail: seq<Job>, job: Job) {
    && trail != [] && trail[|trail| - 1] == job && Elementary(trail)
    && (forall j | j in trail :: j.id in m && m[j.id] == j && Needed(next, roots, j.id))
    && IsPath(next, Ids(trail))
  }

  lemma TrailStarts(next: Relation, roots: set<string>, m: JobMap, job: Job)
    requires job.id in roots && job.id in m && m[job.id] == job
    ensures LeadsTo(next, roots, m, [job], job)
  {
    RootNeeded(next, roots, job.id);
  }

  lemma TrailGrows(next: Relation, roots: set<string>, m: JobMap, trail: seq<Job>, job: Job, dep: Job)
    requires LeadsTo(next, roots, m, trail, job) && Distinct(Ids(trail))
    requires dep.id in m && m[dep.id] == dep && Edge(next, job.id, dep.id)
    ensures LeadsTo(next, roots, m, trail + [dep], dep)
  {
    NeededThenEdge(next, roots, job.id, dep.id);
    PathAppend(next, Ids(trail), dep.id);
    assert Ids(trail + [dep]) == Ids(trail) + [dep.id];
    assert (trail + [dep])[..|trail|] == trail;
  }

  lemma Popped(trail: seq<Job>, job: Job)
    ensures (trail + [job])[..|trail + [job]| - 1] == trail
  {
  }

  lemma SuffixElementary(trail: seq<Job>, i: nat)
    requires Elementary(trail) && i < |trail|
    ensures Elementary(trail[i..])
  {
    var rest, all := Ids(trail[i..][..|trail| - i - 1]), Ids(trail[..|trail| - 1]);
    forall a, b | 0 <= a < b < |rest| ensures rest[a] != rest[b] {
      assert all[i + a] != all[i + b];
    }
  }

  lemma MetBefore(trail: seq<Job>, job: Job)
    requires trail != [] && job in trail[..|trail| - 1]
    ensures job in trail && IndexOf(trail, job) < |trail| - 1
  {
    var k :| 0 <= k < |trail| - 1 && trail[..|trail| - 1][k] == job;
    assert trail[k] == job;
  }

  lemma CycleOnTrail(next: Relation, trail: seq<Job>, i: nat)
    requires IsPath(next, Ids(trail)) && i < |trail| - 1 && trail[i] == trail[|trail| - 1]
    ensures IsCycle(next, Ids(trail[i..]))
  {
    PathSuffix(next, Ids(trail), i);
    assert Ids(trail[i..]) == Ids(trail)[i..];
  }

  /** A job met again behind the end of the trail closes a cycle, and the trail
      from its first appearance on is that cycle. */
  lemma TrailCloses(next: Relation, roots: set<string>, m: JobMap, trail: seq<Job>, job: Job)
    requires LeadsTo(next, roots, m, trail, job) && job in trail[..|trail| - 1]
    ensures job in trail
    ensures CycleWitness(next, m, trail[IndexOf(trail, job)..])
    ensures Needed(next, roots, job.id)
  {
    MetBefore(trail, job);
    var i := IndexOf(trail, job);
    CycleOnTrail(next, trail, i);
    SuffixOf(trail, i);
    SuffixElementary(trail, i);
  }

  lemma SuffixOf(trail: seq<Job>, i: nat)
    requires i < |trail|
    ensures trail[i..] != [] && trail[i..][0] == trail[i] && trail[i..][|trail| - i - 1] == trail[|trail| - 1]
    ensures forall j | j in trail[i..] :: j in trail
  {
  }

  // ----- Colours and solution -----

  type Colors = map<string, Color>

  function Having(color: Colors, c: Color): set<string> {
    set id | id in color && color[id] == c
  }

  /** Black jobs are exactly the solution, and the solution is an order made of
      needed jobs. */
  ghost predicate Consistent(next: Relation, roots: set<string>, m: JobMap, color: Colors, solution: seq<Job>) {
    && color.Keys == m.Keys
    && (forall j | j in solution :: j.id in m && m[j.id] == j && Needed(next, roots, j.id))
    && Having(color, Black) == IdSet(solution)
    && Ordered(next, Ids(solution))
  }

  /** What a successful visit may do: extend the solution, use up white jobs,
      leave the gray ones gray. */
  ghost predicate Forward(color0: Colors, solution0: seq<Job>, color: Colors, solution: seq<Job>) {
    && Having(color, Gray) == Having(color0, Gray)
    && Having(color, White) <= Having(color0, White)
    && solution0 <= solution && IdSet(solution0) <= IdSet(solution)
  }

  lemma NewOnTrail(behind: seq<Job>, job: Job)
    requires Distinct(Ids(behind)) && job.id !in IdSet(behind)
    ensures Distinct(Ids(behind + [job]))
  {
    assert Ids(behind + [job]) == Ids(behind) + [job.id];
    IdsAndIdSet(behind);
    DistinctSnoc(Ids(behind), job.id);
  }

  /** Turning the job at the end of the trail gray makes the gray jobs exactly
      those on the trail. */
  lemma Grayed(next: Relation, roots: set<string>, m: JobMap, color: Colors, solution: seq<Job>,
          trail: seq<Job>, job: Job)
    requires Consistent(next, roots, m, color, solution) && job.id in color && color[job.id] == White
    requires trail != [] && trail[|trail| - 1] == job && Having(color, Gray) == IdSet(trail[..|trail| - 1])
    requires Elementary(trail)
    ensures var after := color[job.id := Gray];
            && Consistent(next, roots, m, after, solution)
            && Having(after, Gray) == IdSet(trail) == Having(color, Gray) + {job.id} && Distinct(Ids(trail))
            && Having(after, White) == Having(color, White) - {job.id}
            && job.id in Having(color, White) && job.id !in Having(color, Gray) && job.id !in IdSet(solution)
  {
    var after := color[job.id := Gray];
    assert Having(after, Black) == Having(color, Black);
    IdSetAppend(trail[..|trail| - 1], job);
    assert trail == trail[..|trail| - 1] + [job];
    assert job.id !in Having(color, Gray);
    NewOnTrail(trail[..|trail| - 1], job);
    assert Having(after, Gray) == Having(color, Gray) + {job.id};
  }

  lemma Blackened(next: Relation, roots: set<string>, m: JobMap, color: Colors, solution: seq<Job>, job: Job)
    requires Consistent(next, roots, m, color, solution)
    requires job.id in color && color[job.id] == Gray && m[job.id] == job && Needed(next, roots, job.id)
    requires job.id in next && next[job.id] <= IdSet(solution)
    ensures var after, longer := color[job.id := Black], solution + [job];
            && Consistent(next, roots, m, after, longer)
            && Having(after, Gray) == Having(color, Gray) - {job.id}
            && Having(after, White) == Having(color, White)
            && solution <= longer && IdSet(longer) == IdSet(solution) + {job.id}
  {
    var after, longer := color[job.id := Black], solution + [job];
    assert job.id !in Having(color, Black);
    IdSetAppend(solution, job);
    IdsAndIdSet(solution);
    OrderGrows(next, Ids(solution), job.id);
    assert Ids(longer) == Ids(solution) + [job.id];
    assert Having(after, Black) == Having(color, Black) + {job.id};
  }

  /** A white job that went gray, had its dependencies visited and went black
      has been visited. */
  lemma Finished(next: Relation, roots: set<string>, m: JobMap, color0: Colors, solution0: seq<Job>,
          color: Colors, solution: seq<Job>, job: Job)
    requires Consistent(next, roots, m, color, solution) && job.id in color0 && color0[job.id] == White
    requires Forward(color0[job.id := Gray], solution0, color, solution) && color0.Keys == color.Keys
    requires job.id in m && m[job.id] == job && Needed(next, roots, job.id)
    requires job.id in next && next[job.id] <= IdSet(solution)
    ensures var after, longer := color[job.id := Black], solution + [job];
            && Consistent(next, roots, m, after, longer) && job.id in IdSet(longer)
            && Forward(color0, solution0, after, longer)
  {
    var gray := color0[job.id := Gray];
    assert job.id in Having(gray, Gray);
    assert Having(gray, Gray) == Having(color0, Gray) + {job.id} && job.id !in Having(color0, Gray);
    assert Having(gray, White) <= Having(color0, White);
    Blackened(next, roots, m, color, solution, job);
  }

  class DependencySolver {
    const get: Controller
    const jobMap: JobMap
    var color: Colors
    var solution: seq<Job>

    constructor (get: Controller, jobMap: JobMap)
      ensures this.get == get && this.jobMap == jobMap && solution == []
      ensures color == map id | id in jobMap :: White
    {
      this.get := get;
      this.jobMap := jobMap;
      color := map id | id in jobMap :: White;
      solution := [];
    }

    /** `next` is the graph that is being solved, and `roots` are the visits
        made so far. */
    ghost predicate Solving(next: Relation, roots: set<string>, visits: seq<Job>) {
      && next == Relates(get, jobMap, visits) && roots <= IdSet(visits)
      && VisitsFrom(jobMap, visits) && (forall id | id in jobMap :: jobMap[id].id == id)
    }

    ghost predicate Valid(next: Relation, roots: set<string>)
      reads this
    {
      Consistent(next, roots, jobMap, color, solution)
    }

    /** Nothing is gray before a visit from the visit list. Before a nested
        visit the gray jobs are exactly those on the trail behind the job. */
    ghost predicate Entering(next: Relation, roots: set<string>, job: Job, shared: Trail?)
      reads this, shared
    {
      if shared == null then
        Having(color, Gray) == {} && job.id in roots && (job.id in jobMap ==> jobMap[job.id] == job)
      else
        && LeadsTo(next, roots, jobMap, shared.jobs, job)
        && Having(color, Gray) == IdSet(shared.jobs[..|shared.jobs| - 1])
    }

    /** Once the job is gray, the gray jobs are exactly those on the trail. */
    ghost predicate OnTrail(next: Relation, roots: set<string>, trail: Trail, job: Job)
      reads this, trail
    {
      && LeadsTo(next, roots, jobMap, trail.jobs, job) && Distinct(Ids(trail.jobs))
      && Having(color, Gray) == IdSet(trail.jobs)
    }

    method Visit(job: Job, visits: seq<Job>, shared: Trail?, ghost next: Relation, ghost roots: set<string>)
      returns (r: Outcome<DependencyError>)
      requires Solving(next, roots, visits) && Valid(next, roots) && Entering(next, roots, job, shared)
      requires shared == null ==> job in visits
      modifies this, shared
      ensures r.Pass? ==> Valid(next, roots) && job.id in IdSet(solution)
      ensures r.Pass? ==> Forward(old(color), old(solution), color, solution)
      ensures r.Pass? && shared != null ==> shared.jobs == old(shared.jobs)
      ensures r.Fail? ==> GenuineUnder(get, jobMap, visits, roots, r.error)
      decreases Having(color, White), 1
    {
      if job.id !in color {
        return Fail(UnknownError(job));
      }
      if color[job.id] == White {
        r := VisitWhite(job, visits, shared, next, roots);
      } else if color[job.id] == Gray {
        assert job.id in Having(color, Gray);
        TrailCloses(next, roots, jobMap, shared.jobs, job);
        var i := IndexOf(shared.jobs, job);
        r := Fail(CycleError(shared.jobs[i..]));
      } else {
        assert job.id in Having(color, Black);
        r := Pass;
      }
    }

    /** The first branch of `_visit`: gray, the dependencies, black. */
    method VisitWhite(job: Job, visits: seq<Job>, shared: Trail?, ghost next: Relation, ghost roots: set<string>)
      returns (r: Outcome<DependencyError>)
      requires Solving(next, roots, visits) && Valid(next, roots) && Entering(next, roots, job, shared)
      requires job.id in color && color[job.id] == White
      modifies this, shared
      ensures r.Pass? ==> Valid(next, roots) && job.id in IdSet(solution)
      ensures r.Pass? ==> Forward(old(color), old(solution), color, solution)
      ensures r.Pass? ==> |solution| > |old(solution)| && solution[|solution| - 1] == job
      ensures r.Pass? && shared != null ==> shared.jobs == old(shared.jobs)
      ensures r.Fail? ==> GenuineUnder(get, jobMap, visits, roots, r.error)
      decreases Having(color, White), 0
    {
      ghost var before := color;
      color := color[job.id := Gray];
      var trail: Trail;
      if shared == null {
        trail := new Trail(job);
        TrailStarts(next, roots, jobMap, job);
      } else {
        trail := shared;
      }
      Grayed(next, roots, jobMap, before, solution, trail.jobs, job);
      r := VisitDependencies(job, visits, trail, next, roots);
      if r.Pass? {
        Finished(next, roots, jobMap, before, old(solution), color, solution, job);
        color := color[job.id := Black];
        solution := solution + [job];
      }
    }

    /** The loop of `_visit` over the dependency set of a job just turned gray. */
    method VisitDependencies(job: Job, visits: seq<Job>, trail: Trail, ghost next: Relation, ghost roots: set<string>)
      returns (r: Outcome<DependencyError>)
      requires Solving(next, roots, visits) && Valid(next, roots)
      requires OnTrail(next, roots, trail, job)
      modifies this, trail
      ensures r.Pass? ==> Valid(next, roots) && trail.jobs == old(trail.jobs)
      ensures r.Pass? ==> Forward(old(color), old(solution), color, solution)
      ensures r.Pass? ==> SecondOf(get(job, visits)) <= IdSet(solution)
      ensures r.Fail? ==> GenuineUnder(get, jobMap, visits, roots, r.error)
      decreases Having(color, White), 3
    {
      var deps := get(job, visits);
      while deps != {}
        invariant Valid(next, roots) && trail.jobs == old(trail.jobs)
        invariant Forward(old(color), old(solution), color, solution)
        invariant deps <= get(job, visits) && SecondOf(get(job, visits) - deps) <= IdSet(solution)
        decreases deps
      {
        var dep :| dep in deps;
        OneLess(get(job, visits), deps, dep);
        deps := deps - {dep};
        if dep.1 !in jobMap {
          MissingIsGenuine(get, jobMap, visits, roots, trail.jobs, job, dep);
          return Fail(MissingError(job, dep.1, dep.0));
        }
        r := VisitDependency(job, dep, visits, trail, next, roots);
        if r.Fail? {
          return;
        }
      }
      assert get(job, visits) - {} == get(job, visits);
      r := Pass;
    }

    /** One turn of that loop: push the dependency, visit it, pop it. */
    method VisitDependency(job: Job, dep: (DependencyKind, string), visits: seq<Job>, trail: Trail,
                           ghost next: Relation, ghost roots: set<string>)
      returns (r: Outcome<DependencyError>)
      requires Solving(next, roots, visits) && Valid(next, roots)
      requires OnTrail(next, roots, trail, job)
      requires dep in get(job, visits) && dep.1 in jobMap
      modifies this, trail
      ensures r.Pass? ==> Valid(next, roots) && trail.jobs == old(trail.jobs)
      ensures r.Pass? ==> Forward(old(color), old(solution), color, solution) && dep.1 in IdSet(solution)
      ensures r.Fail? ==> GenuineUnder(get, jobMap, visits, roots, r.error)
      decreases Having(color, White), 2
    {
      var nextJob := jobMap[dep.1];
      DependencyIsEdge(get, jobMap, visits, job.id, dep);
      TrailGrows(next, roots, jobMap, trail.jobs, job, nextJob);
      Popped(trail.jobs, nextJob);
      trail.jobs := trail.jobs + [nextJob];
      r := Visit(nextJob, visits, trail, next, roots);
      if r.Pass? {
        trail.jobs := trail.jobs[..|trail.jobs| - 1];
      }
    }

    /** These visits have been made, and nothing else. */
    ghost predicate Visited(next: Relation, done: seq<Job>)
      reads this
    {
      && Valid(next, IdSet(done)) && Having(color, Gray) == {} && IdSet(done) <= IdSet(solution)
      && InVisitOrder(next, jobMap, done, solution)
    }

    method Solve(visits: seq<Job>, ghost next: Relation) returns (r: Result<seq<Job>, DependencyError>)
      requires Solving(next, IdSet(visits), visits)
      requires color == (map id | id in jobMap :: White) && solution == []
      modifies this
      ensures r.Success? ==> IsSolution(next, IdSet(visits), jobMap, r.value)
      ensures r.Success? ==> InVisitOrder(next, jobMap, visits, r.value)
      ensures r.Failure? ==> FirstFailure(get, jobMap, visits, r.error)
    {
      NothingVisited(next, jobMap, color);
      for i := 0 to |visits|
        invariant Visited(next, visits[..i])
      {
        var o := VisitNext(visits, i, next);
        if o.Fail? {
          return Failure(o.error);
        }
      }
      TakeAll(visits);
      AllVisited(next, IdSet(visits), jobMap, color, solution);
      return Success(solution);
    }

    /** The body of its loop. */
    method VisitNext(visits: seq<Job>, i: nat, ghost next: Relation) returns (o: Outcome<DependencyError>)
      requires i < |visits| && Solving(next, IdSet(visits), visits) && Visited(next, visits[..i])
      modifies this
      ensures o.Pass? ==> Visited(next, visits[..i + 1])
      ensures o.Fail? ==> StopsAt(get, jobMap, visits, i, o.error)
    {
      ghost var done, job, before := visits[..i], visits[i], solution;
      TakeMore(visits, i);
      IdSetAppend(done, job);
      ghost var roots := IdSet(done + [job]);
      MoreRoots(next, IdSet(done), roots, jobMap, color, solution);
      FewerVisits(visits, i + 1);
      SolvedSoFar(next, IdSet(done), solution);
      o := Visit(visits[i], visits, null, next, roots);
      if o.Pass? {
        AllVisited(next, roots, jobMap, color, solution);
        OneMoreVisit(next, jobMap, done, job, before, solution);
      }
    }
  }

  lemma NothingVisited(next: Relation, m: JobMap, color: Colors)
    requires color == map id | id in m :: White
    ensures Consistent(next, {}, m, color, []) && Having(color, Gray) == {}
    ensures InVisitOrder(next, m, [], [])
  {
    AllVisited(next, {}, m, color, []);
    var none: seq<Job> := [];
    assert none[..0] == none && IdSet(none) == {};
    assert InFront(next, m, none[..0], none);
  }

  lemma SolvedSoFar(next: Relation, roots: set<string>, solution: seq<Job>)
    requires Ordered(next, Ids(solution)) && roots <= IdSet(solution)
    ensures Solvable(next, roots)
  {
    IdsAndIdSet(solution);
    OrderMeansSolvable(next, roots, Ids(solution));
  }

  lemma MoreRoots(next: Relation, few: set<string>, many: set<string>, m: JobMap, color: Colors, solution: seq<Job>)
    requires Consistent(next, few, m, color, solution) && few <= many
    ensures Consistent(next, many, m, color, solution)
  {
    forall j | j in solution ensures Needed(next, many, j.id) { NeededByMore(next, few, many, j.id); }
  }

  lemma FewerVisits(visits: seq<Job>, i: nat)
    requires i <= |visits|
    ensures IdSet(visits[..i]) <= IdSet(visits)
  {
  }

  /** When every root is in the solution, it is one. */
  lemma AllVisited(next: Relation, roots: set<string>, m: JobMap, color: Colors, solution: seq<Job>)
    requires Consistent(next, roots, m, color, solution) && roots <= IdSet(solution)
    ensures IsSolution(next, roots, m, solution)
  {
    IdsAndIdSet(solution);
    OrderMeansSolvable(next, roots, Ids(solution));
  }

  // ----- The order of the visits -----

  /** What the visits need, and nothing more, is at the front of the solution. */
  ghost predicate InFront(next: Relation, m: JobMap, visits: seq<Job>, solution: seq<Job>) {
    exists k | 0 <= k <= |solution| :: IsSolution(next, IdSet(visits), m, solution[..k])
  }

  /** Each visit adds what it needs beyond the visits before it: the first so
      many visits always own a front part of the solution. */
  ghost predicate InVisitOrder(next: Relation, m: JobMap, visits: seq<Job>, solution: seq<Job>) {
    forall i | 0 <= i <= |visits| :: InFront(next, m, visits[..i], solution)
  }

  lemma OneMoreVisit(next: Relation, m: JobMap, visits: seq<Job>, job: Job, before: seq<Job>, solution: seq<Job>)
    requires InVisitOrder(next, m, visits, before) && before <= solution
    requires IsSolution(next, IdSet(visits + [job]), m, solution)
    ensures InVisitOrder(next, m, visits + [job], solution)
  {
    var more := visits + [job];
    forall i | 0 <= i <= |more| ensures InFront(next, m, more[..i], solution) {
      if i <= |visits| {
        assert more[..i] == visits[..i] && InFront(next, m, visits[..i], before);
        var k :| 0 <= k <= |before| && IsSolution(next, IdSet(visits[..i]), m, before[..k]);
        assert solution[..k] == before[..k];
      } else {
        assert more[..i] == more && solution[..|solution|] == solution;
      }
    }
  }

  lemma {:induction false} IdCount(jobs: seq<Job>)
    requires Distinct(Ids(jobs))
    ensures |IdSet(jobs)| == |jobs|
  {
    if jobs == [] {
    } else {
      var init, last := jobs[..|jobs| - 1], jobs[|jobs| - 1];
      assert jobs == init + [last] && Ids(jobs) == Ids(init) + [last.id];
      DistinctSnoc(Ids(init), last.id);
      IdsAndIdSet(init);
      IdSetAppend(init, last);
      IdCount(init);
    }
  }

  lemma OrderTaken(next: Relation, visits: seq<Job>, i: nat)
    requires Ordered(next, Ids(visits)) && i <= |visits|
    ensures Ordered(next, Ids(visits[..i]))
  {
    var s, t := Ids(visits), Ids(visits[..i]);
    assert t == s[..i];
    forall k | 0 <= k < |t| ensures PlacedRight(next, t, k) {
      assert PlacedRight(next, s, k) && t[..k] == s[..k];
    }
  }

  /** Visits that are in order already need only themselves. */
  lemma OrderNeedsItself(next: Relation, m: JobMap, visits: seq<Job>, solution: seq<Job>)
    requires Ordered(next, Ids(visits)) && IsSolution(next, IdSet(visits), m, solution)
    ensures IdSet(solution) == IdSet(visits) && |solution| == |visits|
  {
    IdsAndIdSet(visits);
    RootsSuffice(next, IdSet(visits), Ids(visits));
    SameIds(IdSet(solution), IdSet(visits));
    IdCount(visits);
    IdCount(solution);
  }

  lemma RootsSuffice(next: Relation, roots: set<string>, s: seq<string>)
    requires Ordered(next, s) && forall id :: id in s <==> id in roots
    ensures forall id :: Needed(next, roots, id) <==> id in roots
  {
    OrderMeansSolvable(next, roots, s);
    forall id | id in roots ensures Needed(next, roots, id) { RootNeeded(next, roots, id); }
  }

  lemma SameIds(a: set<string>, b: set<string>)
    requires forall id :: id in a <==> id in b
    ensures a == b
  {
  }

  /** So an order that is given is returned unchanged. */
  lemma {:induction false} OrderReturned(next: Relation, m: JobMap, visits: seq<Job>, solution: seq<Job>, i: nat)
    requires Ordered(next, Ids(visits)) && InVisitOrder(next, m, visits, solution) && i <= |visits|
    requires forall j | j in visits :: j.id in m && m[j.id] == j
    ensures i <= |solution| && solution[..i] == visits[..i]
  {
    assert InFront(next, m, visits[..i], solution);
    var k :| 0 <= k <= |solution| && IsSolution(next, IdSet(visits[..i]), m, solution[..k]);
    OrderTaken(next, visits, i);
    OrderNeedsItself(next, m, visits[..i], solution[..k]);
    if i > 0 {
      OrderReturned(next, m, visits, solution, i - 1);
      assert visits[..i][..i - 1] == visits[..i - 1] && solution[..i][..i - 1] == solution[..i - 1];
      LastOfEqual(m, visits[..i], solution[..i]);
    }
  }

  lemma LastOfEqual(m: JobMap, a: seq<Job>, b: seq<Job>)
    requires |a| == |b| > 0 && IdSet(a) == IdSet(b) && a[..|a| - 1] == b[..|a| - 1] && Distinct(Ids(b))
    requires forall j | j in a || j in b :: j.id in m && m[j.id] == j
    ensures a == b
  {
    var n := |a| - 1;
    IdSetAppend(a[..n], a[n]);
    IdSetAppend(b[..n], b[n]);
    assert a == a[..n] + [a[n]] && b == b[..n] + [b[n]];
    LastIsNew(b);
    assert a[n] in a && b[n] in b;
  }

  lemma LastIsNew(jobs: seq<Job>)
    requires Distinct(Ids(jobs)) && jobs != []
    ensures jobs[|jobs| - 1].id !in IdSet(jobs[..|jobs| - 1])
  {
    var init := jobs[..|jobs| - 1];
    IdsAndIdSet(init);
    forall i | 0 <= i < |init| ensures Ids(init)[i] != jobs[|jobs| - 1].id { assert Ids(jobs)[i] == Ids(init)[i]; }
  }

  /** The contract of a solution: known jobs, each once and after everything it
      depends on, and exactly the jobs that are needed. */
  ghost predicate IsSolution(next: Relation, roots: set<string>, m: JobMap, solution: seq<Job>) {
    && (forall j | j in solution :: j.id in m && m[j.id] == j)
    && Ordered(next, Ids(solution))
    && (forall id :: id in IdSet(solution) <==> Needed(next, roots, id))
  }

  lemma OrderIsReturned(get: Controller, m: JobMap, visits: seq<Job>, solution: seq<Job>)
    requires VisitsFrom(m, visits) && Ordered(Relates(get, m, visits), Ids(visits))
    requires IsSolution(Relates(get, m, visits), IdSet(visits), m, solution)
    requires InVisitOrder(Relates(get, m, visits), m, visits, solution)
    ensures solution == visits
  {
    var next := Relates(get, m, visits);
    forall j | j in visits ensures j.id in m && m[j.id] == j {
      var i :| 0 <= i < |visits| && visits[i] == j;
      assert PlacedRight(next, Ids(visits), i);
    }
    OrderReturned(next, m, visits, solution, |visits|);
    OrderNeedsItself(next, m, visits, solution);
  }

  /** The class method `resolve_dependencies`. Without a visit list every job on
      the job list is visited. A list of distinct jobs is solved exactly when it
      can be, whatever the order in which dependency sets are enumerated. */
  method ResolveDependencies(get: Controller, jobs: seq<Job>, visitList: Option<seq<Job>>)
    returns (r: Result<seq<Job>, DependencyError>)
    requires visitList.Some? ==> forall j, k | j in visitList.value && k in jobs && j.id == k.id :: j == k
    ensures !Distinct(Ids(jobs)) <==> r.Failure? && r.error.DuplicateError?
    ensures var visits := if visitList.Some? then visitList.value else jobs;
            var m := MapOf(jobs);
            var next, roots := Relates(get, m, visits), IdSet(visits);
            Distinct(Ids(jobs)) ==>
              && (r.Success? <==> Solvable(next, roots))
              && (r.Success? ==> IsSolution(next, roots, m, r.value) && InVisitOrder(next, m, visits, r.value))
              && (r.Success? && Ordered(next, Ids(visits)) ==> r.value == visits)
              && (r.Failure? ==> Genuine(get, m, visits, r.error) && FirstFailure(get, m, visits, r.error))
  {
    var built := GetJobMap(jobs);
    if built.Failure? {
      return Failure(built.error);
    }
    var visits := if visitList.Some? then visitList.value else jobs;
    MapOfDistinct(jobs);
    var solver := new DependencySolver(get, built.value);
    ghost var next, roots := Relates(get, built.value, visits), IdSet(visits);
    assert VisitsFrom(built.value, visits);
    r := solver.Solve(visits, next);
    if r.Success? {
      if Ordered(next, Ids(visits)) { OrderIsReturned(get, built.value, visits, r.value); }
      IdsAndIdSet(r.value);
      forall a | a in roots ensures a in Ids(r.value) { RootNeeded(next, roots, a); }
      OrderMeansSolvable(next, roots, Ids(r.value));
    } else {
      FirstFailureIsGenuine(get, built.value, visits, r.error);
      GenuineMeansUnsolvable(get, built.value, visits, r.error);
    }
  }
}
