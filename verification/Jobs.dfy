/** Job definitions as the solver and the session see them, and the dependency
    set of a job (ctrl.py, get_dependency_set and its helpers). */
module Jobs {
  import opened Base
  import opened Resource

  const NAMESPACE: string := "com.canonical.certification"
  const MANUAL_JOB_ID: string := NAMESPACE + "::suspend/suspend_advanced"
  const AUTO_JOB_ID: string := MANUAL_JOB_ID + "_auto"
  const AUTO_FLAG: string := "also-after-suspend"
  const MANUAL_FLAG: string := "also-after-suspend-manual"

  datatype DependencyKind = Direct | Ordering | ResourceKind

  /** A job definition with its fields already parsed. `flags` is the raw field,
      empty when absent; `siblings` holds the raw `depends` text of each sibling,
      empty when absent. A missing program is a job without `requires`. */
  datatype Job = Job(
    id: string,
    isResource: bool,
    direct: set<string>,
    after: set<string>,
    salvage: set<string>,
    program: Option<seq<Expression>>,
    flags: string,
    siblings: seq<string>)

  /** The ids of the resources that the job's program names. A program that
      cannot be constructed counts as naming none. */
  function RequiredIds(py: Python, job: Job): set<string> {
    if job.program.Some? && Constructible(py, job.program.value) then AllIds(py, job.program.value) else {}
  }

  predicate IsSuspend(job: Job) {
    job.id == AUTO_JOB_ID || job.id == MANUAL_JOB_ID
  }

  /** The flag that ties a job to a suspend job. */
  function FlagOf(suspendId: string): string {
    if suspendId == AUTO_JOB_ID then AUTO_FLAG else MANUAL_FLAG
  }

  /** Both membership tests are Python's `in` on strings, that is, substring
      tests: on the raw flags field and on the sibling's raw `depends` text. */
  predicate Impacts(suspendId: string, job: Job) {
    || (job.flags != "" && Contains(job.flags, FlagOf(suspendId)))
    || exists i | 0 <= i < |job.siblings| :: Contains(job.siblings[i], suspendId)
  }

  /** The loop over the sibling data. */
  method IsJobImpactingSuspend(suspendId: string, job: Job) returns (r: bool)
    requires suspendId == AUTO_JOB_ID || suspendId == MANUAL_JOB_ID
    ensures r == Impacts(suspendId, job)
  {
    var expected := FlagOf(suspendId);
    if job.flags != "" && Contains(job.flags, expected) {
      return true;
    }
    for i := 0 to |job.siblings|
      invariant forall k | 0 <= k < i :: !Contains(job.siblings[k], suspendId)
    {
      if Contains(job.siblings[i], suspendId) {
        return true;
      }
    }
    return false;
  }

  function BeforeSuspend(suspendId: string, jobs: seq<Job>): set<string> {
    set j | j in jobs && Impacts(suspendId, j) :: j.id
  }

  function Tagged(kind: DependencyKind, ids: set<string>): set<(DependencyKind, string)> {
    set id | id in ids :: (kind, id)
  }

  /** A suspend job also depends on the listed jobs that must run before it. */
  function DependencySet(py: Python, job: Job, jobs: seq<Job>): set<(DependencyKind, string)> {
    Tagged(Direct, job.direct) + Tagged(ResourceKind, RequiredIds(py, job)) + Tagged(Ordering, job.after)
    + (if IsSuspend(job) then Tagged(Ordering, BeforeSuspend(job.id, jobs)) else {})
  }

  function SecondOf(deps: set<(DependencyKind, string)>): (ids: set<string>)
    ensures forall d | d in deps :: d.1 in ids
  {
    set d | d in deps :: d.1
  }

  function DependencyIds(py: Python, job: Job, jobs: seq<Job>): set<string> {
    SecondOf(DependencySet(py, job, jobs))
  }

  predicate DependsOn(py: Python, job: Job, jobs: seq<Job>, id: string) {
    || id in job.direct || id in job.after || id in RequiredIds(py, job)
    || (IsSuspend(job) && id in BeforeSuspend(job.id, jobs))
  }

  /** A job depends on its direct, after and resource dependencies and, if it is
      a suspend job, on the listed jobs that impact it. */
  lemma DependencyIdsMeaning(py: Python, job: Job, jobs: seq<Job>)
    ensures forall id :: id in DependencyIds(py, job, jobs) <==> DependsOn(py, job, jobs, id)
  {
    forall id | DependsOn(py, job, jobs, id) ensures id in DependencyIds(py, job, jobs) {
      var kind := if id in job.direct then Direct else if id in RequiredIds(py, job) then ResourceKind else Ordering;
      assert (kind, id) in DependencySet(py, job, jobs);
    }
  }

  /** And in which way: what a program names is a resource dependency; after
      dependencies, and what has to run before a suspend job, are ordering ones. */
  lemma DependencyKinds(py: Python, job: Job, jobs: seq<Job>, kind: DependencyKind, id: string)
    ensures (kind, id) in DependencySet(py, job, jobs)
            <==> match kind
                 case Direct => id in job.direct
                 case ResourceKind => id in RequiredIds(py, job)
                 case Ordering =>
                   id in job.after
                   || (IsSuspend(job) && exists j :: j in jobs && j.id == id && Impacts(job.id, j))
  {
    InTagged(Direct, job.direct, kind, id);
    InTagged(ResourceKind, RequiredIds(py, job), kind, id);
    InTagged(Ordering, job.after, kind, id);
    InTagged(Ordering, BeforeSuspend(job.id, jobs), kind, id);
  }

  lemma InTagged(tag: DependencyKind, ids: set<string>, kind: DependencyKind, id: string)
    ensures (kind, id) in Tagged(tag, ids) <==> kind == tag && id in ids
  {
  }
}
