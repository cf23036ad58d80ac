# Checkbox: a verified model

Checkbox runs hardware tests ("jobs") that depend on one another and on facts
about the machine ("resources"). This project models the part of it that plans
and runs jobs, and five smaller parts that stand on their own, and proves what
they promise.

**Planning and running.** The dependency solver walks the jobs depth first with
three colours, a shared trail and an append-only solution (`Graph`, `Solver`). The
session drops the jobs that cannot be solved and keeps solving (`Selection`).
Whether a job may start is decided from outcomes and resource records
(`Readiness`); results are observed, readiness is recomputed after each of them,
and a job that cannot start gets an outcome of its own (`Session`). `Runs` puts
the pieces together: the solved list is worked through in order, and the
theorems are about every such run: `Runs.SelectAndRun` shows that what a session
does is one of them, whatever the runner answers. A dependency set is enumerated by arbitrary
choice, so every theorem holds for every enumeration order.

**Requirement programs.** A line such as `cpu.arch == 'x' and net.up == 'True'` is cut
at its rightmost ` or `, then ` and `, character by character (`Splitting`), and each
fragment is decided on its own over the records of the resources it names
(`Resource`). `JointEvaluation` compares this with choosing one record per
resource for the whole line.

**Configuration.** Typed variables in sections, each with the origin of its value
(`Configuration`, `ConfigFiles`), what a file sets and which problems it leaves, told
from its text (`ConfigMeaning`), and the chain of files that import one another,
loaded through a worklist and applied in reverse (`ConfigLoader`).

**Smaller parts.** The flags of the job selection tree (`SelectionTree`), shell
quoting against a POSIX reader (`Quote`), and the next release version against the
Debian version order (`Debian`, `Version`).

Code that the source updates in place is written as classes and methods with loops
(`DependencySolver`, `SessionState`, `Configuration`, `Widgets`). Each method's
contract ties the new state to a specification function or predicate, and the
lemmas are about those. `Base` holds shared vocabulary.

Two kinds of things stand outside the model and enter it as parameters. The
Python runtime (the parser and `eval` on an uncut fragment, `int`, `str.lower`,
`shlex.split`) is a record of function values; the file system is a `World` that says
which paths exist and what the files say.

## Where the code and its documentation differ

The model follows the code.

- The solver's comment says the same input always gives the same solution
  (checkbox-ng/plainbox/impl/depmgr.py:325-327). The dependency set is a Python
  set, so no order is assumed and none is needed.
- The documented flags and sibling dependencies tie a job to the suspend job they
  name. Both tests are substring tests, and each marker of one kind contains that
  of the other, so a job with the manual flag is held back from the automatic
  suspend job as well (`Markers.ManualFlagHoldsBackAuto`), and the other way round
  for siblings (`Markers.AutoSiblingHoldsBackManual`). A job is tied to just the
  suspend job it names exactly under the conditions of `Markers.AutoTiedExactly`
  and `Markers.ManualTiedExactly`, or for arbitrary texts of
  `Markers.TiedByNameOrStray`.
- The user documentation forbids circular imports between configuration files.
  The loader tolerates them: it always ends, and `ConfigLoader.PreorderIsClosure`
  says what it loads.
- A program can be hidden from the readiness list: if its resources are marked as
  passed but were never recorded, the list is empty although the program does
  not hold (`Readiness.EmptyThoughUnsatisfied`). `Readiness.EmptyListMeaning` is the
  exact condition. Where programs name resource jobs only, observing results alone
  never gets there (`Runs.RecordsKeepUp`); a program that names an ordinary job does
  get there once that job has passed (`Runs.OrdinaryPassHides`), and can wait for
  records that will not come if it ended otherwise (`Runs.PendingAtTurn`).
- A line with an operator in a comment or a string literal: Python's syntax tree
  ends at the comment, the cut does not. The check for missing resources passes and
  evaluating the line raises (`Resource.CommentedOperatorEscapes`). The exact
  condition under which the check suffices is `Resource.PreCheckSufficesExactly`.
- Reading a configuration file is documented not to raise
  (checkbox-ng/plainbox/impl/config.py:240). It does, exactly when the parser
  refuses the file, or a section that is taken up holds a value that cannot be
  interpolated, as in `FOO = 50%` (`ConfigFiles.UnreadableValueRaises`), or a
  section whose name has a second colon holds a variable
  (`ConfigFiles.SecondColonRaises`). `ConfigFiles.FromIni` is the equivalence; loading
  the chain raises with it (`ConfigLoader.LoadConfigs`).
- A line with `and` may hold although no single choice of records satisfies it:
  `JointEvaluation.SharedNamePartsReadings`. The two readings agree on all data
  exactly when the and-groups that include no smaller one name each resource in one
  leaf only (`JointEvaluation.AgreeExactlyWhenSeparate`).
- A suspend job that carries its own marker waits for itself
  (`Runs.WaitsForItselfOnly`); this never happens to a job that was asked for
  (`Runs.NothingAskedForWaits`).
- A category with no jobs keeps the flag that "select all" gives it; the trees of
  the selection screens stay consistent exactly when there is none
  (`SelectionTree.ConsistentExactlyWhenPopulated`).

## Model

| member | source | states |
|---|---|---|
| Solver.ResolveDependencies | checkbox-ng/plainbox/impl/depmgr.py:291-425 | solving ends; with distinct jobs it succeeds if and only if everything needed is known and nothing needed lies on a cycle; the solution holds exactly the needed jobs, each once and after all it depends on; for each front part of the visit list, a front part of the solution holds exactly what that needs, so an order given is returned unchanged; every error proves itself and is about something that the first unsolvable visit needs |
| Solver.OrderReturned | checkbox-ng/plainbox/impl/depmgr.py:325-348 | visits in dependency order, with each front part of them owning one of the solution: the solution is the visit list |
| Solver.DependencySolver.Solve | checkbox-ng/plainbox/impl/depmgr.py:330-348 | visiting the whole list from an all-white start gives a solution, or a genuine error at the first visit that cannot be solved; each visit adds exactly what it needs beyond the visits before it |
| Solver.DependencySolver.Visit | checkbox-ng/plainbox/impl/depmgr.py:350-409 | one visit keeps black jobs equal to the solution and gray jobs equal to the trail, restores the trail, uses up white jobs only, and fails only with a genuine error; a gray job is never met without a trail |
| Solver.DependencySolver.VisitWhite | checkbox-ng/plainbox/impl/depmgr.py:365-397 | a white job ends black and last in the solution, after everything it depends on |
| Solver.DependencySolver.VisitDependencies | checkbox-ng/plainbox/impl/depmgr.py:372-392 | after the loop every dependency is in the solution, for every enumeration order |
| Solver.DependencySolver.VisitDependency | checkbox-ng/plainbox/impl/depmgr.py:378-392 | push, nested visit and pop leave the trail as it was |
| Solver.GetJobMap | checkbox-ng/plainbox/impl/depmgr.py:411-425 | maps each id to its job, and fails exactly when two jobs share an id, naming an earlier and a later one |
| Solver.TrailCloses | checkbox-ng/plainbox/impl/depmgr.py:398-405 | the trail cut at the first appearance of a gray job is longer than one, starts and ends with that job, follows real dependencies throughout and repeats no other job |
| Solver.GenuineMeansUnsolvable | checkbox-ng/plainbox/impl/depmgr.py:359-405 | whatever error is raised, no solution exists |
| Graph.OrderMeansSolvable | checkbox-ng/plainbox/impl/depmgr.py:344-397 | an order that contains the roots contains everything they need, and excludes cycles among it |
| Graph.PathMovesForward | checkbox-ng/plainbox/impl/depmgr.py:344-397 | every dependency path from a member of the solution ends strictly earlier in it |
| Jobs.IsJobImpactingSuspend | checkbox-ng/plainbox/impl/ctrl.py:176-193 | true exactly when the flags contain the flag text or some sibling's dependencies contain the suspend job's id |
| Markers.ContainedInWord | checkbox-ng/plainbox/impl/ctrl.py:183-193 | a text contains a flag or an id if and only if one of its words does |
| Markers.TiedByNameOrStray | checkbox-ng/plainbox/impl/ctrl.py:176-193 | a job is tied to a suspend job if and only if it names it or some other word contains that marker; hence just the named tie, if and only if a stray word comes with a name |
| Markers.AutoTiedExactly | checkbox-ng/plainbox/impl/ctrl.py:176-193 | for jobs without unknown look-alikes: the automatic suspend job waits exactly for the jobs that name it, if and only if a job with the manual flag names it as well |
| Markers.ManualTiedExactly | checkbox-ng/plainbox/impl/ctrl.py:176-193 | the same of the manual suspend job, and a job with a sibling that depends on the automatic one |
| Markers.ManualFlagHoldsBackAuto | checkbox-ng/plainbox/impl/ctrl.py:183-188 | the plain manual flag ties a job to the automatic suspend job, which it does not name |
| Markers.AutoSiblingHoldsBackManual | checkbox-ng/plainbox/impl/ctrl.py:189-193 | a sibling that depends on the automatic suspend job ties a job to the manual one, which it does not name |
| Jobs.DependencyIdsMeaning | checkbox-ng/plainbox/impl/ctrl.py:106-174 | the ids a job depends on are exactly its direct, after and resource dependencies and, for a suspend job, the listed jobs that impact it; a program that cannot be constructed adds none |
| Jobs.DependencyKinds | checkbox-ng/plainbox/impl/ctrl.py:141-149 | which kind goes with which id: direct dependencies, resources of the program, and, as ordering, after dependencies and what has to run before a suspend job |
| Selection.SolveWhatCanBe | checkbox-ng/plainbox/impl/session/state.py:891-937 | retrying without the job at fault always ends; the run list solves what stays desired; only jobs broken to begin with are dropped, each blamed by a problem; each problem is the genuine error of the first unsolvable job on what the problems before it left, and what stays desired is what all of them left; nothing is dropped or reported if and only if everything can be solved |
| Selection.GoneIsBlamed | checkbox-ng/plainbox/impl/session/state.py:914-930 | whatever the problems removed from a list, one of them blames |
| Selection.BlamedIsBroken | checkbox-ng/plainbox/impl/session/state.py:914-930 | the job that an error blames, on whatever is left, could not be solved among all the jobs either |
| Selection.SolutionAmongAll | checkbox-ng/plainbox/impl/session/state.py:906-933 | a solution found among the remaining jobs is one among all jobs |
| Selection.KeptExactlyWhenUnbroken | checkbox-ng/plainbox/impl/session/state.py:891-937 | where nothing asked for has to run before a listed suspend job: a job asked for is kept if and only if it can be solved on its own among all the jobs |
| Resource.ResolveAliases | checkbox-ng/plainbox/impl/resource.py:551-606 | each name of a line becomes the id of the first import with that alias, else the name, in the implicit namespace unless qualified |
| Resource.ResourceIdMeaning | checkbox-ng/plainbox/impl/resource.py:551-606 | an alias becomes what the first import under it imports, else itself; a name without :: gets the namespace of the line, if it has one |
| Base.DedupInOrder | checkbox-ng/plainbox/impl/resource.py:425-435 | the aliases of a line are its names in order of first appearance |
| Resource.RequiredResources | checkbox-ng/plainbox/impl/resource.py:228-237 | collects exactly the resource ids of all lines |
| Resource.Evaluate | checkbox-ng/plainbox/impl/resource.py:630-698 | evaluation equals the and-or meaning of the line's leaves, each leaf satisfied by some pack of records, a raising pack counting as unsatisfied |
| Resource.SplitAndEvaluate | checkbox-ng/plainbox/impl/resource.py:700-721 | both fragments are evaluated to their own meanings, or an exception escapes |
| Resource.InProduct | checkbox-ng/plainbox/impl/resource.py:666 | the product of the record lists holds exactly the packs with one record from each |
| Splitting.GroupsOfRender | checkbox-ng/plainbox/impl/resource.py:648-656 | cutting a line written from or-groups of and-joined leaves gives back those groups and leaves |
| Splitting.TailIsWhole | checkbox-ng/plainbox/impl/resource.py:700-721 | the stripped tail of a rightmost cut is not cut at that operator again |
| Resource.SplittingRespectsPrecedence | checkbox-ng/plainbox/impl/resource.py:638-698 | a parenthesis-free line evaluates to the disjunction over its or-groups of the conjunction of its leaves |
| Resource.PreCheckSuffices | checkbox-ng/plainbox/impl/resource.py:252-270 | for a line that covers its fragments: once its ids are in the map no lookup fails at any depth and no fragment is refused |
| Resource.PreCheckSufficesExactly | checkbox-ng/plainbox/impl/resource.py:252-270 | the check suffices on every resource map if and only if each fragment, at any depth, names a resource and only ids that the line names |
| Resource.CommentedOperatorEscapes | checkbox-ng/plainbox/impl/resource.py:648-721 | a line with ` or ` in a comment whose tail names another resource: all ids of the line are recorded and evaluation raises |
| Resource.MoreRecordsKeepTruth | checkbox-ng/plainbox/impl/resource.py:630-721 | adding records never makes a satisfied line fail, cut or not |
| Resource.SameRecordsSameAnswer | checkbox-ng/plainbox/impl/resource.py:630-721 | reordering or repeating records never changes the answer |
| Resource.EvaluateOrRaise | checkbox-ng/plainbox/impl/resource.py:239-270 | ends with the first missing resource, else the first line that does not hold, else success |
| Resource.VerdictMeaning | checkbox-ng/plainbox/impl/resource.py:239-270 | cannot-evaluate if and only if some id is missing; success if and only if none is and every line holds; another exception gets out only if some line does not cover its fragments |
| Resource.VerdictBlamesFirst | checkbox-ng/plainbox/impl/resource.py:252-270 | the line blamed is the first with an id that has no records, named with its first such id, and else the first that does not evaluate to true, all before it being true |
| Resource.ProgramMonotone | checkbox-ng/plainbox/impl/resource.py:239-270 | adding records keeps a satisfied program satisfied |
| Resource.ProgramIgnoresOrder | checkbox-ng/plainbox/impl/resource.py:239-270 | order and repetition of records never change how a program ends |
| JointEvaluation.JointImpliesSplit | checkbox-ng/plainbox/impl/resource.py:648-698 | a line that one choice of records satisfies as a whole is also accepted fragment by fragment |
| JointEvaluation.SeparateLinesAgree | checkbox-ng/plainbox/impl/resource.py:648-698 | both readings agree when lists are not empty, leaves do not raise, and the leaves of each minimal and-group name different resources, as in pure "or" lines |
| JointEvaluation.SharedNamePartsReadings | checkbox-ng/plainbox/impl/resource.py:648-698 | two leaves of a minimal and-group that share a resource: on two records the fragments hold and no single choice satisfies the line |
| JointEvaluation.AgreeExactlyWhenSeparate | checkbox-ng/plainbox/impl/resource.py:648-698 | for any line the readings agree on all data if and only if no two different leaves of a minimal and-group name the same resource |
| JointEvaluation.AndAgreesExactlyWhenSeparate | checkbox-ng/plainbox/impl/resource.py:653-656 | for an and-group the readings agree on all data if and only if no two different leaves name the same resource |
| Readiness.GetInhibitorList | checkbox-ng/plainbox/impl/ctrl.py:195-302 | the inhibitors are those of the program, then of the direct, after and salvage dependencies in sorted order, then of the suspend rule |
| Readiness.CollectOneMore | checkbox-ng/plainbox/impl/ctrl.py:257-302 | one more turn of a loop over ids or jobs appends what that one contributes |
| Readiness.GetSuspendInhibitorList | checkbox-ng/plainbox/impl/ctrl.py:304-348 | one pending inhibitor for each job not undesired that impacts the suspend job and has no outcome |
| Readiness.ProgramPartMeaning | checkbox-ng/plainbox/impl/ctrl.py:210-255 | the program adds no inhibitor exactly when it is satisfied, or cannot be evaluated while all resource jobs of the line at fault have passed |
| Readiness.EmptyListMeaning | checkbox-ng/plainbox/impl/ctrl.py:209-302 | the list is empty if and only if the dependencies are met and the program is satisfied or so hidden |
| Readiness.EmptyExactlyWhenReady | checkbox-ng/plainbox/impl/ctrl.py:209-302 | while outcomes come with records: the list is empty if and only if the program holds, direct dependencies passed, after dependencies and suspend prerequisites ran and salvaged jobs failed |
| Readiness.EmptyThoughUnsatisfied | checkbox-ng/plainbox/impl/ctrl.py:215-221 | resources marked as passed but never recorded leave the list empty for a job whose program does not hold |
| Readiness.PendingMeaning | checkbox-ng/plainbox/impl/ctrl.py:209-302 | with dependencies run, something is pending exactly when the program lacks records of something and names something not passed, or for a suspend job with an impacting job still to run |
| Readiness.FailedDepMeaning | checkbox-ng/plainbox/impl/ctrl.py:257-277 | failed-dependency inhibitors name exactly the direct dependencies with an outcome other than a pass |
| Readiness.FailedResourceMeaning | checkbox-ng/plainbox/impl/ctrl.py:238-255 | failed-resource inhibitors: one for each resource of the line that fails, naming both |
| Readiness.PendingResourceMeaning | checkbox-ng/plainbox/impl/ctrl.py:215-237 | pending-resource inhibitors: one for each resource, not passed, of the line that cannot be evaluated, naming both |
| Readiness.PendingDepMeaning | checkbox-ng/plainbox/impl/ctrl.py:257-348 | pending-dependency inhibitors: one for each direct or after dependency, and job that impacts a suspend job, that has no outcome |
| Readiness.NotFailedDepMeaning | checkbox-ng/plainbox/impl/ctrl.py:289-295 | not-failed inhibitors: one for each salvaged job that has not failed |
| Readiness.InhibitorOrder | checkbox-ng/plainbox/impl/ctrl.py:209-302 | the program comes first, in the order of its line, then direct, after and salvage dependencies, each sorted by id, then the suspend rule in session order |
| Session.SettleDuplicates | checkbox-ng/plainbox/impl/session/state.py:727-761 | dropping identical duplicates ends, with distinct ids and the last of identical jobs kept in order, if and only if no two different jobs share an id; otherwise such a pair is reported |
| Session.NewSession | checkbox-ng/plainbox/impl/session/state.py:720-773 | a session is built if and only if no two different jobs share an id; it knows exactly the jobs given |
| Session.SessionState.constructor | checkbox-ng/plainbox/impl/session/state.py:761-768 | a new session knows every job, all undesired, without outcome, with three attempts |
| Session.FirstStatesMeaning | checkbox-ng/plainbox/impl/session/state.py:761-768 | at first every job is undesired, has no outcome and has attempts left |
| Session.SessionState.RecomputeJobReadiness | checkbox-ng/plainbox/impl/session/state.py:1489-1518 | afterwards every job off the run list is undesired and every job on it has the inhibitors of its own situation; nothing else changes |
| Session.SessionState.AdmitRunList | checkbox-ng/plainbox/impl/session/state.py:1504-1518 | the single pass admits the jobs of the run list one after the other |
| Session.RecomputedIsUpToDate | checkbox-ng/plainbox/impl/session/state.py:1496-1518 | one pass in run-list order suffices: no inhibitor list depends on a later turn, and a suspend job sees the jobs up to itself |
| Session.SessionState.ObserveResult | checkbox-ng/plainbox/impl/ctrl.py:350-422 | the outcome is replaced, and the records of a resource job that ran are replaced, by one empty record if it printed none |
| Session.StoredMeaning | checkbox-ng/plainbox/impl/ctrl.py:402-422 | a resource job that ran has the records it printed, or one empty record; nobody else's records change |
| Session.SessionState.UpdateJobResult | checkbox-ng/plainbox/impl/session/state.py:976-998 | the result is observed and readiness is up to date again |
| Session.OutcomeWhenBlocked | checkbox-ng/plainbox/impl/applogic.py:61-71 | skip exactly when some failed-dependency inhibitor names a skipped job, otherwise not-supported |
| Session.SessionState.RunJobIfPossible | checkbox-ng/plainbox/impl/applogic.py:51-81 | handed to the runner exactly when it can start; either way its result is observed and readiness is up to date |
| Session.SessionState.UpdateDesiredJobList | checkbox-ng/plainbox/impl/session/state.py:875-937 | what stays desired is solved by the run list and readiness is up to date |
| Session.SolutionIsAnswerable | checkbox-ng/plainbox/impl/session/state.py:906-935 | if what is needed salvages known jobs and has valid programs, every id that a solved job refers to has a job state, so recomputation never looks up a missing one |
| Runs.RunExists | checkbox-ng/plainbox/impl/applogic.py:57-81 | whatever the runner would answer, the plan has a run |
| Runs.RunIsUnique | checkbox-ng/plainbox/impl/applogic.py:57-81 | and only one: the results follow from the plan and the answers |
| Runs.SessionIsPlanned | checkbox-ng/plainbox/impl/session/state.py:906-935 | a session whose run list solves its desired jobs has a plan for any answers |
| Runs.RunNext | checkbox-ng/plainbox/impl/applogic.py:57-81 | one run step of the session gives the job what the run gives it and leaves the session where the run says |
| Runs.RunInOrder | checkbox-ng/plainbox/impl/applogic.py:57-81 | working through the run list of any solved session is a run, from its present state with the runner's answers |
| Runs.SelectAndRun | checkbox-ng/plainbox/impl/session/state.py:875-937 | selecting jobs and working through the run list is a run for the jobs that stay desired, from what the session held, with the runner's own answers, and leaves every job of it with an outcome |
| Runs.AllHappened | checkbox-ng/plainbox/impl/ctrl.py:209-288 | at a job's turn whatever its program names and its direct and after dependencies have outcomes, and what it names has records if those are resource jobs |
| Runs.PendingAtTurn | checkbox-ng/plainbox/impl/ctrl.py:209-348 | at its turn a job meets a pending inhibitor if and only if it is a suspend job with its own marker and no outcome, or its program lacks records of something and names something not passed |
| Runs.ProgramIsDecided | checkbox-ng/plainbox/impl/ctrl.py:209-255 | at its turn a program that names resource jobs only neither waits for records nor is hidden |
| Runs.NothingAskedForWaits | checkbox-ng/plainbox/impl/ctrl.py:131-174 | a job that was asked for meets a pending inhibitor at its turn only for lack of records, and never if its program names resource jobs only |
| Runs.OnePassCompletes | checkbox-ng/plainbox/impl/applogic.py:57-81 | one pass gives every job of the run list an outcome and touches no other job |
| Runs.HandedExactlyWhenReady | checkbox-ng/plainbox/impl/applogic.py:57-71 | over a whole run, a job reaches the runner if and only if it has attempts, its program holds or is hidden, its direct dependencies end as passes, its salvaged jobs have failed and it is not a suspend job that carries its own marker and had no outcome; a program that names resource jobs only is never hidden |
| Runs.BlockedOutcomeExactly | checkbox-ng/plainbox/impl/applogic.py:61-77 | a blocked job ends as skip if and only if some direct dependency ends as skip, otherwise as not-supported |
| Runs.NeverHandedAboveNonPass | checkbox-ng/plainbox/impl/applogic.py:57-81 | a job from which direct dependencies lead to any non-pass is never handed to the runner |
| Runs.SkipReachesDependants | checkbox-ng/plainbox/impl/applogic.py:61-71 | a skip reaches every transitive direct dependant |
| Runs.RecordsKeepUp | checkbox-ng/plainbox/impl/ctrl.py:379-422 | over any results in any order, a resource job with an outcome has records |
| Runs.HandedGetsItsAnswer | checkbox-ng/plainbox/impl/applogic.py:57-81 | a job handed to the runner gets the runner's answer; any other ends as skip or not-supported and prints nothing |
| Runs.RecordsArePrinted | checkbox-ng/plainbox/impl/ctrl.py:402-422 | from its turn on, a resource job's records are those of its own result |
| Runs.RecordsUntouched | checkbox-ng/plainbox/impl/ctrl.py:402-422 | the records under any other id stay as they were at the start |
| Runs.DecidedOnPrinted | checkbox-ng/plainbox/impl/ctrl.py:209-255 | at its turn a program over resource jobs is decided on the records that those jobs printed earlier in the run |
| Runs.OrdinaryPassHides | checkbox-ng/plainbox/impl/ctrl.py:209-255 | the pass of an ordinary job empties the list of a job whose program names it, although the program does not hold |
| Configuration.SetValueKeepsGood | checkbox-ng/plainbox/impl/config.py:122-179 | a stored value keeps the configuration good and changes one variable; a rejected one changes no value and adds exactly one problem; an exception changes nothing |
| Configuration.Configuration.constructor | checkbox-ng/plainbox/impl/config.py:46-62 | a new configuration is good and holds the declared defaults |
| Configuration.FreshIsGood | checkbox-ng/plainbox/impl/config.py:46-62 | the same of the specification function: every default with an empty origin, nothing set |
| Configuration.Configuration.SetValue | checkbox-ng/plainbox/impl/config.py:122-179 | looks up the section, converts, and stores, rejects or raises, keeping the configuration good |
| Configuration.Configuration.DynSetValue | checkbox-ng/plainbox/impl/config.py:117-120 | stores the text and its origin, and nothing else |
| Configuration.Configuration.UpdateFromAnother | checkbox-ng/plainbox/impl/config.py:96-115 | takes over exactly what the other set, with its sources and problems, keeping the configuration good |
| Configuration.UpdatedMeaning | checkbox-ng/plainbox/impl/config.py:96-115 | what the other set wins with the given origin or its own, everything else stays as it was, sources and problems are appended |
| Configuration.ChangesKeepGood | checkbox-ng/plainbox/impl/config.py:46-179 | over any sequence of sets and updates: values and origins cover the same variables, values keep their kinds, an empty origin means the default, and a variable is set exactly when some change set it |
| Configuration.ProblemsStay | checkbox-ng/plainbox/impl/config.py:79-179 | no problem reported is ever lost |
| ConfigFiles.FromIni | checkbox-ng/plainbox/impl/config.py:233-288 | raises if and only if the parser refuses the file, or a section taken up has a value that cannot be read or a second colon in its name and a variable; otherwise reads every variable of every section in file order |
| ConfigFiles.UnreadableValueRaises | checkbox-ng/plainbox/impl/config.py:240-287 | a value that cannot be interpolated makes reading raise in a known section, and does no harm in an unknown one |
| ConfigFiles.SecondColonRaises | checkbox-ng/plainbox/impl/config.py:268-271 | a variable in any section whose name has a second colon makes reading raise |
| ConfigFiles.ReadIniIsGood | checkbox-ng/plainbox/impl/config.py:233-288 | whatever the file says, what is read is a good configuration |
| ConfigFiles.RaisesOnSecondColon | checkbox-ng/plainbox/impl/config.py:268-287 | after the checks of the reader, setting a value raises if and only if the section name has a second colon |
| ConfigFiles.ConfigSpecIsGood | checkbox-ng/plainbox/impl/config.py:313-481 | the declared sections have distinct colon-free names, defaults of their declared kinds, and a variable for the next file |
| ConfigMeaning.WhatAFileSets | checkbox-ng/plainbox/impl/config.py:251-287 | a file sets a variable if and only if an option of a known section, under its current name, converts; the last such option of the file decides, and the origin is the file |
| ConfigMeaning.PlainFilesSet | checkbox-ng/plainbox/impl/config.py:253-287 | a text under a section, and under the old name of one, is set as written |
| ConfigMeaning.ParametricTextSet | checkbox-ng/plainbox/impl/config.py:268-271 | the same in a section with a parameter |
| ConfigMeaning.DeclaredSections | checkbox-ng/plainbox/impl/config.py:129-155 | which variables a section may hold: its own, or those of the parametric section it extends, which is no section itself |
| ConfigMeaning.ConvertMeaning | checkbox-ng/plainbox/impl/config.py:157-164 | text is kept as written, yes and true in any letters are true and nothing else is, numbers and lists are what `int` and `shlex.split` make of the text, with blanks for commas |
| ConfigMeaning.ProblemsOfAFile | checkbox-ng/plainbox/impl/config.py:253-287 | a problem is reported if and only if some section is unknown, or some option is ignored, unexpected or does not convert, and is that one's problem |
| ConfigMeaning.ReadIniProblems | checkbox-ng/plainbox/impl/config.py:253-287 | the problems come in the order of the file, at most one for each option |
| ConfigLoader.SearchConfigsByName | checkbox-ng/checkbox_ng/config.py:50-65 | an absolute name stands for itself, any other for the existing files in the search directories, best first |
| ConfigLoader.SearchMeaning | checkbox-ng/checkbox_ng/config.py:35-65 | the file in the user's configuration directory comes before that of the system, and that before the snap's |
| ConfigLoader.FromPath | checkbox-ng/plainbox/impl/config.py:223-231 | a file's settings, or the defaults and one problem; nothing exactly when reading raises |
| ConfigLoader.LoadedSays | checkbox-ng/plainbox/impl/config.py:223-231 | a file sets exactly what its text gives and has the problems of its text; a missing file sets nothing and leaves one problem |
| ConfigLoader.LoadChain | checkbox-ng/checkbox_ng/config.py:105-118 | the worklist ends on any cyclic imports, loads exactly the recursive preorder traversal and searches for exactly its names; it raises if and only if reading some file of the traversal does |
| ConfigLoader.PreorderIsClosure | checkbox-ng/checkbox_ng/config.py:105-118 | every starting file and every file under a searched name is loaded, every name given is known, every name searched was given |
| ConfigLoader.SearchedExactly | checkbox-ng/checkbox_ng/config.py:109-115 | a name is searched for if and only if a loaded file gives it and it was not known at the start |
| ConfigLoader.SearchesBounded | checkbox-ng/checkbox_ng/config.py:92-118 | of the names that loading searches for, each is searched for at most once, but the starting name a second time exactly when some loaded file names it again and it is not the default |
| ConfigLoader.ApplyInReverse | checkbox-ng/checkbox_ng/config.py:123-125 | the reversed loop layers the files, earlier ones on top |
| ConfigLoader.FirstLayerWins | checkbox-ng/checkbox_ng/config.py:120-133 | each variable has the value and the origin of the first layer that sets it |
| ConfigLoader.LoadConfigs | checkbox-ng/checkbox_ng/config.py:68-133 | raises if and only if reading the launcher or a file of the traversal does, leaving a given configuration alone; otherwise the result is the base with the layers of the loaded chain, the launcher on top, and the names searched for are the starting name and those of the traversal |
| ConfigLoader.LauncherPriority | checkbox-ng/checkbox_ng/config.py:92-133 | with a launcher: its value if it sets the variable, else that of the first file in preorder that does, else the default, and the origin names that winner |
| ConfigLoader.TextPriority | checkbox-ng/checkbox_ng/config.py:68-133 | the same in terms of what the files say, with or without a launcher and into any configuration |
| ConfigLoader.SearchStarts | checkbox-ng/checkbox_ng/config.py:92-104 | the search starts from the name that the launcher's text gives, else the default name, and without a launcher from the name in the configuration; all found under it is loaded |
| ConfigLoader.ImportsFollowed | checkbox-ng/checkbox_ng/config.py:105-118 | all files found under the name that a loaded file's text gives are loaded, unless that is empty or the name in the configuration |
| ConfigLoader.NotesOfLayers | checkbox-ng/checkbox_ng/config.py:120-133 | no problem and no source of any file is lost or made up |
| SelectionTree.Widgets.SetDescendantsState | checkbox-ng/checkbox_ng/urwid_ui.py:202-214 | everything below the node, and nothing else, gets the state |
| SelectionTree.Widgets.SetAncestorsState | checkbox-ng/checkbox_ng/urwid_ui.py:174-200 | all ancestors of a flagged node get the state; of an unflagged one, those up to the first with a flagged child |
| SelectionTree.Widgets.Press | checkbox-ng/checkbox_ng/urwid_ui.py:145-172 | the flags after Space, s or d |
| SelectionTree.BelowIsUnderAChild | checkbox-ng/checkbox_ng/urwid_ui.py:202-214 | being below a node is being under one of its children |
| SelectionTree.FlagMeansJob | checkbox-ng/checkbox_ng/urwid_ui.py:174-200 | in a consistent tree a node is flagged if and only if some job under it is |
| SelectionTree.PressRefines | checkbox-ng/checkbox_ng/urwid_ui.py:145-214 | a key keeps the tree consistent and changes the selected jobs by exactly those under the node |
| SelectionTree.PressTouches | checkbox-ng/checkbox_ng/urwid_ui.py:145-214 | on any tree and flags: Space turns its node and gives that to all below, sets or clears flags above, and touches nothing else; s and d give all nodes one flag |
| SelectionTree.KeysRefine | checkbox-ng/checkbox_ng/urwid_ui.py:145-214 | the same over any sequence of keys at any nodes, against a plain set of selected jobs |
| SelectionTree.ConsistentExactlyWhenPopulated | checkbox-ng/checkbox_ng/urwid_ui.py:145-214 | the tree stays consistent under all keys if and only if no category is empty |
| Quote.ReadQuoted | checkbox-ng/plainbox/impl/_shlex.py:13-22 | a quoted string is read as one word, the string itself, whatever follows |
| Quote.RoundTrip | checkbox-ng/plainbox/impl/_shlex.py:13-22 | a list quoted, joined with blanks and read as argument words is the list again, if and only if no string holds a NUL |
| Quote.LeftAloneExactly | checkbox-ng/plainbox/impl/_shlex.py:13-22 | a string is left alone if and only if it is not empty and has safe characters only |
| Version.GetNeededBump | tools/release/get_version.py:126-168 | the greatest category in the history and the messages with none, or an error exactly when some message has no space |
| Version.MessageNamesCategory | tools/release/get_version.py:60-64 | a message that ends in a word in parentheses and a reference has the category that the word names in any letters, and none if it names none |
| Version.UncategorizedMeaning | tools/release/get_version.py:141-153 | the messages reported are those without a category, as often as they occur |
| Version.BumpIgnoresOrder | tools/release/get_version.py:126-168 | the needed bump does not depend on the order or repetition of commits |
| Version.BumpVersion | tools/release/get_version.py:182-209 | the bumped version in the wanted format, or an error where the version has no three numbers |
| Version.BumpedIsLeast | tools/release/get_version.py:190-199 | the bumped version is the least later one with zeros below the bumped part |
| Version.StableIsRead | tools/release/get_version.py:188-189 | a stable tag is read back as its three numbers, with and without the v |
| Version.ReadExactly | tools/release/get_version.py:188-189 | a version is read if and only if, but for any v, it is three texts between dots that `int` reads |
| Version.ReleaseIsRead | tools/release/get_version.py:182-209 | a release tag is read back as the bumped version |
| Version.GetVersion | tools/release/get_version.py:252-288 | the release or snapshot version for the needed bump, or the error that stops it |
| Version.ReleaseText | tools/release/get_version.py:171-209 | the text of releases and snapshots in the three formats |
| Version.DevBetweenReleases | tools/release/get_version.py:171-209 | a Debian snapshot sorts after the old release, before the new one, and by its number of commits, under section 5.6.12 of the Debian Policy Manual |
| Version.DashedSnapshots | tools/release/get_version.py:171-209 | in the formats with a dash snapshots, compared in the same order, sort by their number of commits as well, but after the release they lead up to |
| Version.SnapshotsGrow | tools/release/get_version.py:126-209 | adding commits makes the Debian snapshot strictly later, even when the bump changes |
| Debian.CompareNumbers | tools/release/get_version.py:171-180 | in the Debian order numbers after equal text decide, and then what follows them |

## Left out

- Solver.ResolveDependencies: requires that a job on the visit list that shares its id with a listed job is that job; what the code does with two different ones is not modelled. Selection.SolveWhatCanBe and Session.SessionState.UpdateDesiredJobList inherit this.
- Session.SessionState.UpdateDesiredJobList: requires that whatever the jobs asked for need has a valid program and salvages known jobs. Recomputing readiness lets the exceptions of any other job through.
- Session.SessionState.ObserveResult: templates are not instantiated, so the job set is fixed during a run, and a result without outcome for a resource job that has no records is ruled out, as the code looks the records up.
- Session.SessionState.RunJobIfPossible: the returned job state, the comments, the result history and the call without update are not modelled. Job states are values in a map that the session replaces, so that the caller shares them is not captured.
- SelectionTree.Widgets.SetDescendantsState: the break on a widget that raises AttributeError is left out, like everything about widgets but their flags. The nodes are numbered, parents first, and the flags live in one array.
- An inhibitor's related job is represented by its id, which identifies it, since ids are unique in a session.
- The dictionaries of dictionaries of a configuration are kept flat, keyed by section and variable, beside the set of section names; so the order of sections and variables is not captured.
- Markers.TiedByNameOrStray: a sibling names a suspend job by its full id; ids that a namespace would qualify are not resolved, as the test does not.
- Configuration.Configuration.SetValue: keeps the invariant for origins that are not empty; an empty origin marks a default.
- Parsing job fields: the `depends`, `after`, `salvages` and sibling texts arrive as id sets and raw sibling texts.
- The Python parser, its white-list and `eval` are abstract: which names a text has, or that it is refused, is a parameter, and so is what it evaluates to on given records.
- Units other than jobs, adding and removing units during a session, signals and storage.
- `Runs.RunInOrder` stands for the launchers' driving loop; the runner's answers are data, one for each job, and never the missing outcome. Attempts are constant during a run, and retries are not modelled.
- Ini parsing and the file system are abstract: a file is refused or has sections whose options each have a value or none, where interpolating it raises. `get_parametric_sections`, `from_text` and the properties of the store are left out.
- Quote: the reader knows literal characters, blanks, single and double quotes, and refuses all other special characters; words are arguments, so reserved words and assignments do not arise.
- Version: the git commands and the warnings for uncategorised commits; only the messages without a category are returned. Python's `int` and `str.lower` are parameters, and `int` is required to read decimals back only where a lemma says so.
- The remote protocol, process execution, the launcher user interface beyond the flags, providers, exporters and transports.
