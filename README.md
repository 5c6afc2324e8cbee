# A verified model of five pieces of Bazel's build logic

This project models, in Dafny, five sequential pieces of an early Bazel
code base and proves what each of them promises.

- **Containing-package lookup** (`containing_package_lookup.dfy`,
  module `ContainingPackageLookup`). One invocation of the Skyframe
  function that finds the package holding a directory. It reads a
  read-only environment and returns "missing" (Java `null`, meaning
  "re-invoke me") when a value it asks for is absent. The environment is
  two partial maps, and each invocation returns the keys it requested.
  A restart driver, `Evaluate`, fills in missing values and re-invokes.
  It is proved to terminate at the deepest ancestor-or-self directory
  that holds a package.
- **Configuration factory** (`configuration_factory.dfy`, module
  `ConfigurationFactory`).
  - The fragment-factory graph and its topological creation order, with
    the three ways construction fails.
  - Per-CPU target configurations, de-duplicated.
  - `createConfiguration`'s replay-and-throw rule.
  - Fragment collection, and the get-or-insert configuration cache.
  - The host-configuration cache.
- **Action status reporter** (`action_status.dfy`, module
  `ActionStatus`).
  - The in-flight table, a class whose map field is updated in place.
  - The status message: groups by status in string order, each group
    sorted by start time and cut off at `MAX_LINES`.
  - The warning that leaves out preparing actions.
  - The 10 → 30 → 60 second wait schedule.
- **Rule** (`rule.dfy`, module `Rules`).
  - A class holding the output-file list, the per-attribute output map,
    the error flag and the events reported to the listener.
  - Population of implicit and then explicit outputs, with the
    same-package check.
  - The fallback chains for visibility, distributions, licenses and
    attribute locations.
  - The dependency-edge predicates and `getLabels`/`getRuleTags`.
- **Build tool decisions** (`build_tool.dfy`, module `BuildTool`).
  - `needsExecutionPhase`, and how `buildTargets` ends given how each
    phase ended.
  - The exception → exit-code table of `processRequest`, and the
    `BuildResult` it fills in.
  - The crash/`SUCCESS` precondition of `stopRequest`.
  - The target counts of `reportTargets`.

`wrappers.dfy` (module `Wrappers`) holds `Option` (Java `null`) and
`Result` (an exception leaving a method).

Collaborators whose code is not part of this model are parameters:
- the configuration collection factory (`collect`);
- the cache-key computation (`cacheKey`);
- the fragment provider (`provided`);
- the label parser (`parse`);
- the implicit-outputs function's result (`implicitOutputs`);
- the clock (`now`, `currentTime`);
- the outcome of each build phase.

## Model

Source paths are relative to the repository root.

| member | source | states |
|---|---|---|
| ContainingPackageLookup.ParentDirectory | src/main/java/com/google/devtools/build/lib/skyframe/ContainingPackageLookupFunction.java:42-45 | The empty path has no parent. Any other path's parent is the prefix one segment shorter. |
| ContainingPackageLookup.Compute | src/main/java/com/google/devtools/build/lib/skyframe/ContainingPackageLookupFunction.java:29-53 | The package lookup of `dir` is always requested first. At most one more key is requested: the parent's containing-package key, exactly when `dir` has no package and has a parent. The result is missing iff the last requested value is absent. Every earlier request was answered. A package at `dir` gives `dir` itself. |
| ContainingPackageLookup.NearestIsDeepestPackage | src/main/java/com/google/devtools/build/lib/skyframe/ContainingPackageLookupFunction.java:38-52 | The reference answer is an ancestor-or-self of `dir` that is a package, and no deeper ancestor is a package. "No package" means no ancestor is a package. |
| ContainingPackageLookup.ComputeIsSound | src/main/java/com/google/devtools/build/lib/skyframe/ContainingPackageLookupFunction.java:46-52 | Over an environment whose values are correct, any invocation that completes returns the deepest package ancestor. |
| ContainingPackageLookup.Evaluate | src/main/java/com/google/devtools/build/lib/skyframe/ContainingPackageLookupFunction.java:29-53 | Re-invoking after filling in each missing value terminates, and it yields the deepest package ancestor, whatever correct values were present at the start. |
| ConfigurationFactory.GraphShape | src/main/java/com/google/devtools/build/lib/view/config/ConfigurationFactory.java:255-262 | The nodes are exactly the created and required kinds. The edges are exactly required-kind → creating-kind, and both ends of every edge are nodes. |
| ConfigurationFactory.PredecessorsFirstExtend | src/main/java/com/google/devtools/build/lib/view/config/ConfigurationFactory.java:266 | Appending a node whose predecessors are all placed keeps the order edge-respecting. |
| ConfigurationFactory.StuckNeverPlaced | src/main/java/com/google/devtools/build/lib/view/config/ConfigurationFactory.java:266 | In an edge-respecting order, no node of a set in which every node has a predecessor appears. |
| ConfigurationFactory.NoTopologicalOrderWhenStuck | src/main/java/com/google/devtools/build/lib/view/config/ConfigurationFactory.java:266 | A non-empty set of nodes that all have a predecessor inside the set rules out any topological order. |
| ConfigurationFactory.FindReady | src/main/java/com/google/devtools/build/lib/view/config/ConfigurationFactory.java:266 | Returns a remaining node with no remaining predecessor. Returns none only when every remaining node has one. |
| ConfigurationFactory.TopologicalOrder | src/main/java/com/google/devtools/build/lib/view/config/ConfigurationFactory.java:266 | A result lists every node exactly once, each after all its predecessors. No result means no such order exists (a cycle). |
| ConfigurationFactory.RegisterFactories | src/main/java/com/google/devtools/build/lib/view/config/ConfigurationFactory.java:255-263 | On success: the graph is the one `GraphShape` describes; created kinds are unique; the map sends each created kind to its factory; kinds are registered in list order. On failure: a created kind occurs twice. |
| ConfigurationFactory.FactoriesInOrder | src/main/java/com/google/devtools/build/lib/view/config/ConfigurationFactory.java:265-273 | On success: the i-th factory is the map's entry for the i-th kind of the order. On failure: the reported kind is in the order and has no factory. |
| ConfigurationFactory.CreationOrderFollowsGraph | src/main/java/com/google/devtools/build/lib/view/config/ConfigurationFactory.java:253-273 | Mapping a topological order through the factory map gives each factory exactly once, and every factory comes after the factories of all the kinds it requires. |
| ConfigurationFactory.NewFragmentFactories | src/main/java/com/google/devtools/build/lib/view/config/ConfigurationFactory.java:250-275 | On success, `creationOrder` is a permutation of the factories in which requirements come first, and the map is keyed by created kind. Construction fails in three cases, each named by the failure: a duplicate created kind; a dependency cycle, in which case no topological order exists; or a kind that is required but created by no factory. |
| ConfigurationFactory.OptionsFor | src/main/java/com/google/devtools/build/lib/view/config/ConfigurationFactory.java:156-161 | A CPU override replaces only the CPU. Without one, the options are unchanged. |
| ConfigurationFactory.CreateConfiguration | src/main/java/com/google/devtools/build/lib/view/config/ConfigurationFactory.java:151-174 | A null from the collection factory gives null and replays nothing. Otherwise the stored events are replayed, and the call throws iff one of them is an error; if it does not throw, it returns the configuration. |
| ConfigurationFactory.TargetConfigurationsAreDistinct | src/main/java/com/google/devtools/build/lib/view/config/ConfigurationFactory.java:127-135 | The per-CPU list has no duplicates. It holds exactly the non-null configurations that some CPU created. |
| ConfigurationFactory.TargetConfigurationsInCpuOrder | src/main/java/com/google/devtools/build/lib/view/config/ConfigurationFactory.java:127-135 | The per-CPU list follows the CPU order: of two listed configurations, the earlier was created for some CPU that comes before every CPU that created the later one. |
| ConfigurationFactory.TargetErrorPersists | src/main/java/com/google/devtools/build/lib/view/config/ConfigurationFactory.java:127-135 | Once one CPU's configuration throws, the whole loop throws that exception. |
| ConfigurationFactory.GetConfigurations | src/main/java/com/google/devtools/build/lib/view/config/ConfigurationFactory.java:123-148 | With several CPUs: the de-duplicated list, or null if values were missing. With none: the single configuration as a one-element list, or null when it is null. Exceptions propagate. |
| ConfigurationFactory.FragmentsKeyedByClass | src/main/java/com/google/devtools/build/lib/view/config/ConfigurationFactory.java:199-206 | Every collected fragment is stored under its own class. Every provided fragment's class is present, and every stored fragment was provided. |
| ConfigurationFactory.CollectFragments | src/main/java/com/google/devtools/build/lib/view/config/ConfigurationFactory.java:199-206 | The loop builds the fragment map `FragmentsOf` describes. |
| ConfigurationFactory.ConfigurationCache.GetOrCreate | src/main/java/com/google/devtools/build/lib/view/config/ConfigurationFactory.java:222-230 | A cached key returns the cached instance and leaves the cache unchanged. Otherwise a fresh configuration with the given fragments, options and flag is stored under the key and returned. |
| ConfigurationFactory.GetConfiguration | src/main/java/com/google/devtools/build/lib/view/config/ConfigurationFactory.java:194-231 | Missing values give null and leave the cache untouched. Otherwise the result is the get-or-insert of the collected fragments under the computed key. |
| ConfigurationFactory.ConfigurationFactoryObject.constructor | src/main/java/com/google/devtools/build/lib/view/config/ConfigurationFactory.java:73-81 | Takes fragment factories built from the given list (the object is then valid) and starts with an empty host-configuration cache. |
| ConfigurationFactory.NewConfigurationFactory | src/main/java/com/google/devtools/build/lib/view/config/ConfigurationFactory.java:73-81 | Builds the fragment factories from the list. On success the new object is valid for that list, so its creation order is a permutation of the list with requirements first, and its host cache is empty. On failure it names the duplicate kind, the dependency cycle or the missing loader, as `FragmentFactories` construction does. |
| ConfigurationFactory.ConfigurationFactoryObject.GetFactories | src/main/java/com/google/devtools/build/lib/view/config/ConfigurationFactory.java:233-235 | The creation order: every given factory exactly once, each after the creators of the kinds it requires. |
| ConfigurationFactory.ConfigurationFactoryObject.GetHostConfiguration | src/main/java/com/google/devtools/build/lib/view/config/ConfigurationFactory.java:181-187 | Null on missing values. Otherwise the instance now cached under the host key: the previously cached one with the cache unchanged if there was one, else a new one added under the host key and no other change, with actions enabled, the host options and the fragments of the registered kinds. |
| ActionStatus.StringLessIrreflexive | src/main/java/com/google/devtools/build/lib/actions/ActionExecutionStatusReporter.java:202-205 | The string order used for sorting statuses is irreflexive. |
| ActionStatus.StringLessTransitive | src/main/java/com/google/devtools/build/lib/actions/ActionExecutionStatusReporter.java:202-205 | The string order is transitive. |
| ActionStatus.StringLessTotal | src/main/java/com/google/devtools/build/lib/actions/ActionExecutionStatusReporter.java:202-205 | The string order is total on distinct strings. |
| ActionStatus.LeastStringExists | src/main/java/com/google/devtools/build/lib/actions/ActionExecutionStatusReporter.java:202-205 | Every non-empty set of statuses has a least element, which is what iterating a sorted set visits first. |
| ActionStatus.InsertKeepsSorted | src/main/java/com/google/devtools/build/lib/actions/ActionExecutionStatusReporter.java:168 | Inserting one entry keeps a list sorted by start time. |
| ActionStatus.SortByStart | src/main/java/com/google/devtools/build/lib/actions/ActionExecutionStatusReporter.java:168 | The result is a permutation of the input (same multiset of entries), sorted by ascending start time. |
| ActionStatus.SortKeepsDistinct | src/main/java/com/google/devtools/build/lib/actions/ActionExecutionStatusReporter.java:168 | Sorting a list without repeats gives a list without repeats. |
| ActionStatus.JavaDiv | src/main/java/com/google/devtools/build/lib/actions/ActionExecutionStatusReporter.java:182 | Division rounding toward zero, as Java's `long /` does: the remainder lies in [0, b) for a non-negative dividend and in (-b, 0] for a negative one. |
| ActionStatus.CollectEntries | src/main/java/com/google/devtools/build/lib/actions/ActionExecutionStatusReporter.java:159-164 | Collects exactly the actions with the given status, each once, with their start times. |
| ActionStatus.AppendGroupStatus | src/main/java/com/google/devtools/build/lib/actions/ActionExecutionStatusReporter.java:157-188 | No group iff no action has the status. Otherwise the group holds that status's actions, each once, by ascending start time, with their running times. It lists all of them when there are at most `MAX_LINES`; otherwise it lists the earliest `MAX_LINES - 1` and counts the rest, and listed + counted = members. |
| ActionStatus.GroupProperties | src/main/java/com/google/devtools/build/lib/actions/ActionExecutionStatusReporter.java:165-187 | The sorted, truncated list of collected entries is the group of its status. |
| ActionStatus.CollectStatuses | src/main/java/com/google/devtools/build/lib/actions/ActionExecutionStatusReporter.java:202-205 | Collects exactly the distinct statuses in the table. |
| ActionStatus.GetExecutionStatusMessage | src/main/java/com/google/devtools/build/lib/actions/ActionExecutionStatusReporter.java:193-211 | The header is "1 job" iff the table has one entry, else the entry count. There is one group per distinct status, in strictly increasing string order, and each group is the group of its status. |
| ActionStatus.WaitTime | src/main/java/com/google/devtools/build/lib/actions/ActionExecutionStatusReporter.java:260-276 | A positive user interval is returned as is. Otherwise the result is 10, 30 or 60. |
| ActionStatus.DefaultScheduleSettles | src/main/java/com/google/devtools/build/lib/actions/ActionExecutionStatusReporter.java:265-275 | Without a user interval the successive waits are 10, 30, and then 60 for ever. |
| ActionStatus.ActionExecutionStatusReporter.constructor | src/main/java/com/google/devtools/build/lib/actions/ActionExecutionStatusReporter.java:61-62 | The table starts empty. |
| ActionStatus.ActionExecutionStatusReporter.SetStatus | src/main/java/com/google/devtools/build/lib/actions/ActionExecutionStatusReporter.java:102-104 | The action's entry becomes (message, now) and every other entry is unchanged. The count grows by one iff the action was new. |
| ActionStatus.ActionExecutionStatusReporter.Remove | src/main/java/com/google/devtools/build/lib/actions/ActionExecutionStatusReporter.java:109-111 | Succeeds iff the action was in flight. On success only that entry goes and the count drops by one. On failure the table is unchanged. |
| ActionStatus.ActionExecutionStatusReporter.SetPreparing | src/main/java/com/google/devtools/build/lib/actions/ActionExecutionStatusReporter.java:116-118 | The action's entry becomes `Preparing` at `now`. |
| ActionStatus.ActionExecutionStatusReporter.SetRunningFromBuildData | src/main/java/com/google/devtools/build/lib/actions/ActionExecutionStatusReporter.java:127-132 | With a strategy, the entry becomes "Running (strategy)". Without one, nothing changes. |
| ActionStatus.ActionExecutionStatusReporter.UpdateLocality | src/main/java/com/google/devtools/build/lib/actions/ActionExecutionStatusReporter.java:142-144 | The entry becomes the given message at `now`. |
| ActionStatus.ActionExecutionStatusReporter.SetScheduling | src/main/java/com/google/devtools/build/lib/actions/ActionExecutionStatusReporter.java:149-151 | The entry becomes `Scheduling` at `now`. |
| ActionStatus.ActionExecutionStatusReporter.ShowCurrentlyExecutingActions | src/main/java/com/google/devtools/build/lib/actions/ActionExecutionStatusReporter.java:216-222 | Nothing is shown iff the table is empty. Otherwise the progress prefix is followed by the status message of the table. |
| ActionStatus.ActionExecutionStatusReporter.WarnAboutCurrentlyExecutingActions | src/main/java/com/google/devtools/build/lib/actions/ActionExecutionStatusReporter.java:228-251 | There are three outcomes: no active jobs iff the table is empty; "still waiting" iff every entry is preparing; otherwise a listing of the non-preparing entries, with no `Preparing` group. |
| Rules.FindAttribute | src/main/java/com/google/devtools/build/lib/packages/Rule.java:569-599 | A found record has the name and belongs to the rule class. Nothing is found iff no attribute has the name. |
| Rules.ExplicitValueIsTheRecords | src/main/java/com/google/devtools/build/lib/packages/Rule.java:569-599 | An attribute value is used iff an attribute of that name and type was explicitly specified, and then it is that record's value. |
| Rules.And | src/main/java/com/google/devtools/build/lib/packages/Rule.java:121-129 | The conjunction holds iff both predicates hold. |
| Rules.DependencyPredicatesAdmit | src/main/java/com/google/devtools/build/lib/packages/Rule.java:69-102 | `NO_HOST_DEPS` rejects exactly the label attributes with the host transition. `NO_NODEP_ATTRIBUTES` rejects exactly the two no-dependency label types. Neither rejects a non-dependency attribute. Their conjunction rejects the union. |
| Rules.LabelsMatchingMembers | src/main/java/com/google/devtools/build/lib/packages/Rule.java:413-427 | A label is collected iff some attribute the predicate admits holds it. |
| Rules.LabelsMatchingMonotone | src/main/java/com/google/devtools/build/lib/packages/Rule.java:413-427 | A weaker predicate collects more labels, and `ALL_DEPS` collects the most. |
| Rules.LabelsMatchingAnd | src/main/java/com/google/devtools/build/lib/packages/Rule.java:121-129 | The labels of a conjunction are among the labels of each conjunct. |
| Rules.ImplicitFilesAreParsed | src/main/java/com/google/devtools/build/lib/packages/Rule.java:480-494 | Every implicit output file comes from a generated name that parses to its label. |
| Rules.ImplicitErrorsAreUnparsable | src/main/java/com/google/devtools/build/lib/packages/Rule.java:486-489 | The implicit outputs report an error iff some generated name does not parse. |
| Rules.ExplicitEventsAreWarnings | src/main/java/com/google/devtools/build/lib/packages/Rule.java:507-517 | Explicit outputs produce only "rule is also a file" warnings, never errors. |
| Rules.FilesAppend | src/main/java/com/google/devtools/build/lib/packages/Rule.java:457-474 | The files of a concatenation of outputs are the concatenation of the parts' files. |
| Rules.FileMapAppend | src/main/java/com/google/devtools/build/lib/packages/Rule.java:457-474 | The map entries of a concatenation of outputs are the concatenation of the parts' entries. |
| Rules.EventsAppend | src/main/java/com/google/devtools/build/lib/packages/Rule.java:457-474 | The warnings of a concatenation of outputs are the concatenation of the parts' warnings. |
| Rules.Accepted | src/main/java/com/google/devtools/build/lib/packages/Rule.java:496-505 | Counts the explicit outputs before the first one in another package: all of them are in the rule's package, and the next one (if any) is not. |
| Rules.Rule.constructor | src/main/java/com/google/devtools/build/lib/packages/Rule.java:152 | A new rule has no visibility, no errors, no outputs yet, an empty output map and no events. |
| Rules.Rule.SetVisibility | src/main/java/com/google/devtools/build/lib/packages/Rule.java:163 | Stores the visibility. Visibility counts as specified iff it is non-null, and then `getVisibility` returns it. |
| Rules.Rule.GetVisibility | src/main/java/com/google/devtools/build/lib/packages/Rule.java:551-561 | The explicit visibility if set; else public for `$error_rule`; else the package default. |
| Rules.Rule.GetDistributions | src/main/java/com/google/devtools/build/lib/packages/Rule.java:569-576 | The explicitly specified `distribs` value if there is one, else the package default. |
| Rules.Rule.GetLicense | src/main/java/com/google/devtools/build/lib/packages/Rule.java:579-586 | The explicitly specified `licenses` value if there is one, else the package default. |
| Rules.Rule.GetToolOutputLicense | src/main/java/com/google/devtools/build/lib/packages/Rule.java:592-599 | The explicitly specified `output_licenses` value, else null. |
| Rules.Rule.GetAttributeLocation | src/main/java/com/google/devtools/build/lib/packages/Rule.java:389-395 | The rule's location for "name" or when no location is stored. Otherwise the attribute's stored location. |
| Rules.Rule.GetLabels | src/main/java/com/google/devtools/build/lib/packages/Rule.java:413-427 | Exactly the labels held by attributes the predicate admits. |
| Rules.Rule.GetRuleTags | src/main/java/com/google/devtools/build/lib/packages/Rule.java:640-653 | Exactly the tags of taggable attributes, each once. |
| Rules.AddAllUnion | src/main/java/com/google/devtools/build/lib/packages/Rule.java:646-650 | Adding tags to a set keeps it duplicate-free and adds exactly the new tags. |
| Rules.RuleTagsAreTheTags | src/main/java/com/google/devtools/build/lib/packages/Rule.java:640-653 | The rule tags are duplicate-free and are exactly the tags of taggable attributes. |
| Rules.Rule.ReportError | src/main/java/com/google/devtools/build/lib/packages/Rule.java:519-522 | Appends an error at the rule's location and sets `containsErrors`. |
| Rules.Rule.ReportWarning | src/main/java/com/google/devtools/build/lib/packages/Rule.java:524-527 | Appends a warning and leaves `containsErrors` alone. |
| Rules.Rule.AddOutputFile | src/main/java/com/google/devtools/build/lib/packages/Rule.java:507-517 | Appends the file, plus a warning when its name equals the rule's name. The file is added in either case. |
| Rules.Rule.AddLabelOutput | src/main/java/com/google/devtools/build/lib/packages/Rule.java:496-505 | Fails iff the label is in another package, and then nothing changes. Otherwise it appends the file and the (attribute, file) map entry. |
| Rules.Rule.PopulateImplicitOutputFiles | src/main/java/com/google/devtools/build/lib/packages/Rule.java:480-494 | A failing implicit-outputs function reports one error. Otherwise the parsed names are appended in generated order, with an error for each name that does not parse, and `containsErrors` becomes set iff one did not parse. The output map is untouched. |
| Rules.Rule.AddLabelOutputs | src/main/java/com/google/devtools/build/lib/packages/Rule.java:466-471 | One attribute's outputs are appended up to the first label in another package, which is the error. |
| Rules.Rule.PopulateExplicitOutputFiles | src/main/java/com/google/devtools/build/lib/packages/Rule.java:457-474 | The explicit outputs, in attribute order, are appended to the files and the map up to the first one in another package. The call fails iff there is such an output, and it names that output. |
| Rules.Rule.PopulateOutputFiles | src/main/java/com/google/devtools/build/lib/packages/Rule.java:444-454 | A second call fails and changes nothing. The first call sets the files to the implicit outputs followed by the accepted explicit outputs, and the map to the explicit ones only. The error flag ends set iff it was set already, the implicit-outputs function failed, or a generated name did not parse. |
| BuildTool.NeedsExecutionPhase | src/main/java/com/google/devtools/build/lib/buildtool/BuildTool.java:415-424 | False without the analysis phase. Otherwise true iff execution, a target dump, a makefile dump or an action-graph dump is requested. |
| BuildTool.BuildTargets | src/main/java/com/google/devtools/build/lib/buildtool/BuildTool.java:125-216 | The build succeeds iff every step that ran succeeded, starting with option validation, build-options creation and package-cache setup (lines 130-134), and neither a delayed analysis error nor a target-pattern error remains. The execution tool's initialisation and the execution phase count only when the execution phase is needed. The first failing step decides the exception: a failure of those first steps, an initialisation or loading failure propagates unchanged, a rejected multi-CPU setting is an invalid-configuration exception with its fixed message, and then a configuration/analysis failure and an execution failure propagate unchanged. |
| BuildTool.MultiCpuOnlyForBuildAndTest | src/main/java/com/google/devtools/build/lib/buildtool/BuildTool.java:153-162 | Multi-CPU with a command other than "build" or "test" ends in an invalid-configuration error, which maps to a command-line error. |
| BuildTool.LateFailures | src/main/java/com/google/devtools/build/lib/buildtool/BuildTool.java:190-215 | After otherwise successful phases, a delayed analysis error fails the build with its message. Without one, a target-pattern error fails it. Either is a non-catastrophic build failure. |
| BuildTool.ExitCodeFor | src/main/java/com/google/devtools/build/lib/buildtool/BuildTool.java:242-287 | The exit code is success iff the request returned, failed a test, or exited with success. It is an internal error iff an unexpected throwable escaped or an exit-causing exception carried that code. |
| BuildTool.ExceptionError | src/main/java/com/google/devtools/build/lib/buildtool/BuildTool.java:218-222 | At most one error, and none iff the exception has no message. |
| BuildTool.ReportedErrors | src/main/java/com/google/devtools/build/lib/buildtool/BuildTool.java:242-287 | At most one error. None for a normal return or an unexpected throwable. |
| BuildTool.BuildResult.SetCatastrophe | src/main/java/com/google/devtools/build/lib/buildtool/BuildTool.java:256-259 | Sets the catastrophe flag and nothing else. |
| BuildTool.StopRequest | src/main/java/com/google/devtools/build/lib/buildtool/BuildTool.java:436-444 | The precondition check fails iff a crash is paired with success, and then nothing is recorded. Otherwise the crash, the exit condition and the stop time are recorded. |
| BuildTool.ProcessRequest | src/main/java/com/google/devtools/build/lib/buildtool/BuildTool.java:242-287 | The result records the exit code of the outcome, the catastrophe flag iff the failure is catastrophic or exit-causing, and the stop time. The throwable is rethrown iff it was unexpected. The reported errors are those of the outcome. The stop-request check never fails. |
| BuildTool.ReportTargets | src/main/java/com/google/devtools/build/lib/buildtool/BuildTool.java:446-465 | Wording is plural iff the count is not 1. The counts add up to the targets to build. Without tests there is one count. With tests, the test count comes last, and the non-test count is present iff it is not zero. |

## Left out

- I/O: the error listener, the reporter and the event bus are modelled as lists of records or returned values. The exact text of messages (`String.format`, `StringBuilder`) is not modelled. A message is a record of its header, groups, lines and counts.
- Concurrency: the thread safety of the reporter's concurrent map and its defensive copies. The table is a sequential map.
- The clock is a parameter (`now`, `currentTime`).
- `Digraph.getTopologicalOrder` is not part of this model. An own topological sort is proved to give a permutation of the nodes that respects every edge. It reports a cycle, and then provably no such order exists. What the original does on a cycle is not modelled.
- `ImmutableMap.Builder.build` throws on a repeated key. The model reports a repeated created kind as a construction failure at the end of the first loop, since nothing observable happens in between.
- The configuration collection factory, `computeCacheKey`, `BuildOptions.clone`/`createHostOptions` and the fragment provider are parameters (`collect`, `cacheKey`, the host options, `provided`). BuildOptions are reduced to a CPU and an opaque rest.
- Fragment collection: the guard at ConfigurationFactory.java line 203 looks a fragment instance up among class keys, so the lookup never finds an entry and its `== null` test always holds. The model therefore stores every non-null provided fragment under its class, the later one winning.
- The sort by class name and the immutable copies in `getConfiguration` do not change the map's contents and are not modelled.
- Soft-value eviction of the host-configuration cache is driven by the garbage collector and is not modelled. The cache is a plain map.
- GetConfigurations: the events `createConfiguration` replays on the listener are returned by `CreateConfiguration` but not accumulated across CPUs.
- The loader's `valuesMissing` is a boolean parameter read after the loop. The model does not link it to the fragments the provider returned.
- ActionExecutionStatusReporter.Count: its meaning, the number of in-flight actions, is stated through the `SetStatus` and `Remove` contracts rather than by a contract of its own.
- `setRunningStrategy` (line 137-139) is `SetStatus` with a fixed message and is not modelled separately.
- StringLess orders statuses by Dafny `char` (Unicode scalar values). Java compares UTF-16 code units, which differ only for characters outside the Basic Multilingual Plane.
- Seconds: Java's `long` arithmetic is modelled as unbounded integers. Overflow of nanosecond differences is not modelled.
- Rules: attribute mappers, `ImplicitOutputsFunction`, label parsing and `Type.toTagSet` are inputs. Attributes are records of name, type, transition, value, explicit flag, location and tags. An `EvalException` is assumed to come only from the implicit-outputs function.
- Rules: the predicates `ALL_DEPS`, `NO_IMPLICIT_DEPS` and `DIRECT_COMPILE_TIME_INPUT` are modelled as functions without properties of their own beyond their use in `LabelsMatchingMonotone`.
- BuildTool: the phases of `buildTargets` (the loading, analysis and execution tools, Skyframe, the profiler, the stopwatch, event-bus posts and logging) are given as their outcomes. License checking (`License.checkCompatibility` and `ConfiguredAttributeMapper`) is not modelled.
- BuildTool: `LocalEnvironmentException` and `ExecutorInitException` are not part of this model. They are treated as exit-causing exceptions carrying their own exit code.
- BuildTool: a `BuildFailedException` built from a message alone is assumed to be neither already shown nor catastrophic.
- BuildTool: the one-line message printed for a `RuntimeException` before it is rethrown (BuildTool.java lines 197-198) is not modelled.
- BuildTool: `BuildResult` is reduced to the fields `processRequest` and `stopRequest` set.
