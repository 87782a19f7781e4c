# A verified model of the validator, the scheduler and the learner

This project models three parts of the repository in Dafny and proves what they are for.

**The JSON-schema validator.** `SchemaGraph` is the compiled, possibly cyclic graph of schemas.
`ValidationReport` says which errors a collecting handler gets and which adds go to the default-value
patch; `Semantics` is an independent boolean semantics, and the two agree on every instance.
`Validator` is the mutating walk itself, with its handler, its patch and its early exits.
`PatchSafety` shows that the patch destroys nothing and where it does, with `QuietSchemas` for the
schemas that add nothing. `SchemaVisits` says which schemas are run where, and so which defaults the
patch holds, `SchemaErrors` which errors are reported and where. `JsonUri` is the URI with its
in-place percent decoding, `SchemaTables` the tables with their back-patched references, `RootSchema` the
loop that loads files, `NumericBounds` the reading of the bound keywords, `AddressScanner` the table-driven scanner of
mail addresses. `JsonValues`, `Text` and `Wrappers` hold the values they share.

**The scheduler.** `TaskPool` is the priority pool. `JobQueue` is the four-slot queue of one thread as
a value, `ThreadQueue` the same queue as the object with its arrays, each method proved to compute the
operation on the value. `QueueList` and `Scheduler` are dispatch and rebalancing over the queue objects
of any number of threads. `SchedulerRuns` interleaves the steps of the scheduler thread and of all
worker threads and proves what holds in every run.

**The learner and the cleaning of its data.** `Hypotheses` is a pass of candidate elimination over
rows and its order-free form, `Candidates` the object that a thread works on, `Aggregation` the merge
of the chunk results, `AlgorithmScheduler` the split over threads and the barrier; its lemma
`SplitIsOnePass` puts all of them together. `FlatFile` is the removal of duplicate rows and the text
forms of files and rows.

## How the model reads the code

* The validation is a relation between what goes in and what a handler and a patch hold afterwards.
  A `Report` lists all errors in order; the first-error and the throwing handler see its head. The
  graph is what `schema::make` leaves behind; regular expressions, formats and content checks are
  unknown predicates of the graph.
* A JSON pointer is a sequence of tokens in the validator and its decoded text in the URI. The
  characters of a string are its bytes.
* `RootSchema` takes the compilation of a document as a sequence of table operations: file a schema of
  its own, file what a `$ref` is given by its own request, only ask for a reference. Which operations a
  document causes is a parameter; that the root schema of a loaded document is inserted under the
  location that parsing the location string gives is the one thing assumed of it, as `schema::make` is
  called with that string.
* Time slices and pauses are inert: `setCpuTimeSlice` assigns the field to
  itself, so every pending job weighs 999 and no job is ever paused.
* A scheduler or worker step is atomic. `getNextTask` and setting `JOB_RUNNING` are two steps, as the
  code leaves a window between them (scheduler/sched.cpp:342-360). The results about runs are for those
  in which no move takes a job inside its window, which includes all runs in which the two steps follow
  one another. They are exactly the runs whose states all satisfy the invariant;
  `SchedulerRuns.TaskIsLost` and `SchedulerRuns.JobCalledTwice` show what a move inside leads to. The job
  status is kept in the job, as the code writes to the process table after it was unregistered
  (scheduler/sched.cpp:353-354).
* In `SchedulerRuns` the scheduler may choose any queue with room and any two queues to level. That
  covers the choices of the code when workers finish jobs between its readings; the least-loaded choice
  itself is proved in `Scheduler`, where nothing else runs. The loop condition of the levelling is
  likewise weakened to what it guarantees, that the receiving queue has room.
* A task is identified by its process table, which each submission allocates anew.
* Letter case means the ASCII letters.

## Where the code and its documentation differ

The model follows the code.

* The pool serves the larger number first (scheduler/task_pool.cpp:40), while
  Documentation/scheduler/task_pool.md:10 calls `NON_PREEMTABLE`, which is 0, the highest priority.
  `TaskPool.DocumentedOrderIff` says when the two agree.
* A starved task is never promoted: the expression at scheduler/task_pool.cpp:44 has no effect.
* The queue that gives jobs away is the last one with several jobs, not the busiest
  (scheduler/sched.cpp:256-271).
* An empty `anyOf`, `allOf` or `oneOf` rejects every instance (lib/json-validator.cpp:449).
* `exclusiveMaximum` replaces `maximum` (lib/json-validator.cpp:902-907); `NumericBounds` says when
  this differs from the standard.
* `ROW_INDEX_UNDERFLOW` is not returned for a negative row: the comparison before it reads the index as
  unsigned and returns `DUPLICATE_CLEANUP_DONE` first (services/file_database_access.cpp:383-391).
* A chunk without a positive row reports -1 positives and no negatives
  (algorithm/candidate_elemination.cpp:106-107, 142); `Aggregation.TotalsAreOnePassIff` and
  `Aggregation.MergedIsOnePassIff` give the effect.
* The decoding of a fragment that starts with "%" can go over the text again, or never end
  (lib/json-uri.cpp:26-42); `JsonUri.LeavesForwardIff` and `JsonUri.RunsForEverIff` say when.

## Model

| member | source | states |
|---|---|---|
| `SchemaGraph.GroundedIffNoInPlaceCycle` | lib/json-validator.cpp:82-90 | A closed graph, however cyclic, has a rank that every in-place step ($ref, logic, if/then/else, dependencies) lowers exactly if no walk of in-place steps returns to its start; on these graphs the validation is defined for every instance, by instance size first and rank second |
| `SchemaGraph.RankFallsAlong` | lib/json-validator.cpp:515-556 | Along a walk of in-place steps the rank falls by at least the number of steps, so a walk that returns to its start refutes a rank |
| `SchemaGraph.RankSet` | lib/json-validator.cpp:433-451 | Without an in-place cycle any finite set of nodes can be ranked, by removing a node all of whose in-place successors are ranked |
| `SchemaGraph.NeverArrivesIffRefLoop` | lib/json-validator.cpp:82-90 | References are followed for ever from a schema, whatever the instance, exactly if it belongs to a set of references whose targets all lie in the set |
| `Semantics.Verdict` | lib/json-validator.cpp:515-556 | For every resolved graph without in-place cycles and every instance, the early-exit validation leaves no error exactly if a recursive boolean semantics with plain quantifiers accepts the instance |
| `Semantics.CombinationVerdict` | lib/json-validator.cpp:433-451 | From any subschema on, the loop with its early exits and its count agrees with "all", "some" or "exactly one" over the remaining subschemas; an empty list is an error |
| `Semantics.LogicVerdict` | lib/json-validator.cpp:398-405 | `not` reports an error exactly if its subschema reports none; the three combinations follow sections 6.7.1 to 6.7.3 of the JSON Schema validation draft 7 on non-empty lists |
| `Semantics.ConditionalVerdict` | lib/json-validator.cpp:544-555 | `if` only chooses between `then` and `else`; its own errors never count |
| `Semantics.ObjectVerdict` | lib/json-validator.cpp:1001-1060 | The object loops leave no error exactly if counts, required members, each member and each applicable dependency are accepted; looking for defaults adds no error on a resolved graph |
| `Semantics.MemberVerdict` | lib/json-validator.cpp:1014-1042 | A member passes exactly if its name, the schema of its property and those of all matching patterns accept and, where no property has its name and no pattern matches it, the schema in `additionalProperties`, if there is one, accepts |
| `Semantics.TakesAdditionalMeans` | lib/json-validator.cpp:1020-1032 | The additional schema is run for a member exactly if there is one, no property has the name of the member and no pattern matches it |
| `Semantics.ArrayVerdict` | lib/json-validator.cpp:1153-1206 | The array loops leave no error exactly if counts, uniqueness, every item and some contained item are accepted; an item answers to the one schema of `items`, or to the one at its place, or after these to `additionalItems` |
| `Semantics.ContainsVerdict` | lib/json-validator.cpp:1193-1205 | The search for a contained item stops at the first success and fails exactly if no remaining item is accepted |
| `Semantics.LengthIsCharacters` | lib/json-validator.cpp:712-719 | The length of a text that encodes characters by section 3 of RFC 3629 is the number of characters |
| `Semantics.DefaultIsFound` | lib/json-validator.cpp:92-104 | Looking up the default of any schema of a resolved graph ends and never reports an unresolved reference |
| `NumericBounds.Construct` | lib/json-validator.cpp:887-913 | Reading the four bound keywords in the order of the constructor leaves the exclusive bound, if present, in place of the inclusive one |
| `NumericBounds.UpperAsDrafted` | lib/json-validator.cpp:902-907 | The upper check agrees with sections 6.2.2 and 6.2.3 of the draft for all integers exactly if the exclusive maximum is at most the maximum plus one, or one of them is absent |
| `NumericBounds.LowerAsDrafted` | lib/json-validator.cpp:909-914 | The mirrored statement for the two lower bounds |
| `Validator.ErrorHandler.Error` | lib/json-validator.cpp:381-389 | A collecting handler appends, a first-error handler keeps only the first error, a throwing handler throws |
| `Validator.ValidateSchema` | lib/json-validator.cpp:82-90 | The mutating walk, threading a handler and a patch, does for each of the three kinds of handler exactly what the pure report says: the errors a collecting handler would get, cut to the first one or thrown, and the adds up to that point |
| `Validator.ValidateType` | lib/json-validator.cpp:515-556 | The same for the sequence of type, enum, const, logic and conditional checks, with a handler of its own for the condition |
| `Validator.ValidateCombination` | lib/json-validator.cpp:433-451 | The same for the loop over subschemas, each with its own first-error handler but writing to the shared patch, so adds of failed branches stay |
| `Validator.ValidateObject` | lib/json-validator.cpp:1001-1060 | The same for the object loops, including the adds of defaults for absent members |
| `Validator.ValidateArray` | lib/json-validator.cpp:1153-1206 | The same for the array loops |
| `Validator.ValidateTuple` | lib/json-validator.cpp:1176-1190 | The same for positional items, whose index is never advanced |
| `Validator.ValidateInstance` | lib/json-validator.cpp:339-364 | The entry point from a root schema and an initial URI, including its three failing entries: no root schema, no file for the location, no schema for the fragment |
| `Validator.ValidateOrThrow` | lib/json-validator.cpp:1439-1451 | The throwing entry point throws exactly if a collecting handler would hold an error, and then the first of them; on a resolved graph it returns exactly if the semantics accepts |
| `PatchSafety.ValidateFills` | lib/json-validator.cpp:1044-1053 | If among the reachable schemas every one under contains, a dependency or a tuple position but the first reaches no default, every add that a validation makes at an existing path, in any branch, has as parent an object of the instance that lacks the member |
| `PatchSafety.FillingKeepsValues` | lib/json-patch.cpp:86-90 | Such an add applies by section 4.1 of RFC 6902 to every document that extends the instance, and the result still extends it |
| `PatchSafety.PatchKeepsInstance` | lib/json-validator.cpp:1170-1174 | Under the same condition on the schemas reachable from the validated one, the whole patch applies to the instance and the result extends it |
| `PatchSafety.PathsSurvive` | lib/json-patch.cpp:86-90 | In an extension every original path leads to an extension of the original value: scalars and array lengths are unchanged, members are kept |
| `PatchSafety.DefaultsShow` | lib/json-patch.cpp:86-90 | In the patched instance each added member has the value of the last add for it |
| `PatchSafety.TupleOverwrites` | lib/json-validator.cpp:1176-1190 | A concrete schema with positional items and an instance for which the patch replaces an existing value |
| `PatchSafety.ContainsMisses` | lib/json-validator.cpp:1193-1205 | A concrete schema with contains and an instance to which the patch cannot be applied |
| `PatchSafety.DependencyOverwrites` | lib/json-validator.cpp:1055-1059 | A concrete schema with a dependency and an instance for which the patch replaces a value |
| `QuietSchemas.ValidateAddsNothing` | lib/json-validator.cpp:1044-1053 | A schema from which no default is reachable adds nothing to the patch, on any instance and under any pointer |
| `SchemaVisits.DefaultIsFirst` | lib/json-validator.cpp:92-104 | The value that is added for a property is, on the way from its schema from target to target, the first default that is not null; nothing is added if there is none |
| `SchemaVisits.SiteAdds` | lib/json-validator.cpp:1001-1060 | On a resolved graph a schema adds exactly the defaults of its properties that the object lacks and what is added by the schemas that it runs: failed branches, conditions and negations too, as far as the early exits let the loops come |
| `SchemaVisits.PatchIsDefaults` | lib/json-validator.cpp:1044-1053 | An add is in the patch exactly if it is the default of a property that is absent at a place that the validation comes to, with the path of the member |
| `SchemaErrors.SiteErrors` | lib/json-validator.cpp:515-556 | On a resolved graph a schema reports exactly the keywords that the instance violates, each under its own message, pointer and instance, all errors of the schemas that bind the instance or a part of it, and the first error of a failing `allOf` schema inside another |
| `SchemaErrors.ErrorIsTraced` | lib/json-validator.cpp:381-389 | Every error, however deep, is that of a violated keyword at a place that the validation comes to, with the pointer and the instance of that place; each `allOf` on the way is named by the message |
| `SchemaErrors.ErrorIsLocated` | lib/json-validator.cpp:1014-1042 | Without dependencies and positional items after the first, the pointer of every error leads in the validated document to the instance that it names, or to the object of which it names a member name |
| `SchemaErrors.DependencyMisplaced` | lib/json-validator.cpp:1055-1059 | The error about a missing dependency names the object, and its pointer leads to a member of it |
| `SchemaErrors.TupleMisplaced` | lib/json-validator.cpp:1176-1190 | The error about a rejected item of a tuple after the first has the pointer of the first item |
| `SchemaErrors.FirstOfType` | lib/json-validator.cpp:515-556 | The first error, which a throwing handler throws, is that of the validator of the kind of the instance if it rejects, and else of the enumeration, the constant, the first rejecting entry of the list of `not` and combinations, the conditional |
| `SchemaErrors.FirstOfObject` | lib/json-validator.cpp:1001-1060 | For an object it is about too many members, then too few, then the first required member that is missing, then the first member that is rejected, then a dependency |
| `SchemaErrors.FirstOfMember` | lib/json-validator.cpp:1014-1042 | For a member it is about its name, then its property, then the patterns, then the additional schema |
| `SchemaErrors.FirstOfArray` | lib/json-validator.cpp:1153-1206 | For an array it is about too many items, then too few, then a repeated item, then the items in order, then the contained item |
| `JsonUri.DecodeInPlace` | lib/json-uri.cpp:25-42 | On every fragment on which it ends, the right-to-left in-place loop leaves the outcome of its passes |
| `JsonUri.LeavesIff` | lib/json-uri.cpp:25-42 | The rounds of the loop end with a text exactly if the passes do: a pass that decodes a "%" in first place starts over from the end, and what is left is the text after the last pass |
| `JsonUri.RunsForEverIff` | lib/json-uri.cpp:26-42 | Every number of rounds can be made, so the loop never ends, exactly if some pass leaves two characters with a "%" in first place |
| `JsonUri.LeavesForwardIff` | lib/json-uri.cpp:25-42 | On well-formed triples the loop ends with one left-to-right decoding by section 2.1 of RFC 3986 exactly if the fragment does not start with "%", or every "%" of the decoding is within its last two characters and not in first place |
| `JsonUri.StartingOver` | lib/json-uri.cpp:25-42 | "%25a" is never left, and "%2541" is decoded twice, to "A" |
| `JsonUri.SweepIsForward` | lib/json-uri.cpp:27-42 | On well-formed triples one pass is the left-to-right decoding: within a pass a produced "%" is not decoded again |
| `JsonUri.RoundDecodes` | lib/json-uri.cpp:36-41 | Replacing the last triple before the decoded part keeps the text equal to the original with everything from there on decoded |
| `JsonUri.TripleByte` | lib/json-uri.cpp:37-38 | The byte of two hexadecimal digits is sixteen times the first plus the second |
| `JsonUri.OtherBytes` | lib/json-uri.cpp:37-38 | Two characters that are not both hexadecimal digits become the one digit that is read, after white space or a sign too, or the byte 0 |
| `JsonUri.JsonUri.Update` | lib/json-uri.cpp:16-100 | Whenever the decoding of the fragment ends, resolving a URI replaces the location members as its location part says and sets exactly one of pointer and identifier to the outcome of the decoding; a path below a URN throws and changes nothing, a pointer with a wrong escape throws after the location has changed; and it says when the outcome is the decoding of RFC 3986 |
| `JsonUri.PartsOf` | lib/json-uri.cpp:18-22 | The first "#" separates the location from the fragment |
| `JsonUri.WellEscapedMeans` | lib/json-uri.cpp:96-97 | A pointer token has no wrong escape exactly if it is the text of some token by section 3 of RFC 6901 |
| `JsonUri.JsonUri.Relocate` | lib/json-uri.cpp:45-91 | The location part: URNs as they are, authority and path after "://", rooted and relative paths |
| `JsonUri.RelativeToElement` | lib/json-uri.cpp:82-88 | A relative path takes the place of the last element of the path that it is read from, the part up to the last slash and all other members staying |
| `JsonUri.RelativeToDirectory` | lib/json-uri.cpp:84-87 | To a path without a slash it is appended after one |
| `JsonUri.RootedPath` | lib/json-uri.cpp:82-83 | A path with a leading slash takes the place of the whole path |
| `JsonUri.UrlTaken` | lib/json-uri.cpp:60-83 | A URL with authority and path sets scheme, authority and path, whatever they were, and clears the URN |
| `JsonUri.UrlWithoutPath` | lib/json-uri.cpp:62-90 | Without a slash after the scheme the rest is appended to the old path, and the old authority stays |
| `JsonUri.UrnTaken` | lib/json-uri.cpp:47-54 | A URN clears scheme, authority and path |
| `JsonUri.PathOnUrnThrows` | lib/json-uri.cpp:78-80 | A location that is only a path throws exactly on top of a URN |
| `JsonUri.ReparseIffPrintable` | lib/json-uri.cpp:102-116 | Parsing a text as a location from scratch and printing it gives the text back exactly if it is empty, a URN, has a non-empty scheme, or is a rooted path without scheme |
| `JsonUri.UpdatesStayRegular` | lib/json-uri.cpp:47-91 | Every update whose location does not start with "://" keeps the URI in a form that prints to such a text |
| `JsonUri.LocationRoundTrip` | lib/json-uri.cpp:102-116 | After any chain of derivations without empty schemes, printing the location and parsing it from scratch gives the same location |
| `JsonUri.EmptySchemeChanges` | lib/json-uri.cpp:62-75 | A location with an empty scheme is printed as another one |
| `SchemaTables.StepKeepsConsistent` | lib/json-validator.cpp:182-199 | Filing a schema, filing what a $ref is given and asking for a reference each keep compiled and unresolved keys of a file disjoint and each reference either filed as unresolved or pointing at the filed schema |
| `SchemaTables.ReplayConsistent` | lib/json-validator.cpp:243-277 | The same after every run of operations |
| `SchemaTables.LookupIffDefined` | lib/json-validator.cpp:182-192 | After any successful run a lookup finds something exactly if an operation has filed something at the address |
| `SchemaTables.DefinitionStays` | lib/json-validator.cpp:182-192 | Each filing decides what is found at its address in the end |
| `SchemaTables.SucceedsIffDistinct` | lib/json-validator.cpp:184-189 | A run of operations throws no exception exactly if no address is filed twice |
| `SchemaTables.HandlesKeepMeaning` | lib/json-validator.cpp:243-277 | What a request handed out at any step, also that of a $ref, is at the end of the run the schema of the address or its one reference |
| `SchemaTables.BackPatching` | lib/json-validator.cpp:312-336 | When nothing is left unresolved, every handle given out at any step is what a lookup after all operations gives, or a reference to it |
| `SchemaTables.EveryReferenceHasTarget` | lib/json-validator.cpp:312-336 | When nothing is left unresolved, every reference that was ever created has a target |
| `SchemaTables.DenotesIffMeans` | lib/json-validator.cpp:1337-1342 | After any successful run, following references from an address leads to a node exactly if the documents define it so, directly or through $refs, whatever was filed on the way |
| `SchemaTables.HandleDenotes` | lib/json-validator.cpp:243-277 | A handle given out at any step denotes in the end exactly what the documents define for its address |
| `SchemaTables.OneNode` | lib/json-validator.cpp:82-90 | A handle denotes at most one node |
| `SchemaTables.FilingDependsOnOrder` | lib/json-validator.cpp:1366-1367 | For a $ref and its target the order decides whether a reference or the node itself is filed |
| `SchemaTables.OrderIndependent` | lib/json-validator.cpp:1366-1368 | Two successful runs of the same definitions, in any order and with any requests between them, give every address the same denotation |
| `RootSchema.RunsGrow` | lib/json-validator.cpp:159-166 | Later operations never remove a file or a schema and create only files that they name |
| `RootSchema.LoadingOrder` | lib/json-validator.cpp:293-306 | Loading the same locations in another order gives every address the same denotation |
| `RootSchema.LoadKeepsProgress` | lib/json-validator.cpp:293-306 | Loading a location files its root schema under the location that its string parses to; a location can come up again only if it does not print and parse to itself, and then the second load throws |
| `RootSchema.ComesUpAgainIff` | lib/json-validator.cpp:293-306 | A location that was loaded is loaded again exactly if no operation so far, its own document included, has defined anything under it; the second load throws |
| `RootSchema.LoadedTwice` | lib/json-validator.cpp:293-306 | A root document and a loader for which the location "h/p" is loaded twice |
| `RootSchema.LoadedGraphResolved` | lib/json-validator.cpp:312-336 | A graph whose reference nodes without target are references of the tables without one is resolved when nothing is left unresolved, as the semantics asks |
| `RootSchema.Root.Insert` | lib/json-validator.cpp:182-199 | Throws exactly on a second insertion at an address and otherwise files the schema and patches a waiting reference |
| `RootSchema.Root.GetOrCreateRef` | lib/json-validator.cpp:243-277 | Returns the schema at the address, or the one reference filed for it |
| `RootSchema.Root.Perform` | lib/json-validator.cpp:1337-1367 | A $ref files what its own request was given; every operation fails exactly if the run it extends does |
| `RootSchema.Root.SetRootSchema` | lib/json-validator.cpp:279-337 | With finitely many reachable locations the loading loop ends; the loader is called at most once for each location, except that the last call may repeat a location under which nothing has been defined, which throws; the loop ends normally with every known file non-empty, nothing unresolved and a target for every reference, or reports which exception occurred |
| `RootSchema.Root.LoadRound` | lib/json-validator.cpp:285-310 | One pass over the locations known at its start; a pass without loading leaves every known file non-empty |
| `TaskPool.TaskPool.PushTask` | scheduler/task_pool.cpp:30-59 | A push adds the task to the arrivals; the list stays the service order of the arrivals whatever the starvation counters hold |
| `TaskPool.TaskPool.PopTask` | scheduler/task_pool.cpp:61-70 | A pop fails exactly on an empty pool and otherwise returns the earliest arrival of the largest numeric priority; the others keep their order |
| `TaskPool.TaskPool.Starve` | scheduler/task_pool.cpp:41-49 | Counting and resetting the starvation counters changes no task |
| `TaskPool.HeadIsFirstOfLargest` | scheduler/task_pool.cpp:37-54 | The head of the service order is the first arrival of the largest priority, and removing that arrival leaves the service order of the rest |
| `TaskPool.ServiceOrderSorted` | scheduler/task_pool.cpp:37-54 | The service order is non-increasing in priority and holds exactly the arrivals |
| `TaskPool.DocumentedOrderIff` | scheduler/task_pool.cpp:40 | Some pending task is first both by the larger-number order of the code and by the smaller-number order of the documentation exactly if all pending priorities are equal |
| `JobQueue.AddMeans` | scheduler/sched.cpp:63-80 | Adding fails exactly if all four slots are pending; otherwise load and jobs grow by the one job, pending jobs keep their slots and the counter stays the number of pending slots |
| `JobQueue.PopMeans` | scheduler/sched.cpp:96-112 | A pop fails exactly if every pending job has started; otherwise it removes one job that has not, all others keep their slots |
| `JobQueue.CompleteMeans` | scheduler/sched.cpp:114-120 | Completing frees the slot at the head and removes exactly its job |
| `JobQueue.FlushMeans` | scheduler/sched.cpp:122-133 | Flushing changes neither the load nor the pending jobs |
| `JobQueue.AdvanceFinds` | scheduler/sched.cpp:82-94 | A full turn finds a job exactly if one is pending; otherwise the head ends where it was |
| `JobQueue.AdvanceIsNext` | scheduler/sched.cpp:82-94 | The head comes to the nearest pending slot in cyclic order, the one that it was at being the last to be looked at |
| `JobQueue.LoadLimits` | scheduler/sched.cpp:135-138 | The load is at most four, four exactly if no slot is free and zero exactly if all are |
| `ThreadQueue.QueueJob.SetJobStatus` | scheduler/sched.hpp:39 | Status bits are only added |
| `ThreadQueue.QueueJob.SetCpuTimeSlice` | scheduler/sched.hpp:33 | The slice keeps its value: the field is assigned to itself |
| `ThreadQueue.ThreadQueue.AddNewTask` | scheduler/sched.cpp:63-80 | On the arrays: the first free slot takes the job, with -1 for no job or no slot |
| `ThreadQueue.ThreadQueue.GetNextTask` | scheduler/sched.cpp:82-94 | On the arrays: the head moves cyclically to the next pending slot |
| `ThreadQueue.ThreadQueue.PopJob` | scheduler/sched.cpp:96-112 | On the arrays: the first pending job without a started bit leaves the queue |
| `ThreadQueue.ThreadQueue.MarkTaskAsComplete` | scheduler/sched.cpp:114-120 | On the arrays: the head slot is freed and its job gets the DONE bit |
| `ThreadQueue.ThreadQueue.FlushFinishedJobs` | scheduler/sched.cpp:122-133 | On the arrays: freed slots lose their stale job |
| `ThreadQueue.ThreadQueue.GetTotalWaitTime` | scheduler/sched.cpp:140-153 | All slices being 0, the wait time is 999 times the load |
| `Scheduler.Scheduler.InitSched` | scheduler/sched.cpp:381-398 | Any number of new, empty queues is a valid start |
| `Scheduler.Scheduler.TotalEmptySlots` | scheduler/sched.cpp:197-207 | The sum of the free slots of all queues |
| `Scheduler.Scheduler.QuickestQueue` | scheduler/sched.cpp:209-236 | The first queue of least load among those with room; -1 exactly if all are full |
| `Scheduler.Scheduler.EmptyThreadQueue` | scheduler/sched.cpp:246-254 | The first idle queue; -1 exactly if there is none |
| `Scheduler.Scheduler.BusiestThreadQueue` | scheduler/sched.cpp:256-271 | The last, not the busiest, queue with several jobs, as the largest wait time is never recorded |
| `QueueList.LastIsNotBusiest` | scheduler/sched.cpp:256-271 | With loads 4, 2 and 0 the second queue is chosen |
| `Scheduler.Scheduler.Rebalance` | scheduler/sched.cpp:273-296 | Ends for any number of queues; pending jobs are the same, started jobs stay in their slots, and no idle queue is left beside one with several jobs unless the last such queue has started all its jobs |
| `Scheduler.Scheduler.Equalise` | scheduler/sched.cpp:289-294 | Only the idle and the busy queue change: they share the jobs evenly, an odd one going to the idle queue, unless all that the busy queue still has have started; so there is one idle queue less, or no change exactly if the busy queue had started all its jobs |
| `Scheduler.Scheduler.Dispatch` | scheduler/sched.cpp:307-322 | A round moves exactly the smaller of pool size and free slots, in pool order; known jobs stay in their slots, and queue lengths within one of each other stay so |
| `Scheduler.Scheduler.DispatchTask` | scheduler/sched.cpp:309-321 | The next task of the pool goes to a least loaded queue, which never refuses it |
| `Scheduler.Scheduler.InitJob` | scheduler/sched.cpp:238-244 | A new job carries the task; its computed slice is lost |
| `Scheduler.Scheduler.Round` | scheduler/sched.cpp:305-325 | Dispatch and rebalancing together: no job is lost or duplicated and, with at most one started job per queue, no queue is idle beside one with several |
| `QueueList.NotStuck` | scheduler/sched.cpp:273-296 | With at most one started job per queue the exception of the rebalancing cannot occur |
| `QueueList.LevelStep` | scheduler/sched.cpp:289-294 | Moving one job keeps the pending jobs, lowers the load of the busy queue, never leaves it idle, and always finds room in the idle queue |
| `QueueList.RoundHelps` | scheduler/sched.cpp:277-295 | A round of the rebalancing keeps the number of idle queues within the rounds that are left |
| `QueueList.DispatchOne` | scheduler/sched.cpp:312-321 | A job added to a first least loaded queue keeps the dispatch invariant, evenness included |
| `SchedulerRuns.StepKeeps` | scheduler/sched.cpp:298-379 | Each of fourteen steps of scheduler and workers, in any interleaving, keeps the whole invariant exactly if it does not move a job that a worker has fetched and not yet marked as running |
| `SchedulerRuns.RunKeeps` | scheduler/sched.cpp:298-379 | The states of a legal run all satisfy the invariant exactly if no step of the run is such a move |
| `SchedulerRuns.EveryTaskInOnePlace` | scheduler/sched.cpp:63-120 | In every such run over any number of threads each submitted task is in exactly one of pool, hand, pending slots and completed, every counter is its number of pending slots, and every add succeeds |
| `SchedulerRuns.EveryJobLawful` | scheduler/sched.cpp:340-376 | In every such run, across moves between queues and for arbitrary start results, a job has at most one callback, only after a start that returned DONE and with no start after it; the callback is the failing one exactly if a start returned FAILED; and it has had it exactly if its slot is freed or about to be |
| `SchedulerRuns.CallbackIsLast` | scheduler/sched.cpp:346-357 | Once a job has had its callback, no continuation of the run adds a start or a callback |
| `SchedulerRuns.JobIsServed` | scheduler/sched.cpp:340-376 | A job that is alone in its queue is served by its worker alone, for any sequence of start results that stays pending until it is done: one start for each, then the failing callback exactly if one of them returned FAILED, and the slot is free |
| `SchedulerRuns.TakesFirstOfLargest` | scheduler/sched.cpp:317-320 | The task that the scheduler takes is the first submitted one of the largest priority |
| `SchedulerRuns.PoolInOrder` | scheduler/sched.cpp:317-320 | In every run the pool is the order of service of the tasks that were submitted and not taken |
| `SchedulerRuns.WindowRunsTwice` | scheduler/sched.cpp:342-360 | From any state of the invariant in which the next job to be moved to an idle queue has been fetched and not yet marked, the move lets both workers start it |
| `SchedulerRuns.WindowIsReached` | scheduler/sched.cpp:342-360 | Such a state is reached by a run that keeps the invariant |
| `SchedulerRuns.TaskIsLost` | scheduler/sched.cpp:342-360 | A run with such a move after which one task is in two places and another in none |
| `SchedulerRuns.JobCalledTwice` | scheduler/sched.cpp:342-360 | A run with such a move in which a job is called back twice |
| `SchedulerRuns.StartLawful` | scheduler/sched.cpp:364-373 | One call of the start process, with any returned bits, keeps the life of a job lawful, whether it is started again, marked as failed or left |
| `SchedulerRuns.PopKeeps` | scheduler/sched.cpp:96-112 | Taking a job for a move keeps the invariant unless a worker has just fetched that job |
| `SchedulerRuns.NotCalled` | scheduler/sched.cpp:340-358 | A job that a queue holds has had no callback, unless its worker is about to free the slot, and no other worker holds it |
| `Hypotheses.PassClosed` | algorithm/candidate_elemination.cpp:44-75 | After a seed without a literal "*", a pass over any rows equals an order-free form: S keeps the value on which all positives agree, G is the value, "?" or "*" by what positives and negatives hold, and the counters count the rows |
| `Hypotheses.IEqualsMeans` | algorithm/candidate_elemination.cpp:50-57 | Two values are equal exactly if they have the same length and, place by place, the same character or the small and the capital form of one letter |
| `Hypotheses.LeastGeneral` | algorithm/candidate_elemination.cpp:48-59 | Without literal "*" in the seed or "?" in a positive row, S covers every positive row, and a hypothesis covers them all exactly if it is at least as general as S |
| `Hypotheses.OrderIndependent` | algorithm/candidate_elemination.cpp:84-122 | Permuted rows with any choice of the seed give the same S, G and counters, up to letter case |
| `Hypotheses.SeedTwice` | algorithm/candidate_elemination.cpp:140-143 | Comparing the seed a second time changes neither vector, and taking one off gives the number of positive rows |
| `Hypotheses.CoversIffNoStar` | algorithm/candidate_elemination.cpp:54-56 | S covers the positive rows whatever rows follow the seed exactly if the seed holds no literal "*" |
| `Candidates.CandidateElimination.Compare` | algorithm/candidate_elemination.cpp:44-75 | The column loops compute the comparison of one row |
| `Candidates.CandidateElimination.GetNextRow` | algorithm/candidate_elemination.cpp:77-82 | The next row number of the range, -1 past its end |
| `Candidates.CandidateElimination.GetFirstPositive` | algorithm/candidate_elemination.cpp:84-97 | The first row of the right size that is positive, or none; the position is not advanced |
| `Candidates.CandidateElimination.StartProcess` | algorithm/candidate_elemination.cpp:99-122 | One call: seed, next row, or done; done leaves exactly the vectors of the chunk |
| `Candidates.CandidateElimination.Run` | algorithm/candidate_elemination.cpp:99-147 | The calls end, and the result is the pass from the first positive row over all rows of the right size, with one positive taken off; without a positive row it is "*" vectors and -1 |
| `Candidates.ChunkRowsAre` | algorithm/candidate_elemination.cpp:77-82 | The rows of a chunk are those from its first to its last row number, when all have the right number of values |
| `Candidates.ChunkRowsHold` | algorithm/candidate_elemination.cpp:77-82 | Exactly the rows between the two numbers that have the right number of values are read |
| `Aggregation.CeFinalize.AggregateResults` | algorithm/ce_finalize.cpp:16-46 | The nested loops compute the merge of the results in their order |
| `Aggregation.MergedClosed` | algorithm/ce_finalize.cpp:24-36 | From the first report that is not empty on, a merged cell is the common cell of all reports, or "?" |
| `Aggregation.MergedClosedG` | algorithm/ce_finalize.cpp:24-36 | The same for G: the common cell of all reports from the first one on whose S is not empty, or "?" |
| `Aggregation.MergedIsOnePassIff` | algorithm/ce_finalize.cpp:16-46 | Without literal marks and for every order of arrival, the merged S is the S of one pass over all rows exactly if no chunk has a positive row, or in every column where all positive rows agree up to case the chunks spell the value alike and none of them reports empty after one that does not |
| `Aggregation.BarrenChunkLosesS` | algorithm/ce_finalize.cpp:23-35 | Rows for which a chunk without a positive row loses the value of another |
| `Aggregation.LetterCaseLosesS` | algorithm/ce_finalize.cpp:30-33 | Rows for which values that differ in case only are lost in the merge |
| `Aggregation.TotalsAreOnePassIff` | algorithm/ce_finalize.cpp:20-22 | The merged positives are those of one pass exactly if every chunk has a positive row or there is one chunk only; the negatives exactly if no chunk has one, or those without hold no rows |
| `Aggregation.MergedTotals` | algorithm/ce_finalize.cpp:20-22 | In every order of arrival a chunk without a positive row costs one positive and its negatives |
| `AlgorithmScheduler.AlgorithmQueue.SchedAlgo` | algorithm/algorithm_scheduler.cpp:18-54 | Schedules one range per thread, in order, and starts tracking the table |
| `AlgorithmScheduler.EqualShares` | algorithm/algorithm_scheduler.cpp:30-47 | Every range but the last has the whole quotient of rows and threads, the last one the remainder as well; the first starts at row 1, the last ends at the last row, and each begins after the one before |
| `AlgorithmScheduler.EveryRowOnce` | algorithm/algorithm_scheduler.cpp:30-47 | For all row and thread counts every row from 1 to the last is in exactly one range |
| `AlgorithmScheduler.PartsConcat` | algorithm/algorithm_scheduler.cpp:37-47 | The rows of the ranges, one after the other, are the rows of the table in order |
| `AlgorithmScheduler.AlgorithmQueue.UpdateAlgoResult` | algorithm/algorithm_scheduler.cpp:61-93 | Adds the result, and with the last one schedules the final stage and forgets the table; fails exactly for an empty or unknown table |
| `AlgorithmScheduler.ScheduledOnce` | algorithm/algorithm_scheduler.cpp:68-87 | However updates of several tables interleave, the final stage of a table is scheduled once, with its first results as many as threads |
| `AlgorithmScheduler.SplitIsOnePass` | algorithm/algorithm_scheduler.cpp:37-87 | Split, chunks, barrier and merge end to end, for every number of threads and order of arrival: one final stage, whose S, positives and negatives are those of a single pass exactly under the conditions of the merge |
| `AddressScanner.SearchSingle` | lib/smtp-address-validator.cpp:729-752 | The binary search over sorted single keys finds what a linear scan finds |
| `AddressScanner.SearchRange` | lib/smtp-address-validator.cpp:753-774 | The binary search over sorted disjoint ranges, with its rounding to pairs, finds what a linear scan finds |
| `AddressScanner.FindTransition` | lib/smtp-address-validator.cpp:726-777 | Single keys first, ranges second, the default transition last |
| `AddressScanner.TransitionHasCell` | lib/smtp-address-validator.cpp:726-777 | In tables written in the order of the generator the chosen transition is that of the key of the character, or else of its range, or else the default one |
| `AddressScanner.LayoutRuns` | lib/smtp-address-validator.cpp:717-823 | The interpreter on tables in which an automaton is laid out, keys, ranges, default, actions and end of input, runs that automaton and leaves its result |
| `AddressScanner.EveryTableIsLayout` | lib/smtp-address-validator.cpp:66-700 | All coherent tables are the layout of some automaton |
| `AddressScanner.DoActions` | lib/smtp-address-validator.cpp:780-811 | The action list of a transition is performed in order |
| `AddressScanner.IsAddress` | lib/smtp-address-validator.cpp:717-823 | For every coherent set of tables and every input the interpreter ends with the result of the linear-scan automaton; if the actions record finality, true exactly if the run ends in a final state |
| `AddressScanner.InterpretedRecognises` | lib/smtp-address-validator.cpp:717-823 | From any state, the result of the actions along a run and at the end of the input is the finality of the state reached |
| `FlatFile.FileDataBaseAccess.DeleteDuplicateRecords` | services/file_database_access.cpp:372-406 | Exact codes in their order, and in place: the later rows equal to the row go, all others stay in order, and the first occurrences of the file are unchanged |
| `FlatFile.DataCleaner.Clean` | data_processor/data_cleaner.cpp:33-38 | One call removes the repetitions of the next row; it is done exactly if the index has reached the end |
| `FlatFile.DataCleaner.Run` | data_processor/data_cleaner.cpp:33-46 | The repeated calls end and leave exactly the first occurrences of the original rows |
| `FlatFile.FirstOccurrencesMeans` | services/file_database_access.cpp:372-406 | The first occurrences are a subsequence without duplicates, each the first of its kind in order, with the header first |
| `FlatFile.RepetitionGoes` | services/file_database_access.cpp:398-402 | Removing any row that has occurred before changes no first occurrence |
| `FlatFile.FileDataBaseAccess.GetBlob` | services/file_database_access.cpp:107-126 | All rows, each ended by a line feed; nothing for a deleted file |
| `FlatFile.FileDataBaseAccess.WriteBlob` | services/file_database_access.cpp:89-103 | The rows become the lines of the text; the error cases change nothing |
| `FlatFile.SplitStringByNewline` | services/file_database_access.cpp:73-82 | The loop computes the lines of a text |
| `FlatFile.AdvTokenizer` | services/file_database_access.cpp:170-181 | The loop computes the fields of a row, an empty last one included |
| `FlatFile.JoinRow` | services/file_database_access.cpp:316-318 | The row built from values |
| `FlatFile.LinesOfBlob` | services/file_database_access.cpp:107-126 | Rows without line feeds survive being printed as a blob and split again |
| `FlatFile.BlobOfLines` | services/file_database_access.cpp:73-82 | A text survives being split and printed exactly if it is empty or ends with a line feed |
| `FlatFile.FieldsOfJoined` | services/file_database_access.cpp:316-318 | Values without separators survive being joined and split again |
| `FlatFile.JoinedOfFields` | services/file_database_access.cpp:170-181 | Every row is the join of its fields |

## Left out

- DecodeInPlace: requires that the loop ends, as a method cannot return otherwise; `RunsForEverIff` says exactly when it does not.
- Update: requires the same of the fragment of the URI.
- GetOrCreateRef: does not turn a stored unknown keyword into a schema, as unknown keywords are left out.
- PatchKeepsInstance: is stated for schemas from which `contains`, dependency schemas and the positions of a tuple after the first reach no default, as their pointers do not locate the instance; each of the three has a counterexample otherwise. The condition is on the schemas, so it is not necessary for every single instance. The verdicts cover all graphs.
- PatchIsDefaults: says which adds are in the patch of a resolved graph, not in which order; of several for one member the last shows.
- ErrorIsLocated: is stated for graphs without dependencies and positional items after the first, whose errors have other pointers, as `DependencyMisplaced` and `TupleMisplaced` show; `ErrorIsTraced` covers all graphs.
- JobIsServed: is about a job that is alone in its queue; with several the worker turns to the others in between.
- MergedIsOnePassIff: covers S only; the merged G differs from the G of a single pass.
- EveryTaskInOnePlace: holds for runs without a move inside the window between `getNextTask` and setting `JOB_RUNNING`, and `TaskIsLost` shows a run with one; steps that are torn between two writes are not modelled.
- EveryJobLawful: holds for the same runs, and `JobCalledTwice` shows another.
- NeverArrivesIffRefLoop: is about cycles of references; which instances other in-place cycles keep from ending depends on the branches taken and is not characterised.
- GetTotalWaitTime: requires slices of 0, which is what every job has.
- InitJob: the slice is computed from the priority alone, without the division by the process type, as the value is dropped.
- IsAddress: is proved for all coherent tables, of which `OneLetterRecords` is an instance; the concrete numbers of the generated tables are not part of this model.
- GetFirstPositive: a row number past the end of the file, where the code reads outside its vector, counts as an empty row.
- Unknown keywords that become schemas when they are referenced (lib/json-validator.cpp:201-241, 256-266).
- `schema::make` itself, with the keys it erases from the document, and `make_for_default_`: its results are the graph and the table operations.
- Floating point numbers, `multipleOf`, binary values, and the dates and times of `lib/string-format-check.cpp`.
- `json_uri::escape`, `append` and the comparison of URIs, and the parsing of pointer text into tokens.
- `writeRowValue`, which replaces by regular expression, and opening, committing and dropping files.
- Semaphores, condition variables, timers, sleeps and logging, and the sockets, SQLite and sender parts of the repository.
- The forwarding stack, the data tracker and the data validator, whose properties are either simple counts or not kept by the code.
- Overflow of `int` counters and row numbers: numbers are unbounded except where wrap-around decides a branch.
- Scheduling of the table's clean-up after the final stage, and the text of the final result.
