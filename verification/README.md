# Node management: a verified model of its workflow core

This project models, in Dafny 4.11, the parts of the node management service that decide the shape of a
workflow, who controls a host, and who may start or finish a piece of work. It proves properties of every input,
every run or every reachable state of that model. Check it with `dafny verify dfyconfig.toml`.

| files | what they model |
|---|---|
| `Walks`, `CycleSearch`, `BreadthFirst`, `Worklists` | finite graphs: walks, cycles, rankings; the depth-first cycle check; textbook breadth-first search, and the worklist that marks a node when it is dequeued, which refines it |
| `PipelineSpecs`, `PruneLaws` | pruning a flow graph to what lies between two nodes |
| `Templates`, `RefGraphs`, `TemplateManagers`, `TemplateRuns`, `TemplateRaces`, `Unfolding` | a template store in which every write is guarded by a reference check, call by call and interleaved; the unfolding of subprocesses that the check makes possible |
| `Expressions`, `Substitutions`, `Meanings`, `ConstantPools`, `ConstantLaws`, `ConstantOrders` | templates that are evaluated with some of their names missing; constants that are substituted into each other, and what they mean |
| `Builder` | an element graph compiled into an indexed tree of nodes and flows |
| `Policies` | which of several policies controls a host |
| `Transitions`, `Starts` | compare-and-swap on a record's state; a locked check-and-set around an unlocked run |
| `ClosureTables`, `StatusTrees` | a tree of nodes kept as a closure table, and the nested statuses read back from it |
| `PortRanges` | the port range parser and a printer that it undoes |

## How loops are modelled

The source's loops stay loops. A loop over a work queue is proved against a function that says what its variables
are after any number of turns (`Worklists.WorkAfter`, `PipelineSpecs.LoopAfter`, `RefGraphs.BuildAfter`): what
the loop keeps is proved about that function by induction, and the loop's invariant says only which turn it has
reached. Python dicts and sets are gone through in an arbitrary order (`Walks.Pick`), so what is proved of such a
loop holds for every order. Names and ids are integers, since they are only compared; where the source draws a
fresh id, the model takes the next number.

## Where the code does less than it is meant to

Each of these is a statement that fails for the code, with an input that shows it and the condition under which it
holds; where the text says "exactly", the condition is proved both ways.

- `prune` fills the target's incoming flows from nodes met before the target only. A flow whose source is farther
  from the start than the target is kept but not recorded (`PruneLaws.LosesAFlow`); all are recorded exactly when
  every source comes before the target in breadth-first order (`PruneLaws.RecordsAllIff`), which nearer sources
  always do and farther ones never do.
- A template can be updated to contain itself when its stored data has no subprocess, because the root's entry of
  the reference graph is then overwritten with an empty list (`TemplateRuns.SelfUpdateSlips`). Over every
  run of calls one after the other the store stays acyclic exactly when no such update is made
  (`TemplateRuns.RunConsistentIff`).
- What a call reads and what it saves later are not locked against other calls. Two updates that cross can each be
  accepted and together close a cycle (`TemplateRaces.CrossedUpdatesClose`). A deletion saves the whole row that it
  loaded, so it can bring old data back and close a cycle although no updates cross
  (`TemplateRaces.DeletionRevives`). Under every interleaving the store stays acyclic exactly when no save meets a
  store in which its data leads back to its template (`TemplateRaces.RaceConsistentIff`), that is, one in which the
  validation would refuse it by then or lets it through as above (`TemplateRaces.ClosesIffRefused`).
- A constant pool is resolved one constant at a time, and a template is evaluated with every other name missing. Where
  templates wait, that is, print nothing while a constant that they name is missing or if they name none, one over
  several constants is never rendered (`ConstantLaws.TwoNamesAreLeft` has `${a+b}`, which could be evaluated with both:
  `ConstantLaws.SumIsNotMeant`). Call a pool regular when, with its own values, templates wait and every string has text
  in it, is a single piece or loses no piece. Then every order gives the one meaning that leaves such templates alone
  (`ConstantLaws.ResolvedIsMeaning`). It is the recursive meaning exactly when they would print nothing anyway
  (`ConstantLaws.MeaningIff`). No reference is left exactly when no template names several constants and each that names
  one can be evaluated with the pool's values, lone names aside (`ConstantLaws.NoReferenceLeftExactly`). So where they
  all can be evaluated, the result is the recursive meaning exactly when no template names several constants
  (`ConstantLaws.SingleIff`), and exactly then no reference is left (`ConstantLaws.NoReferenceLeftIff`). Names that are
  no constants of the pool, such as builtins, do not matter: `${int(b)+1}` is rendered
  (`ConstantLaws.BuiltinsAreNoReferences`).
- Without waiting the order of the dict decides. A condition on a constant is answered for good while that constant is
  still undefined (`ConstantOrders.ChoiceIsYes`, `ConstantOrders.ChoiceIsNo`, on a pool that lacks nothing else:
  `ConstantOrders.ChoiceDoesNotWait`), and a template that names no constant may be used before it is rendered
  (`ConstantOrders.SeenEarly`, `ConstantOrders.SeenLate`). So does an empty string beside a list, where strings are
  not firm (`ConstantOrders.JoinedIsList`, `ConstantOrders.JoinedIsText`).
- A missing name is looked up among Python's builtins, so plain names wait exactly when none is that of a builtin
  (`ConstantLaws.PlainNamesWaitIff`). An acyclic pool of plain names, none that of a builtin, in strings with text in
  them or by themselves, resolves to its meaning in every order (`ConstantLaws.PlainNamesResolve`). A constant called
  `id` prints as the builtin, for good, when another constant is put in first (`ConstantOrders.BuiltinIsPrinted`, on a
  pool that lacks nothing else: `ConstantOrders.NumberedIsPlain`), and as its value when it is put in first itself
  (`ConstantOrders.ValueIsPrinted`).
- If running a pipeline raises instead of reporting a failure, the instance stays started for good
  (`Starts.RaisingSticks`). The flag is set exactly when a call is in flight or has succeeded, precisely in the
  runs in which no call raises (`Starts.StartedIff`).

## Model

| member | source | states |
|---|---|---|
| CycleSearch.Graph.constructor | pipeline/utils/graph.py:16-20 | a graph starts with its nodes and flows, an empty path and nothing visited |
| CycleSearch.Graph.TargetsOf | pipeline/utils/graph.py:31 | the targets of a node are exactly its successors |
| CycleSearch.Graph.Visit | pipeline/utils/graph.py:29-39 | ends on cyclic graphs too; success leaves a path that the last visited node closes, failure restores the path and means that no walk on from the node repeats a node of the path |
| CycleSearch.Graph.HasCycle | pipeline/utils/graph.py:22-27 | false only if no cycle can be reached from the nodes; otherwise the path starts at one of them |
| CycleSearch.Graph.GetCycle | pipeline/utils/graph.py:41-47 | empty exactly when the nodes reach no cycle, self-loops included; otherwise a closed walk of the graph |
| CycleSearch.IndexOfFirst | pipeline/utils/graph.py:43 | the index found is that of the first occurrence |
| CycleSearch.CycleFromIsCyclic | pipeline/utils/graph.py:41-47 | when every flow starts at a listed node, the search misses no cycle of the graph |
| Worklists.FirstDequeue | pipeline/core/pipeline.py:61-82 | dequeuing an unmarked node advances textbook breadth-first search by one node, whatever duplicates the queue holds |
| Worklists.StaleDequeue | pipeline/core/pipeline.py:61-82 | dequeuing a marked duplicate enqueues unmarked successors only and changes nothing that the search will visit |
| Worklists.Turn | pipeline/core/pipeline.py:61-82 | each turn lowers (unmarked nodes, queued marked nodes) lexicographically, on any graph |
| Worklists.LastTurn | pipeline/core/pipeline.py:61-82 | when the queue is empty the nodes, by first dequeuing, are in textbook breadth-first order and closed under successors |
| BreadthFirst.OrderIsReachable | pipeline/core/pipeline.py:61-82 | that order lists each reachable node once and nothing else |
| BreadthFirst.OrderByDistance | pipeline/core/pipeline.py:61-82 | the nodes at most k steps away are a prefix of it, for every k |
| PipelineSpecs.PipelineSpec.constructor | pipeline/core/pipeline.py:22-36 | the object table holds the events, activities and gateways under their own ids; if these are distinct and their flows lead to each other, the spec can be pruned |
| PipelineSpecs.PipelineSpec.CutEvents | pipeline/core/pipeline.py:39-43 | the start event loses its outgoing flows and the end event its incoming ones, unless they are the ends to keep |
| PipelineSpecs.PipelineSpec.Isolate | pipeline/core/pipeline.py:38-53 | the ends are looked up and cut off from the rest |
| PipelineSpecs.PipelineSpec.Follow | pipeline/core/pipeline.py:74-82 | one node's outgoing flows are collected, unmarked targets queued, and flows into an unmarked target node recorded |
| PipelineSpecs.PipelineSpec.Traverse | pipeline/core/pipeline.py:55-82 | the walk ends; it is stuck exactly on a reachable node without outgoing flows, and otherwise collects the kept part |
| PipelineSpecs.PipelineSpec.Collect | pipeline/core/pipeline.py:45-82 | the walk leaves the kept part in the lists of the spec, and changes no node |
| PipelineSpecs.PipelineSpec.Rebuild | pipeline/core/pipeline.py:55-89 | the walk's results are installed in the spec and in the target node, and no other node changes; the target's dict has the ids of its incoming flows and nothing else, each leading to a flow of that id |
| PipelineSpecs.PipelineSpec.Prune | pipeline/core/pipeline.py:38-89 | how it ends is decided by the graph before the call, both ways; new objects, activities, gateways and flows are exactly the kept part, activities and gateways in breadth-first order of first occurrence; the target's incoming flows are the recorded ones, and its dict has their ids and nothing else, each leading to a flow of that id; every kept flow's ends are kept, and other nodes keep their flows |
| PipelineSpecs.DistinctFlowsAreFound | pipeline/core/pipeline.py:85-87 | when the recorded flows have different ids, the dict finds each of them under its own |
| PipelineSpecs.RegistersAreInOrder | pipeline/core/pipeline.py:64-69 | the lists of activities and gateways have the nodes in the order in which they are first dequeued |
| PruneLaws.KeptExactly | pipeline/core/pipeline.py:61-82 | kept are exactly the nodes that a walk from keep_from reaches without passing through keep_to, each once |
| PruneLaws.NearerIsRecorded | pipeline/core/pipeline.py:74-82 | a flow into keep_to from a strictly nearer node is recorded |
| PruneLaws.FartherIsMissed | pipeline/core/pipeline.py:74-82 | a flow into keep_to from a strictly farther node is not |
| PruneLaws.RecordsAllIff | pipeline/core/pipeline.py:74-87 | all kept flows into keep_to are recorded exactly when each source comes before keep_to in breadth-first order |
| PruneLaws.NearerLosesNothing | pipeline/core/pipeline.py:74-87 | nothing is lost when every kept flow into keep_to comes from a strictly nearer node |
| PruneLaws.FartherLosesSome | pipeline/core/pipeline.py:74-87 | something is lost when one comes from a strictly farther node |
| PruneLaws.LosesAFlow | pipeline/core/pipeline.py:74-87 | a branch beside a direct flow to keep_to loses its last flow |
| PruneLaws.PruneTwice | pipeline/core/pipeline.py:38-89 | pruning again to the same ends changes neither the kept nodes nor the recorded flows |
| RefGraphs.MeasureStep | pipeline/models.py:218-231 | a dequeuing lowers (unlisted references, queued listed references) lexicographically |
| RefGraphs.Stops | pipeline/models.py:218-231 | the loop ends however the stored references circle |
| RefGraphs.ListRefs | pipeline/models.py:224-231 | one template's references are appended to its entry, or its entry is emptied, and unlisted ones are queued |
| RefGraphs.Construct | pipeline/models.py:196-233 | the graph's keys are the root and everything the new data reaches, each with exactly its references; otherwise something reached has no template or no stored version |
| TemplateManagers.Flows | pipeline/models.py:146-151 | the flows are the graph's edges between its own keys |
| TemplateManagers.Validate | pipeline/models.py:133-159 | accepts exactly when everything reached resolves and no cycle is reached; a refusal names a real cycle or a missing template |
| TemplateManagers.PutClosed | pipeline/models.py:161-180 | stored references go on resolving |
| TemplateManagers.CreateAcyclic | pipeline/models.py:161-180 | creating a template closes no cycle |
| TemplateManagers.UpdateAcyclic | pipeline/models.py:372-391 | an accepted update of data that does not list its own template closes no cycle |
| TemplateRuns.AcceptedIff | pipeline/models.py:133-159 | data that does not list its own template is accepted exactly when every reference resolves and none leads back to the template |
| TemplateRuns.CreationAcceptedIff | pipeline/models.py:161-171 | a creation is accepted exactly when every reference resolves |
| TemplateRuns.SelfListedRejected | pipeline/models.py:211-231 | data that lists its own template is refused when the stored data has subprocesses |
| TemplateRuns.SelfOverLeafAccepted | pipeline/models.py:211-231 | it is accepted when the stored data has none |
| TemplateRuns.SelfOverLeafCyclic | pipeline/models.py:372-391 | and the stored references are cyclic then |
| TemplateRuns.UpdateKeepsIff | pipeline/models.py:372-391 | an accepted update keeps the store closed and acyclic exactly when it is not of that family |
| TemplateRuns.DeletedKeeps | pipeline/models.py:182-194 | deleting templates changes no reference |
| TemplateRuns.StepKeepsIff | pipeline/models.py:161-194 | any step keeps the store closed and acyclic exactly when it is not such an update |
| TemplateRuns.RunConsistentIff | pipeline/models.py:133-194 | over every run from an empty store, each call by itself, the references stay closed and acyclic throughout exactly when no such update is made |
| TemplateRaces.SaveKeepsIff | pipeline/models.py:372-391 | a save keeps the store closed and acyclic exactly when its data does not lead back to its template by now, whatever was validated or loaded before |
| TemplateRaces.ClosesIffRefused | pipeline/models.py:379-385 | a save closes a cycle exactly when a validation at that moment would refuse its data, or the data lists its own template over stored data without subprocesses |
| TemplateRaces.RunSound | pipeline/models.py:161-194 | under every interleaving snapshots stay filed, stored references go on resolving, and so does everything that is about to be saved |
| TemplateRaces.ResolvesForGood | pipeline/models.py:218-223 | a reference that resolved when a validation read it resolves ever after, whatever others save in between |
| TemplateRaces.AcceptedResolves | pipeline/models.py:142-144 | what a validation of all at once accepts is among what one that reads bit by bit may accept |
| TemplateRaces.AcceptedIsSaved | pipeline/models.py:372-391 | an accepted row is saved with its name, digest and flag, its snapshot is filed, and nothing else changes |
| TemplateRaces.CallsAreSteps | pipeline/models.py:161-180 | creations and updates that nobody interferes with do what the calls do by themselves |
| TemplateRaces.DeletionIsStep | pipeline/models.py:182-194 | and so do deletions |
| TemplateRaces.RaceConsistentIff | pipeline/models.py:161-194 | under every interleaving of validations that read bit by bit, loads, and saves of whole rows, stale flags and data included, the references stay closed and acyclic throughout exactly when no save meets a store in which its data leads back to its template |
| TemplateRaces.CrossedUpdatesClose | pipeline/models.py:372-391 | two updates, each accepted before either is saved, put each template into the other |
| TemplateRaces.DeletionRevives | pipeline/models.py:190-194 | a deletion saves the row that it loaded before the template was updated, and its old data closes a cycle with an update accepted and saved since |
| TemplateRuns.SelfUpdateSlips | pipeline/models.py:230-231 | a two-step run that ends with a template containing itself |
| TemplateRuns.TemplateManager.CreateModel | pipeline/models.py:161-180 | the store takes the step, and the verdict is whether the data is admissible; the new row has the name, the digest of the data and no mark of deletion, all other rows stay, and a refusal changes nothing |
| TemplateRuns.TemplateManager.CreateOrGetSnapshot | pipeline/models.py:59-66 | data is filed under its digest unless it is there |
| TemplateRuns.TemplateManager.UpdateTemplate | pipeline/models.py:372-391 | the store takes the step, and the verdict is whether the data is admissible for this template; its row has the name and the digest of the data and keeps its mark, all other rows stay, and a refusal changes nothing |
| TemplateRuns.TemplateManager.DeleteModel | pipeline/models.py:182-194 | each given template that exists is marked as deleted, takes its new name and keeps its snapshot; the other rows, the keys and the snapshots stay |
| Unfolding.UnfoldableIff | pipeline/models.py:235-250 | finite unfoldings exist exactly for the data that a validation without a root accepts |
| Unfolding.RunUnfolds | pipeline/models.py:235-250 | whatever a run has stored can be unfolded, unless an update listed its own template over data without subprocesses |
| Unfolding.ReplaceAllId | pipeline/parser/utils.py:33-69 | the nodes of one level take fresh ids in order, and keep their kinds |
| Unfolding.UnfoldActivity | pipeline/models.py:243-250 | a subprocess node takes the unfolding of its template's data, under the node's own id |
| Unfolding.Unfold | pipeline/models.py:235-250 | the recursion ends; it fails exactly if no unfolding exists |
| Unfolding.UnfoldSubprocess | pipeline/models.py:235-250 | succeeds exactly for admissible data; the result mirrors the template references at every depth, with no subprocess unexpanded and consecutive fresh ids |
| Unfolding.NumberingDetermines | pipeline/models.py:235-250 | mirroring and numbering leave only one result |
| Unfolding.MirrorsIsComplete | pipeline/models.py:235-250 | an unfolding has no unexpanded subprocess at any depth |
| Unfolding.ReplaceId | pipeline/models.py:689-700 | the renamed pipeline has the same shape, consecutive fresh ids at every depth, and each embedded pipeline its host's id |
| Unfolding.SameShapeMirrors | pipeline/models.py:689-700 | renaming an unfolding gives an unfolding of the same data |
| Unfolding.NodeIdSet | pipeline/models.py:779-793 | the ids of every level are added to the set, and nothing else |
| Unfolding.IdsAreFresh | pipeline/models.py:779-793 | there are as many ids as nodes over all levels, two events, the gateways and the activities of each |
| Expressions.ResolveString | pipeline/core/data/expression.py:116-129 | the templates are replaced one after the other, in some order |
| Expressions.ResolveData | pipeline/core/data/expression.py:72-90 | a lone known name is replaced by its value, other strings template by template, each evaluated with the names at hand, and containers element by element |
| Expressions.ResolvedIsSubst | pipeline/core/data/expression.py:116-129 | replacing one after the other is substituting all at once, in every order, when no value prints a template that the names would change |
| Expressions.ResolvedKeeps | pipeline/core/data/expression.py:116-152 | a template that cannot be evaluated stays, unless it is a lone known name |
| Expressions.ResolvedHas | pipeline/core/data/expression.py:116-152 | templates of the result come from the values, or were there and cannot be evaluated |
| Substitutions.Compose | pipeline/component_framework/constant.py:52-63 | substituting one more constant after the others is substituting all at once, when what it completes waited for it alone and strings are firm |
| Meanings.MeaningExists | pipeline/component_framework/constant.py:47-65 | an acyclic pool has a recursive meaning, with any way of rendering |
| Meanings.MeaningIsUnique | pipeline/component_framework/constant.py:47-65 | it has only one |
| Meanings.MeaningIsSettled | pipeline/component_framework/constant.py:47-65 | nothing in a meaning can be rendered any further with it |
| ConstantPools.GetReferencedOnly | pipeline/component_framework/constant.py:67-76 | exactly the constants that name no constant of the pool |
| ConstantPools.PutIn | pipeline/component_framework/constant.py:54-59 | every value left, the constant's own included, is resolved for the one constant |
| ConstantPools.GeneralStep | pipeline/component_framework/constant.py:53-62 | references among the constants left only shrink, no template is made up, and ready constants stay ready |
| ConstantPools.KeepsStep | pipeline/component_framework/constant.py:53-62 | waiting templates over several constants are never touched |
| ConstantPools.ReadyMeans | pipeline/component_framework/constant.py:67-76 | a constant of a regular pool that is ready has its meaning |
| ConstantPools.SomeReady | pipeline/component_framework/constant.py:50-63 | an acyclic pool always has a constant that can be put in next |
| ConstantPools.ExactStep | pipeline/component_framework/constant.py:53-62 | on a regular pool finished constants have their meanings, and each other value is its raw value with these put in |
| ConstantPools.BareStep | pipeline/component_framework/constant.py:53-62 | when every template over the constant that is put in can be evaluated with its value, the constants put in so far are named nowhere afterwards |
| ConstantPools.ChainState | pipeline/component_framework/constant.py:47-65 | all of this holds after any number of constants, in any order, each part where its own condition holds |
| ConstantPools.ResolveThese | pipeline/component_framework/constant.py:53-62 | a whole batch of ready constants is put in |
| ConstantPools.ResolveAll | pipeline/component_framework/constant.py:47-65 | the loops end on every acyclic pool, with a result that some order of the dicts gives |
| ConstantLaws.ResolvedIsMeaning | pipeline/component_framework/constant.py:47-65 | on a regular pool the result is the one meaning in which templates over several constants are left alone |
| ConstantLaws.MeaningIff | pipeline/component_framework/constant.py:47-65 | on a regular acyclic pool it is the recursive meaning exactly when templates over several constants would print nothing with these values either |
| ConstantLaws.SingleIff | pipeline/component_framework/constant.py:47-65 | when the templates that name constants can be evaluated with the pool's values, exactly when none names several constants |
| ConstantLaws.OrderIsImmaterial | pipeline/component_framework/constant.py:47-65 | on a regular pool every order of the dicts gives the same result |
| ConstantLaws.AnchoredIsRegular | pipeline/component_framework/constant.py:47-65 | a pool whose templates wait with its values is regular whatever is printed, when strings of several pieces have text in them |
| ConstantLaws.NoReferenceLeftExactly | pipeline/component_framework/constant.py:47-65 | on a regular acyclic pool no value names a constant exactly when no template names several and each that names one can be evaluated with the pool's values or is a lone name |
| ConstantLaws.NoReferenceLeftIff | pipeline/component_framework/constant.py:47-65 | when they can all be evaluated, exactly when no template names several constants |
| ConstantLaws.NoReferenceLeftIsSingle | pipeline/component_framework/constant.py:47-65 | of any pool of waiting templates, whatever they print: if no reference is left, no template named several constants |
| ConstantLaws.ResolvedBare | pipeline/component_framework/constant.py:47-65 | of any pool, waiting or not: no reference is left when no template names several constants and each prints whatever the value |
| ConstantLaws.ValueIsSubst | pipeline/component_framework/constant.py:95-101 | where the pool is its meaning, resolving any value substitutes it, whatever the order |
| ConstantLaws.PlainNamesWaitIff | pipeline/core/data/expression.py:131-152 | plain names wait exactly when none of them prints without a value, as the name of a builtin does |
| ConstantLaws.PlainNamesLeaveNone | pipeline/component_framework/constant.py:29-65 | a pool of plain names is resolved without a reference left, in every order |
| ConstantLaws.PlainNamesResolve | pipeline/component_framework/constant.py:29-65 | an acyclic pool of plain names, none of them that of a builtin, in strings with text in them or by themselves, resolves to its recursive meaning in every order |
| ConstantLaws.TwoNamesAreLeft | pipeline/component_framework/constant.py:53-62 | a sum of two constants is left as it is, since it cannot be evaluated with one of them missing |
| ConstantLaws.SumIsNotMeant | pipeline/component_framework/constant.py:53-62 | although it could be evaluated with both, so that the result is not the recursive meaning |
| ConstantLaws.BuiltinsAreNoReferences | pipeline/core/data/expression.py:131-152 | an expression over a builtin and one constant is rendered with the constant's value, and no reference is left |
| ConstantLaws.ConstantPool.constructor | pipeline/component_framework/constant.py:22-24 | nothing is resolved at first |
| ConstantLaws.ConstantPool.ReferenceInfo | pipeline/component_framework/constant.py:78-85 | the nodes are the constants, the flows the references among them |
| ConstantLaws.ConstantPool.Resolve | pipeline/component_framework/constant.py:29-65 | raises exactly on a cyclic pool, with a real cycle; otherwise the pool is resolved, once |
| ConstantLaws.ConstantPool.ResolveConstant | pipeline/component_framework/constant.py:87-93 | raises exactly for a cyclic pool or a missing key, and otherwise gives the resolved value |
| ConstantLaws.ConstantPool.ResolveValue | pipeline/component_framework/constant.py:95-101 | raises exactly for a cyclic pool; otherwise the value with the resolved constants put in |
| ConstantOrders.JoinedIsList | pipeline/core/data/expression.py:121-124 | an empty string put in first turns a joined template into a lone name, whose value is the list itself |
| ConstantOrders.JoinedIsText | pipeline/core/data/expression.py:121-129 | the list put in first gives its printout |
| ConstantOrders.SeenEarly | pipeline/component_framework/constant.py:54-62 | a constant whose template names nothing is used before it is rendered itself |
| ConstantOrders.SeenLate | pipeline/component_framework/constant.py:54-62 | in another order it is used after |
| ConstantOrders.ChoiceIsYes | pipeline/component_framework/constant.py:53-62 | a condition on a constant is answered with its value when it is put in first |
| ConstantOrders.ChoiceIsNo | pipeline/core/data/expression.py:131-152 | and with an undefined one, for good, when another is |
| ConstantOrders.ChoiceDoesNotWait | pipeline/component_framework/constant.py:53-62 | that pool lacks nothing but waiting |
| ConstantOrders.ValueIsPrinted | pipeline/component_framework/constant.py:53-62 | a constant named like a builtin prints its value when it is put in first |
| ConstantOrders.BuiltinIsPrinted | pipeline/core/data/expression.py:131-152 | and the builtin, for good, when another is, which is not the recursive meaning |
| ConstantOrders.NumberedIsPlain | pipeline/component_framework/constant.py:53-62 | that pool is acyclic, of one plain name in a string with text in it |
| Builder.GrowFlows | pipeline/builder/builder.py:222-227 | the i-th flow leads to the i-th successor and is appended to its incoming flows |
| Builder.LinkConditions | pipeline/builder/flow/gateway.py:32-37 | the i-th outgoing flow has the i-th condition, and no other flow has one |
| Builder.GrowNode | pipeline/builder/builder.py:105-219 | a node carries its element's type and content, fresh outgoing flows, and its incoming flows so far; a nested graph is built, with the next fresh ids |
| Builder.GrowNested | pipeline/builder/builder.py:163-168 | the tree of a nested graph has the id of its element and takes the ids from the given one on |
| Builder.GrowSound | pipeline/builder/builder.py:71-88 | a turn on a new element keeps the tables consistent up to the elements queued again |
| Builder.UpdateSound | pipeline/builder/builder.py:75-78 | a turn on an element met again finds its incoming flows and brings the node up to date |
| Builder.Grow | pipeline/builder/builder.py:80-88 | one such turn, with the lookup of incoming flows never missing |
| Builder.Update | pipeline/builder/builder.py:99-102 | one such turn |
| Builder.BuildTree | pipeline/builder/builder.py:63-96 | ends on graphs with joins and back edges; nodes are exactly the elements reached, each in the table of its type; every flow is once in its source's outgoing and once in its target's incoming list, and these lists hold nothing else, the incoming ones in the order in which the flows were made; also in nested trees; the flow ids of all levels are the fresh ones, one for each flow |
| Builder.FlowIdsAreFresh | pipeline/builder/builder.py:105-219 | no flow id occurs twice at any depth: there are as many as flows |
| Builder.FlowsAreConserved | pipeline/builder/builder.py:222-227 | as many flows as edges leave the elements reached |
| Policies.SubInstObjId | apps/node_man/models.py:1877-1919 | the level a subscription is matched at: the host's exactly when it has host nodes throughout, or one that is the host by its id or by cloud and address; the business or another level only if a node is the host's business or instance there; none only if no node is |
| Policies.LevelIsDeepest | apps/node_man/models.py:1877-1919 | it is the deepest level of the topology with a matching scope node, and none exactly when no node matches |
| Policies.MatchesMean | apps/node_man/models.py:1891-1917 | what it takes for a scope node to match at the business, at the host, or at a level between |
| Policies.Sort | apps/node_man/models.py:1848-1865 | a permutation in ascending order that keeps the order of ties |
| Policies.LessIffBeaten | apps/node_man/models.py:1842-1860 | one entry is less than another exactly when the other's level comes strictly later in the topology (a level not in it comes before all), or neither does and the other is newer |
| Policies.FetchOthers | apps/node_man/models.py:1867-1875 | the subscriptions on the host but this one, in order |
| Policies.OthersConcat | apps/node_man/models.py:1867-1875 | they are a filter of the list |
| Policies.CurrentIsLastIff | apps/node_man/models.py:1979-1988 | the current subscription sorts last exactly when no other beats it: it wins ties |
| Policies.LastBeats | apps/node_man/models.py:1979-1988 | whatever sorts last instead of it beats it, and nothing beats that |
| Policies.CheckOnce | apps/node_man/models.py:1959-1976 | a one-off is suppressed exactly when the host has other policies, by the last of the sorted ones |
| Policies.CheckPolicy | apps/node_man/models.py:1978-1992 | a policy is suppressed exactly when another one beats it, by the last of the sorted ones |
| Policies.CheckIsSuppressed | apps/node_man/models.py:1810-1992 | who is exempt, which level is matched, and both ways when a one-off or a policy is suppressed and by whom: a policy is free exactly when no other entry is matched at a deeper level, or is newer where neither level is deeper; a suppressing entry is another one that no other beats in this sense, and it beats the policy |
| Policies.UnsuppressedIffMaximal | apps/node_man/models.py:1976-1992 | of a host's recorded policies exactly those are unsuppressed that none beats: none is matched deeper, or as deep and newer |
| Policies.ExactlyOneUnsuppressed | apps/node_man/models.py:1976-1992 | exactly one when creation times differ, and it beats all others |
| Policies.SuppressedByMaximal | apps/node_man/models.py:1985-1991 | a suppressed policy is told a maximal one |
| Policies.NextTakesOver | apps/node_man/models.py:1976-1992 | without the winner, the next entry of its ordered list alone is unsuppressed, that is, beaten by none of the rest |
| Transitions.Record.Transit | requests_tracker/models.py:57-74 | done exactly for one of the three moves CREATED to IN_PROGRESS, IN_PROGRESS to SUCCESS and IN_PROGRESS to FAILURE on a fresh copy, and not allowed exactly for others; row and copy move together, or neither |
| Transitions.RunSound | requests_tracker/states.py:17-22 | in every interleaving of clients with stale copies the record goes CREATED, IN_PROGRESS, then SUCCESS or FAILURE, and each copy is a state it has held |
| Transitions.OneSuccessPerState | requests_tracker/models.py:57-74 | at most one transition ever succeeds from each state |
| Transitions.ArchivedIsFinal | requests_tracker/states.py:13-22 | nothing leaves an archived state |
| Transitions.ArchivedIff | requests_tracker/states.py:13-22 | the archived states are exactly those that no permitted move leaves |
| Transitions.ConflictMeansMoved | requests_tracker/models.py:68-71 | a conflict means that another transition from the copy's state has succeeded |
| Transitions.FreshTransit | requests_tracker/models.py:57-74 | after any run, on a copy just loaded exactly those moves are made |
| Transitions.StaleTransit | requests_tracker/models.py:68-71 | and on a stale copy none, without effect |
| Starts.PipelineInstance.CheckAndSet | pipeline/models.py:736-765 | refuses a started instance and one that does not parse, without effect; otherwise sets it |
| Starts.PipelineInstance.Reset | pipeline/models.py:769-775 | the instance is as it was before it was started |
| Starts.PipelineInstance.Start | pipeline/models.py:728-777 | started afterwards exactly if it was, or it parsed and the run did not report a failure; the result, and who is left as executor |
| Starts.RunSound | pipeline/models.py:728-777 | in every interleaving the flag is set exactly while some call holds the instance, and no two do |
| Starts.AtMostOne | pipeline/models.py:728-777 | at most one call is in flight or has succeeded |
| Starts.StartedIff | pipeline/models.py:728-777 | started exactly when a call is in flight or has succeeded, precisely if no call's run raised |
| Starts.RaisingSticks | pipeline/models.py:767-775 | after a run that raises the instance stays started whatever follows |
| Starts.SuccessSticks | pipeline/models.py:767-777 | a call whose run succeeds has returned so in every continuation, and the instance stays started |
| Starts.CallIsStart | pipeline/models.py:728-777 | after any run, a call that nobody interferes with has the result and leaves the flag that start has and leaves, and no other call changes |
| ClosureTables.BuildRelationship | pipeline/engine/models/core.py:601-612 | the new node gets a row for itself and one for each ancestor of its parent, unless the pair is known |
| ClosureTables.GrownIsForest | pipeline/engine/models/core.py:601-612 | a node added below another, or as a root, leaves the tree a tree |
| ClosureTables.BuildKeepsClosure | pipeline/engine/models/core.py:601-612 | the table stays exactly the closure of the grown tree |
| StatusTrees.DescendantsAre | pipeline/engine/api.py:374-379 | the first query leaves the nodes at distance 1 to max_depth |
| StatusTrees.RelationshipsAreParents | pipeline/engine/api.py:381-391 | the second finds each of them under its parent |
| StatusTrees.LinkOne | pipeline/engine/api.py:396-400 | the parent's children get the child's own record, which is shared |
| StatusTrees.Link | pipeline/engine/api.py:392-400 | each record's children are exactly those related to it, in any order of the rows; it gives up exactly on a parent without a record |
| StatusTrees.GetStatusTree | pipeline/engine/api.py:367-402 | unknown nodes are refused; otherwise the records form the tree below the node down to the depth, each under its true parent and nowhere else |
| StatusTrees.RecordsAreTheTree | pipeline/engine/api.py:392-402 | the ways down through the records' children are those through the tree below the node |
| StatusTrees.FoundFromRoot | pipeline/engine/api.py:392-402 | each descendant down to the depth is found from the root |
| StatusTrees.WaysDownAreAncestors | pipeline/engine/api.py:392-402 | a way down passes through the true ancestors, one by one |
| StatusTrees.OneWayDown | pipeline/engine/api.py:392-402 | and there is only one |
| PortRanges.ParsePortNum | apps/node_man/models.py:1168-1183 | succeeds exactly on the plain print of a port from 1 to 65535, with any zeros before it and spaces around it, and gives that port |
| PortRanges.SpacesAreIgnored | apps/node_man/models.py:1172-1173 | spaces on either side of a port change nothing |
| PortRanges.SpacesAre | apps/node_man/models.py:1172 | which characters are spaces |
| PortRanges.DigitsArePrinted | apps/node_man/models.py:1172-1173 | digits are the print of the number that they give, after some zeros |
| PortRanges.PortNumIff | apps/node_man/models.py:1168-1183 | which texts are ports, both ways |
| PortRanges.ParseSegment | apps/node_man/models.py:1202-1223 | the range that a segment denotes, or an error exactly if it denotes none |
| PortRanges.ParsePortRange | apps/node_man/models.py:1185-1228 | one denoted range per comma segment, in order, or an error exactly if there is no such list |
| PortRanges.DenotesOne | apps/node_man/models.py:1202-1223 | a segment denotes at most one range, which is ordered and within the limits |
| PortRanges.SplitJoin | apps/node_man/models.py:1200 | splitting undoes joining pieces without separators |
| PortRanges.JoinSplit | apps/node_man/models.py:1200 | joining undoes splitting |
| PortRanges.PrintedParses | apps/node_man/models.py:1185-1228 | any list of valid ranges, each printed as "n" or "lo-hi", parses to itself |
| PortRanges.ParsesOne | apps/node_man/models.py:1185-1228 | no text parses to two lists, and every range of a list is valid |
| PortRanges.RoundTrip | apps/node_man/models.py:1185-1228 | parsing what was printed gives the list back |

## Left out

- Ids and names as strings: they are integers here, and a template reference is a pair of template and version rather than the text "id:version".
- Sharing of mutable lists and dicts: element lists, flow collections and constant values are values here. In `build_tree` a node shares its list of incoming flows with the bookkeeping dict, so that bringing a node up to date changes nothing there; here it is what brings the list to the node.
- Unfolding.ReplaceAllId: renames nodes only; flows, conditions and the front end's data are renamed consistently in the source, and pipelines have no flows in this part of the model.
- Unfolding.UnfoldSubprocess: gives the unfolded data as a new value, where the source rewrites the data it is given, and reports an unresolved reference as no result.
- Starts.PipelineInstance.Start: the start time, the tree info and the parser's settings are left out, and an invalid parser class counts as data that does not parse.
- ConstantPools.ResolveAll: the order of keys is arbitrary at each step instead of being fixed by one dict, so that more orders are covered than a run can show.
- Expressions.ResolveString: strings are sequences of texts and templates, so that a template put together from pieces of two values is not seen; what an expression prints for the values at hand is a parameter, which must not make up templates. An exception that the source does not catch there (a division by zero, say) escapes from it and is left out.
- TemplateRuns.TemplateManager.UpdateTemplate: other fields, edit times and messages are left out; the digest of data is assumed injective.
- Builder.BuildTree: `replace_id`, `ExecutableEndEvent`, the data of a tree and the component of an activity are left out, and so are graphs that are not well formed here. On some of these the source fails with a KeyError or IndexError, such as one with an edge into its start; on others it goes on: a second end event replaces the first, and a second successor of an element that is no gateway gets no flow when it is also reached from elsewhere.
- PortRanges.ParsePortNum: digits and spaces are ASCII, and a port given as an integer is left out.
- Policies.CheckIsSuppressed: reading the recorded subscriptions from the database is left out; names and categories in the answer are those of the recorded subscription.
- StatusTrees.GetStatusTree: states and elapsed times are left out, and every node of the table is taken to have a status.
- Database transactions, signals and locks beyond one locked block being one step. Filing a snapshot and saving the row that points to it are one step.
- The other engine operations of pipeline/engine/api.py, the pipeline parser, snapshots' JSON and compression, HTTP clients, settings and front end code: wrappers around libraries, or easy.
