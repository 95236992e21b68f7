# Verified core of the Cali library isolation

Cali moves a library of a C program into a process of its own. At link time it builds a call graph
and a program dependence graph, decides from them what has to live in shared memory, and emits
replacement functions that turn calls into messages. At run time a small library, libipc, carries
calls and callbacks between the two processes over two semaphores and two one-message buffers, hands
out pages of a shared segment, and keeps file descriptors of the two processes matched.

This project models that core in Dafny and proves what it is for:

- **Graph algorithms of the linker.** The graph with removable vertices, the colour map with four
  colours to a byte, the iterative depth-first search with Tarjan's visitor, the condensation, the
  bottom-up traversal, the two-way breadth-first search.
- **Passes over the dependence graph.** Sink reachability, shared marks, summary edges with the marks
  they cause, and the copying of edges for cloned functions.
- **The call protocol.** The emitted code and the waiting loop as a machine of two processes, shown to
  refine one synchronous call stack.
- **Shared memory and descriptors.** The page scan, the allocator over whole runs, lazy zeroing,
  mapped sizes, and the two descriptor tables.
- **Selectors of the configuration file.** The glob matcher against the meaning of a pattern.

## How the files fit together

| files | content |
|---|---|
| `Options.dfy`, `Walks.dfy` | a value that may be missing; reachability over an arbitrary edge relation, used by every search |
| `Colors.dfy`, `Graphs.dfy`, `GraphOps.dfy`, `GraphEdges.dfy`, `BaseGraph.dfy` | colour map and graph; `GraphOps` holds the graph as a value with its operations, `GraphEdges` what they do to every single edge, `BaseGraph` the class that is proved to perform them |
| `Tarjan.dfy`, `TarjanFinish.dfy`, `StrongComponents.dfy` | the invariant of Tarjan's algorithm, its steps as lemmas, the search as methods |
| `Condensation.dfy`, `BottomUp.dfy`, `DataSccs.dfy` | component graph, traversal, and the stored order of functions |
| `BreadthFirst.dfy`, `Pdg.dfy`, `SinkReachability.dfy`, `SharedMarks.dfy`, `PointerMarks.dfy`, `SummaryEdges.dfy`, `CloneEdges.dfy` | breadth-first search and the passes |
| `SharingRounds.dfy`, `SharingExample.dfy` | what the summary pass does to the shared marks, and a graph on which it falls short |
| `IpcMachine.dfy`, `IpcRefinement.dfy`, `IpcProgress.dfy`, `IpcHistory.dfy` | the two-process machine, its refinement, bounds on silence, and what moves and events alone say about calls |
| `PageBitmap.dfy`, `PageAllocator.dfy`, `PageContents.dfy`, `SharedMemory.dfy` | the scan, the allocator as a state machine with its safety, what the pages hold, the class |
| `ShrinkingExample.dfy` | runs in which a move to fewer pages overwrites a page of another owner |
| `FdTables.dfy` | descriptor tables |
| `Glob.dfy` | selectors |

Objects that the program updates in place are classes (`BaseGraph`, `ColorMap`, `TarjanVisitor`,
`SharedMemoryInformation`, `Process`); each method is proved against a function on values or against a
stated property, and the lemmas about runs speak of those functions. Vectors that grow are `seq`
fields, fixed buffers are arrays. The two-process protocol is a state machine on values, because the
two sides interleave; one action is one store, load, semaphore operation, call or return.

## What the code does and what its comments say

- The page scan starts its cursor at 1, but bit `j` of byte `i` is page `8 * i + j`. The page handed
  out is therefore one above the first page looked at. `PageAllocator` takes the cursor as a parameter:
  `ShiftedPagesAreFreeIff` says exactly when the code's answer is free, `OnePageHandedOutTwice` gives
  the family of states in which one page goes out twice and `FirstTwoRequestsCollide` shows that the
  first two requests are among them, `RunSafeIff` lifts the condition to runs, and `ExaminedPagesSafe`
  proves the allocator safe in every run once the page looked at is the one handed out.
- For the same reason the marking can leave the bitmap. `StaysInsideIff` says when it stays inside for
  any cursor; as the code stands it leaves the bitmap exactly if the first gap ends with the last page
  (`ShiftedStaysInsideIff`, with `WholeBitmapLeavesIt` as an instance). The model drops a mark behind
  the bitmap, where the code would write to memory that is not the bitmap. What is said below about
  zeroing and mapped sizes with cursor 1 therefore speaks about the code for runs in which every marking
  stays inside (`MarksInside`); runs whose answers are free are among them (`FreeAnswersStayInside`).
- `shm_mremap` copies all the old pages even if it asked for fewer new ones. `MoveSparesIff` and
  `MoveSparesWhateverIff` say exactly when no other owner loses data; a caller that never asks for
  fewer pages is safe, and `ShrinkingExample` has runs from the initial state in which a page is lost.
  Safety of the runs, zeroing and mapped sizes hold with such moves too. The copy leaves the segment
  or overlaps exactly as `CopyDefinedIff` says. The model then copies what fits, from the old contents,
  where the code has no defined result; statements about contents speak about the code for runs in
  which every copy is defined (`CopiesDefined`).
- `remove_vertex` subtracts a self-loop twice from the edge count. `ApplyCounts` and `RunKeepsGraph` say by how
  much the count is off after any run, `RemoveVertexCountExactIff` when it is exact, `SelfLoopMiscounts`
  is an instance.
- `put_fast` stores the requested colour only for some pairs of old and new colour; `JoinStoresIff` says
  which.
- The summary pass promises in a comment that if data flows from `a` to `b` and what `b` points to is
  shared, then what `a` points to is shared. It looks at each node once, so a mark set by a later node is
  not carried back. `SharingExample.PromiseBroken` is a graph on which the promise fails,
  `CalculateSummaryEdges` states which marks the pass leaves on any graph, `PromiseKeptIff` says for every
  graph and every order of the nodes exactly when the promise is kept, `LaterApartKept` gives a
  condition that does not depend on which checks succeed, and `IndependentKept` one for every order: what
  one node points to is not reached from what another points to.
- `markAsPointerToShared` keeps no record of where it has been. `FinishesIff` says that its recursion
  ends exactly if the vertex reaches no cycle of part edges.

## Model

| member | source | states |
|---|---|---|
| `Colors.OrTouchesOneField` | cali-linker/graph/color_map.h:54-56 | ORing a colour into its two bits joins it with the colour there and leaves the other three vertices of the byte alone |
| `Colors.JoinStoresIff` | cali-linker/graph/color_map.h:49-56 | the write stores the requested colour exactly if the vertex was white, had that colour, or the colour is black |
| `Colors.PutThenLookup` | cali-linker/graph/color_map.h:54-67 | reading any vertex after a write to any vertex |
| `Colors.PackedRunAgrees` | cali-linker/graph/color_map.h:49-67 | over every sequence of allowed transitions the packed bytes agree with a plain vertex-to-colour map |
| `Colors.ColorMap.Init` | cali-linker/graph/color_map.h:29-38 | all vertices are white afterwards |
| `Colors.ColorMap.PutFast` | cali-linker/graph/color_map.h:54-59 | the colour of one vertex is joined with the new one, no other changes |
| `Colors.ColorMap.Get` | cali-linker/graph/color_map.h:61-67 | the colour the abstract map holds |
| `UniqueVector.Insert` | cali-linker/graph/unique_vector.h:26-32 | appended exactly if absent, and reported so |
| `UniqueVector.Remove` | cali-linker/graph/unique_vector.h:45-53 | the first occurrence and only it is erased; reported exactly if there was one |
| `Graphs.MirrorMultiplicity` | cali-linker/graph/basegraph.h:153-163 | an edge has the same multiplicity in its source's out-list and its target's in-list |
| `GraphOps.ApplyKeepsGraph` | cali-linker/graph/basegraph.h:135-184 | every operation keeps out-lists and in-lists mirrored, the free list exactly the removed vertices without repeats, removed vertices without edges |
| `GraphOps.ApplyCounts` | cali-linker/graph/basegraph.h:135-184 | the edge counter after an operation, off by exactly the self-loops removed with their vertex |
| `GraphOps.RunKeepsGraph` | cali-linker/graph/basegraph.h:135-184 | both over every sequence of operations |
| `GraphOps.IsolatedEdgeCount` | cali-linker/graph/basegraph.h:165-179 | how many edges leave the graph with a vertex: in-edges and out-edges, a self-loop once |
| `GraphOps.RemoveVertexCountExactIff` | cali-linker/graph/basegraph.h:165-167 | after removing a vertex the count is exact if and only if the vertex has no self-loop |
| `GraphOps.SelfLoopMiscounts` | cali-linker/graph/basegraph.h:165-167 | a graph whose edge count wraps around after removing a vertex with a self-loop |
| `BaseGraphs.BaseGraph.AddVertex` | cali-linker/graph/basegraph.h:135-151 | reuses the last removed vertex or appends one; the graph stays well formed |
| `BaseGraphs.BaseGraph.AddEdge` | cali-linker/graph/basegraph.h:153-157 | both lists get the edge exactly if it was absent |
| `BaseGraphs.BaseGraph.AddEdgeUnique` | cali-linker/graph/basegraph.h:159-163 | both lists get the edge |
| `BaseGraphs.BaseGraph.RemoveEdge` | cali-linker/graph/basegraph.h:181-184 | one occurrence leaves both lists |
| `BaseGraphs.BaseGraph.RemoveVertex` | cali-linker/graph/basegraph.h:165-179 | the two loops over edge copies leave exactly the graph without the edges at the vertex |
| `BaseGraphs.EraseDone` | cali-linker/graph/basegraph.h:168-175 | erasing edge by edge from the neighbours gives every list without the edges at the vertex, in order |
| `GraphEdges.AddVertexIs` | cali-linker/graph/basegraph.h:135-151 | the vertex handed out is the last removed one, or a new one if none is left; it carries the property, is live, has no edges, and no other slot changes |
| `GraphEdges.AddEdgeIs` | cali-linker/graph/basegraph.h:153-157 | the edge occurs once more in both its lists exactly if it did not occur; every other edge occurs as often as before in every list, and vertices stay |
| `GraphEdges.AddEdgeUniqueIs` | cali-linker/graph/basegraph.h:159-163 | the edge occurs once more, and nothing else changes |
| `GraphEdges.RemoveEdgeIs` | cali-linker/graph/basegraph.h:181-184 | the edge occurs once less in both its lists, or not at all as before; every other edge occurs as often as before, and vertices stay |
| `GraphEdges.RemoveUndoesAdd` | cali-linker/graph/basegraph.h:159-184 | adding an edge and removing it gives every edge its old multiplicity and the counter its old value |
| `GraphEdges.RemoveVertexIs` | cali-linker/graph/basegraph.h:165-179 | the vertex is empty and without edges; the edges that touch it are gone from all lists, all others occur as often as before, properties stay |
| `GraphEdges.RemovedIsReused` | cali-linker/graph/basegraph.h:135-179 | a vertex that is removed is the next one handed out, with the new property |
| `GraphEdges.SetPropertyIs` | cali-linker/graph/basegraph.h:91-93 | writing a vertex property changes that property and nothing else |
| `Tarjan.DiscoverKeepsInvariant` | cali-linker/graph/scc_algorithms.h:29-34 | discovering a vertex keeps the invariant of roots, discovery times, component numbers, component stack and search path |
| `Tarjan.AdvanceKeepsInvariant` | cali-linker/graph/algorithms.h:230-249 | passing an edge whose target is known keeps it |
| `TarjanFinish.OldestRootCoversSegment` | cali-linker/graph/scc_algorithms.h:37-42 | the folded root reaches back over the whole part of the stack above it |
| `TarjanFinish.SegmentEdgesStayAboveRoot` | cali-linker/graph/scc_algorithms.h:42-53 | if the vertex is its own root, no edge leaves the popped segment for an older unassigned vertex |
| `TarjanFinish.StayKeepsInvariant` | cali-linker/graph/scc_algorithms.h:36-42 | finishing a vertex that is not its own root keeps the invariant |
| `TarjanFinish.PopKeepsInvariant` | cali-linker/graph/scc_algorithms.h:42-53 | closing a component keeps the invariant: the popped vertices are one component, numbered above all components they reach |
| `StrongComponents.TarjanVisitor.DiscoverVertex` | cali-linker/graph/scc_algorithms.h:29-34 | the visitor's state is that of the discovery step |
| `StrongComponents.TarjanVisitor.FoldRoots` | cali-linker/graph/scc_algorithms.h:37-41 | the new root is the oldest among the vertex and the roots of its unassigned targets |
| `StrongComponents.TarjanVisitor.CloseComponent` | cali-linker/graph/scc_algorithms.h:42-53 | pops exactly down to the vertex and numbers what it pops |
| `StrongComponents.TarjanVisitor.FinishVertex` | cali-linker/graph/scc_algorithms.h:36-54 | finishing keeps the invariant in both branches |
| `StrongComponents.ExamineEdge` | cali-linker/graph/algorithms.h:231-248 | one edge of the search: a white target is entered, any other passed |
| `StrongComponents.DepthFirstVisit` | cali-linker/graph/algorithms.h:207-253 | terminates with an empty stack and the invariant |
| `StrongComponents.DepthFirstSearch` | cali-linker/graph/algorithms.h:257-274 | afterwards every vertex is black |
| `StrongComponents.FinalNumbering` | cali-linker/graph/scc_algorithms.h:64-79 | with all vertices black: equal numbers if and only if mutually reachable, numbers 0 to total-1 all used, smaller along edges that leave a component |
| `StrongComponents.FinalEvents` | cali-linker/graph/algorithms.h:207-274 | every vertex was discovered once and finished once |
| `StrongComponents.ComputeComponents` | cali-linker/graph/scc_algorithms.h:64-79 | for every graph: the numbering above, and the two event orders each list every vertex exactly once |
| `Condensation.CondenseNewEdge` | cali-linker/graph/scc_algorithms.h:101-105 | one more input edge is accounted for, without duplicates |
| `Condensation.CondenseOne` | cali-linker/graph/scc_algorithms.h:96-106 | one more input vertex is listed and its edges are accounted for |
| `Condensation.StrongComponentsGraph` | cali-linker/graph/scc_algorithms.h:88-109 | the output lists partition the input vertices and it has an edge if and only if some input edge crosses those components, once |
| `BottomUp.OrderedReachesNoCycle` | cali-linker/graph/algorithms.h:277-284 | what stands after all its successors reaches no cycle |
| `BottomUp.StuckReachesCycle` | cali-linker/graph/algorithms.h:277-284 | a vertex that keeps an unvisited successor for ever reaches a cycle |
| `BottomUp.BottomUpTraversal` | cali-linker/graph/algorithms.h:285-316 | visits exactly the vertices that reach no cycle, each once and after all its targets |
| `DataSccs.CondensationIsAcyclic` | cali-linker/graph/scc_algorithms.h:88-109 | no vertex of the condensation reaches a cycle |
| `DataSccs.GroupsCalleesFirst` | cali-linker/passes/DataDrivenSCCPass.cpp:194-206 | any such traversal of the condensation lists the groups callees first |
| `DataSccs.StoreSccs` | cali-linker/passes/DataDrivenSCCPass.cpp:194-206 | every function is listed, two in the same group if and only if they reach each other, called groups first; the lists stored are those functions, and the recorded size is the largest group's |
| `DataSccs.CalleesComeFirst` | cali-linker/passes/DataDrivenSCCPass.cpp:194-206 | for every out-edge of the call graph the target's group is the source's or an earlier one |
| `DataSccs.GroupIff` | cali-linker/passes/DataDrivenSCCPass.cpp:194-206 | two functions share a group if and only if every set that holds a caller's callees with it holds both or neither |
| `DataSccs.MembersAscend` | cali-linker/graph/scc_algorithms.h:96-100 | the members of a group are listed in ascending order |
| `BreadthFirst.ExamineEdges` | cali-linker/graph/algorithms.h:71-99 | one edge list examined: the frontier keeps its meaning, or a wanted vertex was hit |
| `BreadthFirst.BreadthFirstSearch` | cali-linker/graph/algorithms.h:47-107 | answers true if and only if a wanted vertex is reachable through expandable vertices; otherwise discovers exactly the reachable ones |
| `Pdg.FlowsBackwards` | cali-linker/graph/basegraph.h:153-163 | an edge of a kind is seen alike from its source and its target |
| `SinkReachability.CollectSources` | cali-linker/passes/PDGUtilities.cpp:31-40 | the sources are exactly the indexed vertices of the functions that carry a flag |
| `SinkReachability.SinkStepsAre` | cali-linker/passes/PDGUtilities.cpp:15-29 | what the visitor lets the search follow is backward data flow within the functions |
| `SinkReachability.CalculateSinkReachability` | cali-linker/passes/PDGUtilities.cpp:9-53 | the flag is added to exactly the vertices with a data path to a source whose later vertices are global or in the functions; nothing else changes; the number returned is that of the sources collected |
| `SinkReachability.SecondPassChangesNothing` | cali-linker/passes/PDGUtilities.cpp:9-53 | running the pass again changes nothing |
| `SinkReachability.FlagIff` | cali-linker/passes/PDGUtilities.cpp:9-53 | a vertex ends up flagged if and only if it was, or lies in the least set that holds the sources and with a vertex everything with an edge of kind `Data` or `Part` into it, the vertex belonging to no function or one of the given; nothing else of a vertex changes |
| `SinkReachability.FlagsFollowEdges` | cali-linker/passes/PDGUtilities.cpp:18-30 | such an edge into a vertex that reaches a source leaves its start flagged; whatever is newly flagged is a source or has such an edge |
| `SinkReachability.SourcesOnce` | cali-linker/passes/PDGUtilities.cpp:31-40 | with distinct functions and indices no source is collected twice, so the number returned is that of the sources |
| `SharedMarks.MarkAsShared` | cali-linker/passes/PDGUtilities.cpp:154-162 | terminates on every graph and marks exactly what the vertex reaches by pointer and part edges without passing a marked vertex |
| `SharedMarks.SharedStaysClosed` | cali-linker/passes/PDGUtilities.cpp:154-162 | if the marks were closed under those edges they stay closed, and the new ones are all that the vertex reaches |
| `SharedMarks.MarksCompose` | cali-linker/passes/PDGUtilities.cpp:154-162 | marking from several vertices one after the other, in any order, marks what they reach in the starting graph together |
| `SharedMarks.MarksFollowEdges` | cali-linker/passes/PDGUtilities.cpp:154-162 | from an unmarked vertex: it is marked; the target of every `Deref` and every `Part` edge of a newly marked vertex is marked; every other newly marked vertex is such a target |
| `SharedMarks.MarkIff` | cali-linker/passes/PDGUtilities.cpp:154-162 | the new marks are the least set that holds the vertex and follows `Deref` and `Part` edges to unmarked vertices, or none if it was marked; nothing else of a vertex changes |
| `PointerMarks.FinishesIff` | cali-linker/passes/PDGUtilities.cpp:145-152 | the recursion from a vertex ends if and only if the vertex reaches no cycle of part edges |
| `PointerMarks.DepthIsBounded` | cali-linker/passes/PDGUtilities.cpp:145-152 | without such a cycle it is at most as deep as there are vertices |
| `PointerMarks.OwnPartNeverEnds` | cali-linker/passes/PDGUtilities.cpp:145-152 | from a vertex that is part of itself it never ends |
| `PointerMarks.MarkAsPointerToShared` | cali-linker/passes/PDGUtilities.cpp:145-152 | where it ends, it marks exactly what the vertex or a part of it points to, and what that reaches through unmarked vertices |
| `PointerMarks.ShareWhatIsPointedTo` | cali-linker/passes/PDGUtilities.cpp:145-152 | the same for any vertex that reaches no cycle of part edges |
| `PointerMarks.PointerMarksFollowEdges` | cali-linker/passes/PDGUtilities.cpp:145-152 | the target of every `Deref` edge of the vertex and of all its parts along `Part` edges is marked; a newly marked vertex is such a target, or a newly marked one leads to it |
| `SummaryEdges.SummaryTargets` | cali-linker/passes/PDGReachabilityPass.cpp:376-408 | one search finds exactly the other signature nodes reachable by data flow in the current graph |
| `SummaryEdges.SameReach` | cali-linker/passes/PDGReachabilityPass.cpp:470-474 | summary edges added by earlier searches do not change reachability |
| `SummaryEdges.ShareSource` | cali-linker/passes/PDGReachabilityPass.cpp:415-421 | marks exactly what the source's pointer reaches if what the target points to is shared or reaches a sink and the source's pointer does not reach one; otherwise changes nothing |
| `SummaryEdges.AddSummaries` | cali-linker/passes/PDGReachabilityPass.cpp:410-423 | exactly the edges from the start to its targets are new, the marks are exactly those that one successful check spreads, and for each new edge sharing goes along |
| `SummaryEdges.CalculateSummaryEdges` | cali-linker/passes/PDGReachabilityPass.cpp:376-489 | distinct signature nodes have a summary edge if and only if data flowed between them in the starting graph, whatever the order; edges of other kinds are as before; the marks are exactly the old ones and what the pointers of triggered nodes reach in the starting graph |
| `SummaryEdges.SummaryIff` | cali-linker/passes/PDGReachabilityPass.cpp:376-408 | between distinct nodes there is a `SummaryData` edge if and only if the least set that holds the first and follows edges of kind `Data`, `SummaryData` and `Part` out of nodes, global vertices and vertices of the functions holds the second |
| `SummaryEdges.OnlySummariesNew` | cali-linker/passes/PDGReachabilityPass.cpp:410-423 | every old edge stays; a new one is a `SummaryData` edge with index 0 between distinct nodes; owners and flow flags stay and no mark is taken away |
| `SummaryEdges.SharedAlongSummariesIff` | cali-linker/passes/PDGReachabilityPass.cpp:410-423 | after the pass sharing goes along every summary edge between distinct nodes if and only if nothing spills back in the starting graph |
| `SharingRounds.RoundNext` | cali-linker/passes/PDGReachabilityPass.cpp:470-474 | one more search: its check on the current marks is the trigger on the starting graph, and the marks stay as described |
| `SharingRounds.DerefInIff` | cali-linker/passes/PDG.cpp:106-112 | the answer is the target of the first `Deref` edge, and there is none if and only if there is no such edge |
| `SharingRounds.CheckIff` | cali-linker/passes/PDGReachabilityPass.cpp:415-420 | the check succeeds if and only if what the start points to does not reach a sink and what the target points to is a sink or reaches one |
| `SharingRounds.PromiseKeptIff` | cali-linker/passes/PDGReachabilityPass.cpp:415-421 | for every graph and every order the promise of the comment is kept if and only if no later triggered node's pointer reaches what a node behind an earlier, untouched one points to |
| `SharingRounds.LaterApartKept` | cali-linker/passes/PDGReachabilityPass.cpp:415-421 | the promise is kept if no later node's pointer reaches what another node behind an earlier one points to, whichever checks succeed |
| `SharingRounds.IndependentStayApart` | cali-linker/passes/PDGReachabilityPass.cpp:415-421 | independent nodes meet that condition in every order |
| `SharingRounds.IndependentKept` | cali-linker/passes/PDGReachabilityPass.cpp:415-421 | if no node's pointer target is reached from another's, the promise is kept, and a pointer target is flagged at the end if and only if data flowed from its node into one that pointed to something flagged |
| `SharingExample.PromiseBroken` | cali-linker/passes/PDGReachabilityPass.cpp:415-421 | a graph of eight vertices that ends with a summary edge along which sharing does not go |
| `SharingExample.RunExample` | cali-linker/passes/PDGReachabilityPass.cpp:348-489 | the pass itself, on that graph, ends there |
| `CloneEdges.CopiesOut` | cali-linker/passes/PDGSpecializationPass.cpp:320-324 | the copies leaving a clone are the edges leaving its original, with targets renamed, in order |
| `CloneEdges.CopiesIn` | cali-linker/passes/PDGSpecializationPass.cpp:325-328 | the copies entering a clone from outside are the edges entering its original from there |
| `CloneEdges.PushedCopiesCloned` | cali-linker/passes/PDGSpecializationPass.cpp:318-330 | pushing all copies gives the cloned graph, whatever the order of the map |
| `CloneEdges.CloneGraphEdges` | cali-linker/passes/PDGSpecializationPass.cpp:318-330 | edges among originals and among clones correspond with equal multiplicity, boundary edges are doubled, everything else is unchanged |
| `CloneEdges.WalksCorrespond` | cali-linker/passes/PDGSpecializationPass.cpp:318-330 | a sequence of originals is a walk if and only if their clones are |
| `IpcRefinement.StepCalled` | cali-linker/modules/communication_pair.cpp:186-213 | once the descriptors are shared the call is made, and its arguments agree with those the calling code passed at every position that is no descriptor |
| `IpcRefinement.StoreRequestStep` | cali-linker/modules/communication_pair.cpp:209-243 | each store fills the sending buffer with one more part of the request and keeps the two sides related |
| `IpcRefinement.StoredRequestHolds` | cali-linker/modules/communication_pair.cpp:236-243 | after the stores the buffer holds the arguments in order, the callback number and the code |
| `IpcRefinement.StepTrigger` | libipc/ipc_communication.cpp:119-136 | triggering passes the token, with errno, and finds sending unblocked |
| `IpcRefinement.StepReceiveCall` | libipc/ipc_communication.cpp:139-184 | an arriving request never carries code 1 and starts the handler it names |
| `IpcRefinement.StepReceiveReply` | libipc/ipc_communication.cpp:139-171 | code 1 arrives at the activation that issued the innermost call, never at the library's outer loop |
| `IpcRefinement.StepLoad` | cali-linker/modules/communication_pair.cpp:336-351 | each loaded parameter is the argument the caller stored |
| `IpcRefinement.StepEntered` | cali-linker/modules/communication_pair.cpp:336-355 | the callee starts with exactly the caller's arguments |
| `IpcRefinement.StepExited` | cali-linker/modules/communication_pair.cpp:353-364 | the result is final after a descriptor result is shared; a result that is no descriptor is what the function returned |
| `IpcRefinement.StoreReplyStep` | cali-linker/modules/communication_pair.cpp:366-389 | storing the result and then code 1 fills the buffer with the reply to the pending call |
| `IpcRefinement.StepRespond` | libipc/ipc_communication.cpp:187-205 | responding passes the token back, with errno |
| `IpcRefinement.StepReturned` | cali-linker/modules/communication_pair.cpp:246-248 | the caller continues with exactly the callee's result |
| `IpcRefinement.StepRefines` | libipc/ipc_communication.cpp:119-208 | every step of either side is a step of the synchronous call stack or none |
| `IpcRefinement.RunRefines` | libipc/ipc_communication.cpp:119-208 | every run shows the events of a run of one synchronous call stack |
| `IpcRefinement.ReachableIsSafe` | libipc/ipc_communication.cpp:119-208 | in every reachable state: no warning, stray return or invalid code; one token over both semaphores and the running side; sending blocked exactly on waiting sides; turn is the parity of the call depth |
| `IpcRefinement.NeverStuck` | libipc/ipc_communication.cpp:119-208 | in every reachable state some side can take a step |
| `IpcHistory.RunExplained` | cali-linker/modules/communication_pair.cpp:186-375 | in every run, from the moves and events alone: a reported call has target and arguments of the move that opened it, with each descriptor replaced by what sharing it gave, the later value where a position is named twice; a reported result is the value of its return move, or what sharing it gave |
| `IpcHistory.RunHandsOver` | libipc/ipc_communication.cpp:119-208 | in every run the first event after a call is that the other side enters the target with these arguments, and the first after an exit that the other side gets this result |
| `IpcHistory.ErrnoIsLastSet` | libipc/ipc_communication.cpp:119-208 | whichever side runs user code sees the errno that either side set last |
| `IpcHistory.ChecksNeverFire` | libipc/ipc_communication.cpp:129-191 | in every run whoever hands over the turn is not blocked and whoever gets it is; a reply finds a waiting call, every other message names a function or a callback |
| `IpcProgress.StepKeepsRecords` | cali-linker/modules/communication_pair.cpp:186-260 | no step changes the target or the passed arguments of a call in progress, nor what a finished function returned |
| `IpcProgress.SilentStepFalls` | libipc/ipc_communication.cpp:119-208 | every silent step of the protocol brings the next observable event closer |
| `IpcProgress.SilenceIsBounded` | libipc/ipc_communication.cpp:119-208 | after any run the protocol alone makes at most one step, or at most twice the arity plus the number of descriptors plus four of the one target whose call is in progress, before something is observed |
| `PageBitmap.WithBitThenBit` | libipc/byte_bitset.h:28-37 | writing one bit changes that bit and no other |
| `PageBitmap.FullAndEmptyBytes` | libipc/byte_bitset.h:16-30 | the byte tests for all and none mean every bit and no bit |
| `PageBitmap.SetPageBits` | libipc/byte_bitset.h:32-37 | marking a page through its byte marks that page and no other |
| `PageBitmap.FirstFitIff` | libipc/shared_memory_manager.cpp:378-407 | the bit-by-bit reference finds the least window of free pages and fails exactly if there is none |
| `PageBitmap.ScanByte` | libipc/shared_memory_manager.cpp:393-405 | the bits of a mixed byte carry the scan on or find the first window |
| `PageBitmap.FindContinuousFreePages` | libipc/shared_memory_manager.cpp:378-419 | the byte-skipping scan answers the first fit plus its start cursor, and throws exactly if there is no fit |
| `PageAllocator.RequestSafeIff` | libipc/shared_memory_manager.cpp:421-441 | a request keeps live runs disjoint, off the reserved pages and exactly marked if and only if the run it answers is free |
| `PageAllocator.ExaminedPagesAreFree` | libipc/shared_memory_manager.cpp:366-375 | with the page looked at handed out, every answer is free |
| `PageAllocator.ShiftedPagesAreFreeIff` | libipc/shared_memory_manager.cpp:378-407 | as the code stands the answer is free if and only if the first gap of that many pages is also the first gap of one more |
| `PageAllocator.OnePageHandedOutTwice` | libipc/shared_memory_manager.cpp:378-441 | two one-page requests get the same page whenever the first free page is followed by a free one |
| `PageAllocator.FirstTwoRequestsCollide` | libipc/shared_memory_manager.cpp:336-441 | the first two one-page requests after the start get the same page |
| `PageAllocator.StaysInsideIff` | libipc/shared_memory_manager.cpp:434-437 | with any cursor the marking stays inside the bitmap if and only if first fit, cursor and count together do |
| `PageAllocator.ExaminedStaysInside` | libipc/shared_memory_manager.cpp:434-437 | with cursor 0 it always does |
| `PageAllocator.ShiftedStaysInsideIff` | libipc/shared_memory_manager.cpp:378-437 | as the code stands it leaves the bitmap if and only if the first gap ends with the last page |
| `PageAllocator.WholeBitmapLeavesIt` | libipc/shared_memory_manager.cpp:336-437 | a first request for all the pages that are not reserved leaves it |
| `PageAllocator.FreeAnswersStayInside` | libipc/shared_memory_manager.cpp:421-441 | a run whose answers are free marks nothing behind the bitmap |
| `PageAllocator.FreeSafe` | libipc/shared_memory_manager.cpp:462-467 | giving back any pages but the reserved ones keeps the allocator safe |
| `PageAllocator.MoveSafe` | libipc/shared_memory_manager.cpp:763-777 | moving owned pages to a free run keeps the allocator safe |
| `PageAllocator.MoveUnsafe` | libipc/shared_memory_manager.cpp:763-777 | moving them to a run that is not free does not |
| `PageAllocator.RunSafeIff` | libipc/shared_memory_manager.cpp:421-467 | a run of requests, frees, moves, stores and messages is safe throughout if and only if every request and move in it found its answer free |
| `PageAllocator.ExaminedPagesSafe` | libipc/shared_memory_manager.cpp:336-467 | from the initial state every run that hands out the pages looked at is safe throughout |
| `PageContents.HandedOutZero` | libipc/shared_memory_manager.cpp:421-441 | pages handed out are zero and mapped by the process that asked; no other page changes |
| `PageContents.RunHandsOutZero` | libipc/shared_memory_manager.cpp:421-485 | in every run everything handed out is zero, behind what a move copies, the segment only grows and no process maps more than there is, if nothing lies above the high-water mark at the start or no move is to fewer pages |
| `PageContents.EveryRunHandsOutZero` | libipc/shared_memory_manager.cpp:336-485 | so in every run from the initial state, moves to fewer pages included, and nothing ever lies above the mark |
| `PageContents.StepKeepsHighWater` | libipc/shared_memory_manager.cpp:421-441 | every step keeps the pages above the high-water mark zero and mapped sizes within the segment; if nothing lies above the mark it stays so, whatever is copied |
| `PageContents.StepGrows` | libipc/shared_memory_manager.cpp:424-438 | segment, high-water mark and mapped sizes only grow; after a request or a message the whole segment is mapped |
| `PageContents.ReceiverMapsEverything` | libipc/ipc_communication.cpp:141-153 | after a message its receiver maps every page that was handed out at any time before |
| `PageContents.OwnersKeepTheirData` | libipc/shared_memory_manager.cpp:421-467 | in every run with free answers an owned page keeps its contents until it is written, moved, given back or copied over |
| `PageContents.StoredIsFound` | libipc/shared_memory_manager.cpp:421-467 | what an owner stores is what it finds, in every run with free answers, until the page is written, given back, moved or copied over |
| `PageContents.StepTouches` | libipc/shared_memory_manager.cpp:421-467 | a request touches the pages it answers with, giving back touches their marks, a store one page, a message none |
| `PageContents.OthersKeepMapping` | libipc/shared_memory_manager.cpp:421-441 | no step changes what another process has mapped |
| `PageContents.GrowingMovesSpare` | libipc/shared_memory_manager.cpp:763-777 | in a run without moves to fewer pages nothing is copied over |
| `PageContents.MoveKeepsData` | libipc/shared_memory_manager.cpp:763-777 | pages that are moved to free ones keep their contents as far as there are new ones, and are zero behind them; with at least as many new ones, old and new do not overlap and the old ones stay as they are |
| `PageContents.MovedOver` | libipc/shared_memory_manager.cpp:772-774 | after a move to free pages another owner's page is as before, or holds what the moved page that is copied over it held |
| `PageContents.MoveSparesIff` | libipc/shared_memory_manager.cpp:763-777 | a move to free pages spares all other owners if and only if what it copies over their pages is what they hold anyway |
| `PageContents.MoveSparesWhateverIff` | libipc/shared_memory_manager.cpp:763-777 | it does so for all contents if and only if no page of theirs lies behind the new pages within the old number; moving to at least as many always does |
| `PageContents.CopyDefinedIff` | libipc/shared_memory_manager.cpp:772-774 | the copy stays in the segment and does not overlap if and only if the new pages are at least as many, or there is room for the old number of pages |
| `PageContents.GrowingCopiesDefined` | libipc/shared_memory_manager.cpp:763-777 | in a run with free answers and without moves to fewer pages every copy is defined |
| `ShrinkingExample.ExaminedShrinkingLosesData` | libipc/shared_memory_manager.cpp:763-777 | from every initial state with four pages to give, a run with free answers whose last move, to fewer pages, overwrites another owner's page |
| `ShrinkingExample.ShiftedShrinkingLosesData` | libipc/shared_memory_manager.cpp:366-441 | the same as the code counts pages, with eleven pages |
| `SharedMemory.MarkPages` | libipc/shared_memory_manager.cpp:435-437 | marks exactly the pages of the run that have a bit, and says whether all have one |
| `SharedMemory.SharedMemoryInformation.constructor` | libipc/shared_memory_manager.cpp:336-350 | the reserved pages and only they are marked |
| `SharedMemory.SharedMemoryInformation.RequestContinuousFreePages` | libipc/shared_memory_manager.cpp:371-375 | the whole state after a request is that of the state machine, and whether the marks stayed inside the bitmap |
| `SharedMemory.SharedMemoryInformation.RequestContinuousFreePagesInternal` | libipc/shared_memory_manager.cpp:421-441 | the same without mapping the segment first |
| `SharedMemory.SharedMemoryInformation.FreePages` | libipc/shared_memory_manager.cpp:462-467 | the pages given back and only they are unmarked, nothing else changes |
| `SharedMemory.SharedMemoryInformation.Unmap` | libipc/shared_memory_manager.cpp:779-782 | the whole state is that of giving back the pages, whatever runs they belong to |
| `SharedMemory.SharedMemoryInformation.Remap` | libipc/shared_memory_manager.cpp:763-777 | the whole state is that of the move, to more pages or fewer: request, copy, give back; and whether the copy was defined |
| `SharedMemory.SharedMemoryInformation.ResizeSharedMemory` | libipc/shared_memory_manager.cpp:473-485 | growing adds zero pages, shrinking drops pages and lowers the high-water mark |
| `SharedMemory.SharedMemoryInformation.InternalRemap` | libipc/shared_memory_manager.cpp:711-732 | the process maps at least the whole segment |
| `FdTables.ShareKeepsMatched` | libipc/file_descriptor_manager.cpp:83-106 | sharing keeps the tables mutually inverse and matched descriptors on the same open file |
| `FdTables.ShareRoundTrip` | libipc/file_descriptor_manager.cpp:83-106 | the shared descriptor denotes the same file; sharing again, or back, needs no message and gives the same pair |
| `FdTables.ShareOutcomes` | libipc/file_descriptor_manager.cpp:83-110 | a known descriptor costs nothing, a refused one is answered with itself; otherwise the answer is what the receiver got, the receiver notes the sender's pid and the sender none, and all other descriptors keep entry, pid and file |
| `FdTables.CloseKeepsMatched` | libipc/file_descriptor_manager.cpp:112-149 | closing keeps the tables matched |
| `FdTables.CloseClosesBothEnds` | libipc/file_descriptor_manager.cpp:37-41 | closing a shared descriptor closes and unmaps both ends with one call and no complaint, and no other descriptor is touched; closing any other does not reach the other side |
| `FdTables.RunKeepsMatched` | libipc/file_descriptor_manager.cpp:83-149 | in every run of shares, closes and opens from either side the tables stay matched |
| `FdTables.StepTouches` | libipc/file_descriptor_manager.cpp:83-149 | each step touches the descriptor named on its own side and at most the matching one on the other |
| `FdTables.InitialMatched` | libipc/file_descriptor_manager.cpp:48-76 | the tables set up by the constructor are matched |
| `FdTables.Process.constructor` | libipc/file_descriptor_manager.cpp:48-59 | only the standard descriptors are mapped, each to itself |
| `FdTables.Process.MapToOtherSide` | libipc/file_descriptor_manager.cpp:83-96 | the answer and both processes are those of the sharing step, the failing send included |
| `FdTables.Process.FromOtherSide` | libipc/file_descriptor_manager.cpp:98-106 | the received descriptor is recorded with its sender |
| `FdTables.Process.OnCloseLocal` | libipc/file_descriptor_manager.cpp:112-123 | the entry is cleared, and exactly one call crosses if propagation is asked for and there was an entry |
| `FdTables.Process.InternalCloseFd` | libipc/file_descriptor_manager.cpp:142-149 | the receiving end is closed and cleared without a call back |
| `FdTables.Process.CloseFile` | libipc/file_descriptor_manager.cpp:37-41 | the wrapped close performs the closing step, keeps the tables matched, and the receiver never complains |
| `Glob.MatchesSnoc` | cali-linker/cali_linker/configfile.cpp:172-192 | the last pattern character takes a last piece of the string |
| `Glob.NextCell` | cali-linker/cali_linker/configfile.cpp:167-191 | how a table cell depends on its neighbours follows from the meaning of the pattern |
| `Glob.StrMatch` | cali-linker/cali_linker/configfile.cpp:154-196 | true if and only if the string can be cut into one piece for each pattern character, any piece for `*`, one character for `?`, the character itself otherwise |
| `Glob.LeadingStarMatchesSuffixes` | cali-linker/cali_linker/configfile.cpp:203-206 | a pattern behind a star matches if and only if the pattern matches some suffix |
| `Glob.ContextMatches` | cali-linker/cali_linker/configfile.cpp:199-211 | true if and only if some selector selects the file name, anchored or at its end |

## Left out

- `breadth_first_search_forward` is the two-way search with no backward edges and no wanted vertex; it has no member of its own.
- Visitors are functions of an edge or a vertex. A flag that a visitor sets while it discovers vertices is set along the list of discovered vertices afterwards; no modelled visitor reads what it sets.
- Invocation summaries (cali-linker/passes/PDGReachabilityPass.cpp:426-468) and the collection of signature nodes, which is a parameter.
- `calculateFDReachability` and the descriptor-name classifiers.
- PointerMarks.MarkAsPointerToShared: promises nothing where the recursion does not end.
- `ColorMap::put`, which no traversal uses, and `PDG::uniteSubnodes`, `addSubnodeEdges`, `removeFunction`.
- Protocol: one thread on each side and reliable semaphores. Errors of `semop`, signals, unintended forks, the optional sending lock, remote exit (code -1) and exceptions are not modelled. Values are integers; wrapping of pointers, callbacks and argument lists on the way is the identity.
- The callback manager's tables: a callback is the index that the other side's table holds.
- IpcProgress.SilenceIsBounded: counts the steps of the protocol; calls, returns and nested calls that share a descriptor are choices of the code around it.
- PageAllocator: page contents are bytes, addresses are page numbers, and the page size is 4096; the mutex makes each operation one step. Arithmetic on sizes does not overflow.
- SharedMemory.MarkPages: marks past the end of the bitmap are dropped, where the code would write behind it; what such a write does to other memory is not modelled.
- PageContents.StepKeepsHighWater: where a segment starts out with pages above the high-water mark, it promises nothing for a move to fewer pages; the initial state has none.
- `requestContinousFreePagesForMove` is the internal request; its code after the return and the modes `NO_SHM_MODE` and `MPROTECT_MODE` are left out.
- SharedMemory.SharedMemoryInformation.Remap: a copy that runs past the end of the segment is cut off and an overlapping one takes the old contents, where the code has no defined result; `defined` tells.
- FdTables.Process.MapToOtherSide: descriptors are below 256 as the arrays demand; receiving a sent descriptor does not fail.
- FdTables: one mapping between two processes, closes through the wrapped `close` only, and the standard descriptors open at the fork.
- Glob: the loop counters of `strmatch` are `int` in the code and unbounded here.
- StrongComponents.ComputeComponents: needs fewer vertices than the largest `long`, which marks an unassigned component.
- LLVM code generation and types, nsjail, seccomp, trampolines, the linker's command line, configuration templates, archives and dot output.
