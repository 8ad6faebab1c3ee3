# Verified models of the Noetic packages

Dafny models of the code in this repository with the most state and the most branching, and proofs of what that code is
for. `dafny verify dfyconfig.toml` checks everything.

- **Workflow graph** (`packages/inspector/lib/workflow-graph.ts`). `WorkflowPlan` holds the workflow document and the
  graph drawn from it; between the two stands the plan, the document with every construct under its drawn name.
  `WorkflowDisplay` says which fields can be shown and which make the drawing throw, `WorkflowThrows` on which documents
  it does. `FlowBuilding` is the mutable builder, proved to add exactly the plan's nodes and wires, or to throw.
  `WorkflowDocument` says what a document means: its runs, as sequences of spots (places in the document).
  `WorkflowTraces` says the same of a plan, and what its drawing says (walks along drawn edges, back edges included).
  `WorkflowMeaning` and `WorkflowReach` prove that plan and drawing agree, `WorkflowSpots` and `WorkflowRuns` that naming
  carries spots and runs of the document onto those of the plan, and `WorkflowDrawing` puts the two together: the walks
  of the drawing are the runs of the document. `WorkflowNames` and `WorkflowOrder` prove that names are distinct and that
  the edges without the back edges form an acyclic graph, `WorkflowCoverage` that every drawn node is on some
  start-to-end walk exactly when the document has no dead end. `WorkflowFlows` states all of this on the nodes and edges
  that `toFlow` hands out, and what each node and edge shows: a node is drawn for one spot, under that spot's id or the id
  with a number, as the construct that stands there.
- **Path containment**. `Segments` relates path texts to lists of names; `LexicalPaths` is the purely textual check of
  `packages/acp/src/paths.ts`; `PluginPaths` the check of `packages/agent-plugins/src/paths.ts` against a filesystem of
  files, directories and symbolic links.
- **Terminals**. `Terminals` is the byte window kept of a terminal's output, `CommandLine` the shell quoting together
  with a reader for POSIX shell words that undoes it (`packages/acp/src/terminals.ts`).
- **Turns**. `TurnAccumulator` and `TurnProperties`: folding session updates into a turn's result
  (`packages/acp/src/turn.ts`). `TurnItems` says what the items of the result tell, read against the updates alone.
- **Protocols**, as state machines over every interleaving of their steps, each beside a class that updates the same
  variables in place: `Supervisor` (`packages/inspector/server/host.ts`), `ChatHistory`
  (`packages/chat-sdk/src/history-store.ts`), `Session` (`packages/acp/src/connection.ts` with
  `packages/acp/src/liveness.ts`) and `Permissions` (`packages/acp/src/serve-permissions.ts`).
- **Event translators**. `StreamEvents` is the harness's event stream, `ServePump` turns it into session updates
  (`packages/acp/src/serve-events.ts`), `ChatStream` into chat chunks (`packages/chat-sdk/src/stream-to-chunks.ts`), and
  `CallMarks` holds what both owe a tool call they announced.
- **Blobs**. `Base64` and `Blobs`: moving inline binaries of a JSON value into an artifact store
  (`packages/mcp/src/content.ts`). `BlobProperties` and `BlobRoundTrip` say for which values nothing is left inline, a
  second rewrite changes nothing, and the binaries can be put back.
- `Text` (numerals) and `Wrappers` (a value that may be absent, an attempt that may throw) serve the others.

An asynchronous function is cut at its awaits: each piece between two awaits is one step, and what the environment does
(a reply, an exit, a timeout) is an event that may come at any time. Filesystem contents, clocks, network replies,
hashing and titles are parameters.

## What the proofs found

Each of these is a promise of the code, its comments or its tests that does not hold on every input: an input on which
it fails, and the condition under which it holds, are proved for all inputs.

- The terminal window kept chunk by chunk is meant to be the whole output trimmed once. For output that is UTF-8 text, or
  a beginning of such text, that holds at all chunkings exactly at whole byte limits from 3 on and at limits that are not
  whole (`Terminals.IncrementalIsBatchFromThree`). The comment above `trimToLimit` says that the result never starts
  mid-character: at limits 1 and 2 a character split across chunks leaves a stray continuation byte, limits that are not
  whole ignore characters, and it holds exactly at whole limits from 3 on (`Terminals.BoundaryFromThree`). For arbitrary
  bytes no whole limit is enough (`Terminals.NoWholeLimitForBytes`, `Terminals.ForBytesIffBroken`), and it holds
  for exactly the streams in which no run of more than `limit` continuation bytes stands after the first byte
  (`Terminals.AgreesIffRunsWithin`).
- "The window is empty, so nothing was streamed", which the code relies on before it appends the collected output at
  the end, holds for UTF-8 text exactly at whole limits from 4 on and at limits that are not whole
  (`Terminals.EmptyMeansNothingFromFour`). For arbitrary bytes no whole limit is enough (`Terminals.NoWholeLimitForBytes`);
  the streams that can leave the window empty are those longer than the limit that end in that many continuation bytes
  (`Terminals.CanEmptyIffEndsInRun`), and the appends that empty it are known exactly (`Terminals.AppendEmpties`).
- A limit that is no whole number is accepted, but then one byte more is kept than fits, character boundaries are ignored
  (`Terminals.BrokenLimitExceeds`) and three bytes at a limit of 2.5 do not count as truncated
  (`Terminals.ThreeBytesAtTwoAndAHalf`). The window keeps to the limit and `truncated` means more bytes than the limit, for
  all streams, exactly if the limit is whole (`Terminals.LimitKeptIffWhole`); `Terminals.BrokenLimitMisses` says for which
  streams they fail.
- `storeInlineBlobs` fills its result by assignment, so an entry `__proto__` becomes the prototype of the result, and the
  next pass reads `$blob`, `data` and `mimeType` through it. So a blob can stay inline (`BlobProperties.MaskedBlobIsLeft`),
  one can appear that was not there (`BlobProperties.InheritedBlobIsLeft`), and a second pass can lose a key
  (`BlobProperties.InheritedBlobLosesKeys`). `BlobProperties.NoneLeftIffNothingUnmasked`,
  `BlobProperties.TwiceIsOnceIffTame`, `BlobProperties.TwiceShowsOnceIffTame` and `BlobRoundTrip.ComesBackIffReversible`
  say for exactly which values the promises hold.
- A command without arguments is passed through unquoted, so `a b` is two words (`CommandLine.BareCommandIsALine`). It
  is read back as one word exactly if it is not empty, has no blank, quote, backslash, operator, expansion or pattern
  character, and does not start with `#` or `~` (`CommandLine.BareCommandIsOneWord`). With arguments the round trip always
  holds.
- `project` says that a malformed node is drawn and never thrown over. Missing children are; but a model call without
  instructions, among others, passes the check and throws (`WorkflowThrows.MissingTextThrowsMissingChildDoesNot`). The
  drawing throws exactly if some node it comes to lacks something it shows (`WorkflowThrows.ThrowsIffSomeUnshown`,
  `FlowBuilding.ToFlow`).
- Of the messages claimed by one event only one posts the reply (`ChatStream.PostersAreClaimedApart`); but two messages
  that share a turn can both post it, as when one is injected into a turn started for another
  (`ChatStream.InjectedPostsAgain`). They both post exactly while both are inside a turn
  (`ChatStream.PostedTwiceIffBothInside`).

## Model

| member | source | states |
|---|---|---|
| WorkflowPlan.Unique | packages/inspector/lib/workflow-graph.ts:337-349 | The name given is not taken; it is the id itself if that is free, and otherwise the id with a number from 2 on. |
| WorkflowPlan.FirstFree | packages/inspector/lib/workflow-graph.ts:342-345 | The search for a free suffix ends, for every set of taken names, at the first number whose suffixed name is free. |
| FlowBuilding.FlowBuilder.UniqueId | packages/inspector/lib/workflow-graph.ts:337-349 | The loop ends, by the taken suffixed names still ahead, and takes exactly the name it returns. |
| FlowBuilding.FlowBuilder.Add | packages/inspector/lib/workflow-graph.ts:183-190 | Adds one node under a fresh name; node ids stay distinct and are the taken names. |
| FlowBuilding.FlowBuilder.Connect | packages/inspector/lib/workflow-graph.ts:192-200 | Adds one edge, from and to the nodes given, numbered by the edges before it. |
| FlowBuilding.FlowBuilder.Project | packages/inspector/lib/workflow-graph.ts:207-250 | Throws exactly if something the drawing comes to cannot be shown; otherwise adds to the builder exactly the nodes, wires and names of the node's plan, in order, and returns the plan's entry and exits. |
| FlowBuilding.FlowBuilder.ProjectLeaf | packages/inspector/lib/workflow-graph.ts:301-317 | A leaf is one node that is its own entry and exit, and throws exactly if its detail or a chip cannot be made. |
| FlowBuilding.FlowBuilder.ProjectSubflow | packages/inspector/lib/workflow-graph.ts:280-298 | A document given inline is drawn behind a gate; a named one, or one without a root node, is a leaf. |
| FlowBuilding.FlowBuilder.ProjectChain | packages/inspector/lib/workflow-graph.ts:253-273 | Draws the steps, joins each one's exits to the next one's entry, and has no exits when any step has none. |
| FlowBuilding.FlowBuilder.ProjectInParallel | packages/inspector/lib/workflow-graph.ts:394-449 | Draws the fork and the join before the branches, then each branch from the fork to the join; throws if `paths` cannot be gone through. |
| FlowBuilding.FlowBuilder.ProjectConditional | packages/inspector/lib/workflow-graph.ts:452-483 | The exits are those of every route and of the default, or the bare gate where there is no default; throws at a route that is not there. |
| FlowBuilding.FlowBuilder.ProjectRouteSwitch | packages/inspector/lib/workflow-graph.ts:486-519 | The decision is the entry and leads to the gate; the exits are those of the cases and of the uncertain branch. |
| FlowBuilding.FlowBuilder.ProjectLoop | packages/inspector/lib/workflow-graph.ts:526-553 | The body is the entry, its exits lead to the gate, and one back edge leads from the gate to the body; throws if the predicate cannot be described. |
| FlowBuilding.FlowBuilder.ProjectSchedule | packages/inspector/lib/workflow-graph.ts:556-582 | The gate leads to the step, the step's exits lead back, and there are no exits. |
| FlowBuilding.FlowBuilder.WrapChild | packages/inspector/lib/workflow-graph.ts:623-638 | The gate is the entry, an isolated edge leads to the child, the child's exits are the exits. |
| FlowBuilding.ToFlow | packages/inspector/lib/workflow-graph.ts:89-112 | Throws exactly if the document cannot be shown; otherwise the result is the drawing that the lemmas of `WorkflowFlows` speak of, and node ids are distinct. |
| WorkflowThrows.ThrowsIffSomeUnshown | packages/inspector/lib/workflow-graph.ts:643-691 | The drawing throws exactly if some node it comes to, read on the document alone, lacks or cannot print a field it shows. |
| WorkflowThrows.MissingTextThrowsMissingChildDoesNot | packages/inspector/lib/workflow-graph.ts:207-250 | A model call without instructions throws; a loop without a body is drawn as a hole, whatever else it lacks. |
| WorkflowThrows.LeafNeedsItsText | packages/inspector/lib/workflow-graph.ts:643-662 | A model call, code run, computation or agent call throws without its text and needs nothing else; leaves of other kinds need nothing. |
| WorkflowThrows.LoopsAndContextsNeed | packages/inspector/lib/workflow-graph.ts:526-553 | A loop throws without its predicate and a context without its layers. |
| FlowBuilding.EdgeIdsDistinct | packages/inspector/lib/workflow-graph.ts:192-200 | Edge ids never repeat, whatever the node ids are. |
| WorkflowNames.NameIsFresh | packages/inspector/lib/workflow-graph.ts:183-190 | For every document and every set of taken names, adversarial ids included, the names given are pairwise distinct and new, and the taken set grows by exactly them. |
| WorkflowNames.DrawnHas | packages/inspector/lib/workflow-graph.ts:207-250 | The names in a plan are exactly the ids of the nodes drawn for it. |
| WorkflowNames.FlowNodesDistinct | packages/inspector/lib/workflow-graph.ts:183-190 | No two nodes of the whole drawing share an id. |
| WorkflowTraces.ArcsAreWires | packages/inspector/lib/workflow-graph.ts:192-200 | The arcs read construct by construct are exactly the drawn edges. |
| WorkflowMeaning.CompletesWalks | packages/inspector/lib/workflow-graph.ts:207-298 | Every complete run of a fragment is a walk from its entry to one of its exits. |
| WorkflowMeaning.UnderwayWalks | packages/inspector/lib/workflow-graph.ts:207-298 | Every run still under way is a walk from the fragment's entry. |
| WorkflowMeaning.WalkTraces | packages/inspector/lib/workflow-graph.ts:394-638 | Every walk from a fragment's entry is a run under way, and a complete one if it ends at an exit; no walk mixes branches or skips a step. |
| WorkflowMeaning.WalksAreTraces | packages/inspector/lib/workflow-graph.ts:207-298 | Walks and traces of a fragment coincide, complete ones and unfinished ones. |
| WorkflowReach.FlowWellNamed | packages/inspector/lib/workflow-graph.ts:89-112 | In the whole drawing, terminals included, all names are distinct. |
| WorkflowReach.DrawingMeansPlan | packages/inspector/lib/workflow-graph.ts:89-112 | The walks from start to end are exactly the plan's complete control traces between the terminals. |
| WorkflowReach.DrawingShowsPlan | packages/inspector/lib/workflow-graph.ts:89-112 | The walks from start that have not reached end are exactly the plan's traces under way. |
| WorkflowSpots.NameMirrors | packages/inspector/lib/workflow-graph.ts:207-250 | Naming a document drops, adds and moves no construct and no child. |
| WorkflowSpots.LabelsDiffer | packages/inspector/lib/workflow-graph.ts:337-349 | Two spots of the document never get the same name. |
| WorkflowRuns.RunsIff | packages/inspector/lib/workflow-graph.ts:394-638 | A sequence of spots is a complete run of a node, read on the document, exactly if its names are one of the node's plan. |
| WorkflowRuns.SoFarIff | packages/inspector/lib/workflow-graph.ts:394-638 | The same of runs that may still be going. |
| WorkflowRuns.RunDrawn | packages/inspector/lib/workflow-graph.ts:207-250 | A run passes only through spots that are drawn. |
| WorkflowDrawing.DrawnForOneSpot | packages/inspector/lib/workflow-graph.ts:183-190 | Apart from the terminals the drawn nodes are exactly the names of spots, each of one spot only. |
| WorkflowDrawing.DrawingMeansDocument | packages/inspector/lib/workflow-graph.ts:89-112 | For every document the walks from start to end, back edges included, are exactly its complete runs, spot by spot. |
| WorkflowDrawing.DrawingShowsEveryRun | packages/inspector/lib/workflow-graph.ts:89-112 | For every document the walks from start that have not reached end are the start alone and exactly the runs that may be under way, spot by spot. |
| WorkflowDrawing.CompletableIffSomeRun | packages/inspector/lib/workflow-graph.ts:265-272 | The structural test of a document holds exactly if some run of it comes to an end. |
| WorkflowReach.CompletedCanFinish | packages/inspector/lib/workflow-graph.ts:265-272 | A fragment that has a complete trace can finish by the structural test: no schedule or empty parallel or switch in its way. |
| WorkflowReach.EndReachableIffCompletable | packages/inspector/lib/workflow-graph.ts:265-272 | End is reachable from start exactly when the document itself can complete, judged on the document alone. |
| WorkflowCoverage.Through | packages/inspector/lib/workflow-graph.ts:207-298 | In a fragment without dead ends every drawn node lies on a complete trace. |
| WorkflowCoverage.DeadNode | packages/inspector/lib/workflow-graph.ts:412-449 | A fragment with a schedule, an empty parallel or a case-less switch has a drawn node that no complete trace passes. |
| WorkflowCoverage.EveryNodeUsedIffNoDeadEnd | packages/inspector/lib/workflow-graph.ts:556-582 | Every drawn node lies on some start-to-end walk exactly when the document has no dead end. |
| WorkflowOrder.ReadingDistinct | packages/inspector/lib/workflow-graph.ts:183-190 | The reading order of a drawing lists no node twice. |
| WorkflowOrder.EdgesFollow | packages/inspector/lib/workflow-graph.ts:526-582 | Within a fragment every edge goes along the reading order, and the back edges are exactly the ones that go against it. |
| WorkflowOrder.FlowEdgesFollow | packages/inspector/lib/workflow-layout.ts:105-109 | The same for the whole drawing, terminals included. |
| WorkflowOrder.ForwardEdgesAcyclic | packages/inspector/lib/workflow-layout.ts:105-109 | For every document the edges left after skipping the back edges form an acyclic graph. |
| WorkflowOrder.EdgesJoinDrawnNodes | packages/inspector/lib/workflow-graph.ts:192-200 | Every edge joins two drawn nodes. |
| WorkflowFlows.FlowMeansDocument | packages/inspector/lib/workflow-graph.ts:89-112 | The ways from the start node to the end node along the edges handed out, each followed from its own `from` to its own `to`, are exactly the complete runs of the document, spot by spot. |
| WorkflowFlows.FlowShowsEveryRun | packages/inspector/lib/workflow-graph.ts:89-112 | The ways from the start along those edges that have not come to the end are the start alone and exactly the runs so far. |
| WorkflowFlows.FlowEndReachable | packages/inspector/lib/workflow-graph.ts:265-272 | The end node can be reached along them exactly when the document can complete. |
| WorkflowFlows.FlowNodesAreUsed | packages/inspector/lib/workflow-graph.ts:556-582 | Every node handed out lies on a way from start to end exactly when the document has no dead end. |
| WorkflowFlows.FlowForwardAcyclic | packages/inspector/lib/workflow-layout.ts:105-109 | Without the edges that are marked as back edges no way meets a node twice. |
| WorkflowFlows.FlowBackEdges | packages/inspector/lib/workflow-graph.ts:526-582 | An edge is marked as a back edge exactly if it goes against the reading order. |
| WorkflowFlows.OrderOfNodes | packages/inspector/lib/workflow-graph.ts:89-112 | That order begins with the start and holds every node of the drawing once. |
| WorkflowFlows.FlowIsolatedEdges | packages/inspector/lib/workflow-graph.ts:585-638 | An edge is marked as isolated exactly if it leaves the gate of a spawned or a context-scoped child. |
| WorkflowFlows.FlowEdgesJoinNodes | packages/inspector/lib/workflow-graph.ts:192-200 | Both ends of every edge are ids of nodes of the drawing. |
| WorkflowFlows.FlowIdsDistinct | packages/inspector/lib/workflow-graph.ts:183-200 | No two nodes and no two edges of the drawing share an id. |
| WorkflowFlows.NodesAreSpots | packages/inspector/lib/workflow-graph.ts:207-250 | Between the terminals every node is drawn for one spot: under the id found there or that id with a number from 2 on, and as the kind of node that stands there. |
| Segments.PrefixTestMeansAncestor | packages/agent-plugins/src/paths.ts:43-49 | The string test for containment holds exactly when the parent's names start the child's. |
| Segments.WalkRendered | packages/acp/src/paths.ts:44-61 | Walking the text of a clean path gives the path back. |
| Segments.DotStays | packages/acp/src/paths.ts:44-61 | A dot anywhere in a path makes no difference. |
| Segments.SlashesCollapse | packages/acp/src/paths.ts:44-61 | Neither does a slash doubled or at the end. |
| Segments.UpUndoes | packages/acp/src/paths.ts:44-61 | Two dots undo the name before them, and at the root do nothing. |
| Segments.NameGoesDown | packages/acp/src/paths.ts:44-61 | A name at the end goes one level down. |
| LexicalPaths.NormalizePath | packages/acp/src/paths.ts:44-61 | The segment stack is the walk of all segments from the root, `..` stopping there, and the text is the drive and those segments. |
| LexicalPaths.IsWithinRoots | packages/acp/src/paths.ts:80-92 | The answer is whether some root has the same drive and its segments start the path's. |
| LexicalPaths.StringTestMeansInside | packages/acp/src/paths.ts:80-92 | The comparison of normalized texts means same drive and ancestor directory, both ways. |
| LexicalPaths.NormalizeIdempotent | packages/acp/src/paths.ts:44-61 | Normalizing is idempotent, gives an absolute path, and keeps drive and segments. |
| LexicalPaths.NormalizeWalks | packages/acp/src/paths.ts:44-61 | A path appended to an absolute one is walked from where that one ends. |
| LexicalPaths.SeparatorsAlike | packages/acp/src/paths.ts:44-61 | Paths that differ only in which separator is written normalize alike. |
| LexicalPaths.DriveCaseIgnored | packages/acp/src/paths.ts:44-61 | So do paths that differ in the case of their drive letter. |
| LexicalPaths.InsideIsPreorder | packages/acp/src/paths.ts:80-92 | Containment is reflexive and transitive, and two paths inside each other normalize alike. |
| PluginPaths.ResolveExistingPrefix | packages/agent-plugins/src/paths.ts:83-116 | The climb ends, and its answer is the resolution of the longest prefix that exists with the missing names put back, or none. |
| PluginPaths.ContainedPath | packages/agent-plugins/src/paths.ts:172-203 | Unresolvable if either side is, contained exactly if the resolved root's names start the resolved path's, and escaping otherwise. |
| PluginPaths.ResolvePluginRelative | packages/agent-plugins/src/paths.ts:149-161 | Not relative exactly without a leading `./`; otherwise the containment answer for the path under the root. |
| PluginPaths.ContainedExactly | packages/agent-plugins/src/paths.ts:172-203 | On every disk, from lookups alone: where root and target resolve to `r` and `t`, missing tails included, the answer is contained at `t` if `r` is above it and escaping otherwise; it is unresolvable exactly if a failing lookup or a dangling link stops one of them. |
| PluginPaths.FoundIsCompared | packages/agent-plugins/src/paths.ts:172-203 | Where both are found, the places found are compared, whatever links led there. |
| PluginPaths.LinkedRootContains | packages/agent-plugins/src/paths.ts:174-184 | With a link on the way to the root, as `/var` to `private/var`, everything below the root is contained. |
| PluginPaths.DotSlashIsBelow | packages/agent-plugins/src/paths.ts:149-161 | What a `./` path attempts is the walk of the rest of it from the plugin root. |
| PluginPaths.ParentText | packages/agent-plugins/src/paths.ts:106-113 | Cutting the parent's text off leaves exactly the last name, and only the root is its own parent, so the climb ends there. |
| PluginPaths.Reattaches | packages/agent-plugins/src/paths.ts:93-101 | The first missing name is a link exactly if `lstat` says so, and putting the stack of missing names back gives the path. |
| PluginPaths.FailurePersists | packages/agent-plugins/src/paths.ts:102-108 | What cannot be looked up cannot be looked up further down either, and fails in the same way. |
| PluginPaths.ResolvedHasNoLink | packages/agent-plugins/src/paths.ts:83-116 | No existing component of a resolved path is a link. |
| PluginPaths.ContainedMeansInside | packages/agent-plugins/src/paths.ts:172-203 | A contained path lies component by component under the resolved root and has no link on it, and after plain directories are created along it, it still names that very place. |
| PluginPaths.RefusedExactly | packages/agent-plugins/src/paths.ts:83-116 | Resolution is refused exactly for a failure other than not-found, or a dangling link, on the way. |
| PluginPaths.PlainTreeIsLexical | packages/agent-plugins/src/paths.ts:172-203 | On a readable tree without links the answer is the plain ancestor test on the paths themselves. |
| Terminals.MaskTest | packages/acp/src/terminals.ts:138-140 | The mask test of the trimming loop picks exactly the continuation bytes. |
| Terminals.TrimToLimit | packages/acp/src/terminals.ts:133-142 | At a whole limit keeps the last bytes up to it, from the first byte there that is no continuation byte; at a broken one the last bytes, rounded up, wherever they start. |
| Terminals.TerminalRecord.constructor | packages/acp/src/terminals.ts:171-189 | A limit that is absent or not positive is no limit, and any positive number, whole or not, is one; the window starts empty. |
| Terminals.LimitsOfNumbers | packages/acp/src/terminals.ts:171-174 | The limits that some number gives are exactly the whole ones from 1 on and the broken ones from 0 on. |
| Terminals.TerminalRecord.AppendChunk | packages/acp/src/terminals.ts:276-291 | The record stays the fold of every chunk appended so far. |
| Terminals.NoLimitKeepsEverything | packages/acp/src/terminals.ts:276-284 | Without a limit the window is everything appended, and never marked as truncated. |
| Terminals.TerminalRecord.Finish | packages/acp/src/terminals.ts:202-209 | The collected output is appended exactly if the window is empty and there is any. |
| Terminals.FoldTrims | packages/acp/src/terminals.ts:276-291 | From a whole limit of 3 on the window kept chunk by chunk is the whole stream trimmed once, for every beginning of valid UTF-8 and every chunking. |
| Terminals.IncrementalIsBatchFromThree | packages/acp/src/terminals.ts:133-142 | For a positive limit that agreement holds for all beginnings of valid UTF-8 and all chunkings if and only if the limit is a whole number from 3 on or not whole. |
| Terminals.DisagreesAtOne | packages/acp/src/terminals.ts:133-142 | At limit 1 a three-byte character in two chunks breaks it. |
| Terminals.DisagreesAtTwo | packages/acp/src/terminals.ts:133-142 | At limit 2 a four-byte character in two chunks breaks it. |
| Terminals.WindowOnBoundary | packages/acp/src/terminals.ts:125-142 | For beginnings of valid UTF-8 past a whole limit of at least 3 the window is the end of the stream, starts on a character boundary and is at most three bytes short of the limit. |
| Terminals.BoundaryFromThree | packages/acp/src/terminals.ts:125-142 | For a positive limit the window starts where a character does, for every beginning of valid UTF-8 and every chunking, if and only if the limit is a whole number from 3 on. |
| Terminals.TruncatedIffOver | packages/acp/src/terminals.ts:276-291 | For every stream `truncated` holds exactly when more bytes arrived than a whole limit, or more than one byte over the whole part of a broken one; until then the window is the whole stream. |
| Terminals.LimitKeptIffWhole | packages/acp/src/terminals.ts:276-291 | For all streams `truncated` means more bytes than the limit, and the window keeps to the limit, if and only if the limit is whole. |
| Terminals.BrokenLimitMisses | packages/acp/src/terminals.ts:276-291 | At a broken limit the flag is wrong for exactly the streams of one byte more than fit, and the window too long for exactly those and all longer ones. |
| Terminals.ThreeBytesAtTwoAndAHalf | packages/acp/src/terminals.ts:171-174 | Three bytes at a limit of 2.5 are all kept and not reported as truncated. |
| Terminals.EmptyMeansNothingFromFour | packages/acp/src/terminals.ts:202-209 | For a positive limit and beginnings of valid UTF-8 an empty window means that nothing was streamed if and only if the limit is a whole number from 4 on or not whole. |
| Terminals.AppendEmpties | packages/acp/src/terminals.ts:276-291 | At a whole limit, for any bytes, an append empties the window exactly if window and chunk exceed the limit and the stream then ends in a limit's worth of continuation bytes. |
| Terminals.CanEmptyIffEndsInRun | packages/acp/src/terminals.ts:202-209 | At a whole limit exactly the empty stream and those longer than the limit that end in that many continuation bytes can leave the window empty. |
| Terminals.NoWholeLimitForBytes | packages/acp/src/terminals.ts:202-209 | At every whole limit some non-empty stream of bytes leaves the window empty, and some stream's window is not the stream trimmed once. |
| Terminals.ForBytesIffBroken | packages/acp/src/terminals.ts:202-209 | For all streams of bytes an empty window means that nothing was streamed, and the window is the stream trimmed once, if and only if the limit is not whole. |
| Terminals.AgreesIffRunsWithin | packages/acp/src/terminals.ts:276-291 | At a whole limit and for any bytes the window is the stream trimmed once, at every chunking of every beginning, exactly if no run of more than limit continuation bytes stands after the first byte. |
| Terminals.BrokenLimitExceeds | packages/acp/src/terminals.ts:133-142 | At a limit between two whole numbers the window is the last bytes, one more than fit, wherever a character starts. |
| CommandLine.RoundTrip | packages/acp/src/terminals.ts:72-88 | For every command and non-empty list of arguments a POSIX shell reads back exactly the command and the arguments. |
| CommandLine.LinesDiffer | packages/acp/src/terminals.ts:80-88 | Two invocations with arguments share a command line only if they are the same. |
| CommandLine.BareCommandIsOneWord | packages/acp/src/terminals.ts:81-83 | A command without arguments is read back as that one word exactly if it is not empty, has no character that is special to the reader outside quotes, and does not start with `#` or `~`; the reader takes every `*`, `?` and `[` for a pattern. |
| CommandLine.BareCommandIsALine | packages/acp/src/terminals.ts:81-83 | The command `a b` without arguments is read as two words. |
| TurnAccumulator.RenderToolCallContent | packages/acp/src/turn.ts:58-78 | The parts joined by line breaks, or the raw output when there is no part and one was given. |
| TurnAccumulator.AcpTurnAccumulator.Push | packages/acp/src/turn.ts:104-107 | The fields stay what the pushed updates make of an empty turn. |
| TurnAccumulator.AcpTurnAccumulator.AppendChunk | packages/acp/src/turn.ts:175-186 | The chunk goes on the last text, or opens a new one unless it is empty. |
| TurnAccumulator.AcpTurnAccumulator.Apply | packages/acp/src/turn.ts:188-226 | Exactly the part of the state the kind of update names changes. |
| TurnAccumulator.AcpTurnAccumulator.TrackToolCall | packages/acp/src/turn.ts:228-254 | An announcement replaces the whole call and keeps its place in the order. |
| TurnAccumulator.AcpTurnAccumulator.MergeToolCall | packages/acp/src/turn.ts:256-310 | An update changes only the fields it gives a value for, and starts a call never seen. |
| TurnAccumulator.AcpTurnAccumulator.Result | packages/acp/src/turn.ts:120-162 | The items, the text and the latest snapshots of the updates pushed. |
| TurnProperties.FieldsAreLatest | packages/acp/src/turn.ts:256-310 | Every field of a tracked call is the last value given since its latest announcement (or first mention), `null` counting as none; content is replaced, never appended. |
| TurnProperties.GovernsExists | packages/acp/src/turn.ts:228-310 | Every tracked call has such a starting point. |
| TurnProperties.OrderTidy | packages/acp/src/turn.ts:92-99 | Texts are non-empty and never adjacent, each call stands once, and together they spell out what was said and called, in order. |
| TurnProperties.OrderIsDetermined | packages/acp/src/turn.ts:92-99 | The order is the only list with those properties. |
| TurnProperties.ChunkSplitsFreely | packages/acp/src/turn.ts:175-186 | Splitting a message chunk anywhere changes nothing. |
| TurnProperties.KnownCallsCommute | packages/acp/src/turn.ts:228-310 | Updates to different calls that are already known can change places. |
| TurnProperties.ResultSaysEverything | packages/acp/src/turn.ts:120-162 | The message items concatenate to all message chunks in order. |
| TurnProperties.EveryCallReportedOnce | packages/acp/src/turn.ts:120-162 | The result announces each mentioned call exactly once and has one output for exactly the settled ones. |
| TurnProperties.FinalTextIsLastMessage | packages/acp/src/turn.ts:170-173 | The turn's text is what was said after the last call was first mentioned. |
| TurnProperties.ReasoningIsThoughts | packages/acp/src/turn.ts:193-196 | The reasoning is every thought chunk in order. |
| TurnProperties.SnapshotsAreLast | packages/acp/src/turn.ts:212-226 | Plan, commands and mode are the last ones sent. |
| TurnItems.ItemsTellTheTurn | packages/acp/src/turn.ts:120-162 | The items say what was said and call what was called, interleaved exactly as the updates came. |
| TurnItems.CallsAreTold | packages/acp/src/turn.ts:120-150 | Every announcement carries the latest title, kind and input since the governing start; an output stands directly behind it exactly if the latest status is completed or failed, is marked failed exactly if it is failed, and reads as the latest content, one part per entry in order, or as the raw output. |
| TurnItems.MentionedCallIsTold | packages/acp/src/turn.ts:126-140 | Every call that was mentioned is announced in the items. |
| TurnItems.OutputsFollowCalls | packages/acp/src/turn.ts:141-151 | Every output stands directly behind the announcement of its own call. |
| TurnItems.MessagesStandApart | packages/acp/src/turn.ts:123-126 | Messages are not empty and never stand side by side. |
| TurnItems.RenderedTells | packages/acp/src/turn.ts:58-78 | The rendered output of a call names, in order, each piece of its latest content, a diff by path and new text. |
| TurnItems.UnsetAsSent | packages/acp/src/turn.ts:256-310 | A field that no update gave a value is as the governing one left it. |
| Supervisor.Host.constructor | packages/inspector/server/host.ts:269-270 | Creating the supervisor starts the first pass. |
| Supervisor.Host.DoStopChild | packages/inspector/server/host.ts:146-163 | A child that is gone is dropped at once; one that lives is asked to abort. |
| Supervisor.Host.DoRestart | packages/inspector/server/host.ts:247-268 | While a pass runs a restart only marks it; otherwise a pass begins. |
| Supervisor.Host.OnTrigger | packages/inspector/server/host.ts:272-276 | A trigger is a restart. |
| Supervisor.Host.OnReset | packages/inspector/server/host.ts:277-280 | A reset asks for a wipe and then is a restart. |
| Supervisor.Host.OnStopReturned | packages/inspector/server/host.ts:235-262 | With the old child gone: wipe if asked, then spawn; within a failed spawn, report the error. |
| Supervisor.Host.OnProbed | packages/inspector/server/host.ts:220-233 | A healthy child makes the host ready, any other is stopped again. |
| Supervisor.Host.OnPassEnded | packages/inspector/server/host.ts:263-267 | A marked pass is followed by one more, an unmarked one ends the restart. |
| Supervisor.StepKeeps | packages/inspector/server/host.ts:146-268 | Every event keeps the invariant that ties the variables to what happened so far. |
| Supervisor.RunKeeps | packages/inspector/server/host.ts:146-284 | It holds after every interleaving of triggers, resets, exits and completed waits. |
| Supervisor.AtMostOneChild | packages/inspector/server/host.ts:146-233 | At every moment of every run at most one child is alive, and none when a child is spawned or data is wiped. |
| Supervisor.RunReports | packages/inspector/server/host.ts:195-268 | In every run the reported state is restarting while the old child is stopped, starting until the probe is in and a child that failed it is gone, and then what the probe found. |
| Supervisor.IdleReportsLastProbe | packages/inspector/server/host.ts:221-233 | When idle after a healthy probe it reports ready and holds the child spawned last; after a failed one it reports an error, has no child and nothing is alive. |
| Supervisor.RevisionCounts | packages/inspector/server/host.ts:196-198 | The revision counts the spawns, and the last child carries it. |
| Supervisor.KilledOnlyAfterAbort | packages/inspector/server/host.ts:146-163 | A child is killed only after it was asked to abort and that request settled. |
| Supervisor.EveryRequestServed | packages/inspector/server/host.ts:235-280 | In every interleaving, however many more requests arrive: once the restart has taken as many more steps as a request's rank, the request has been followed by a pass that began after it and spawned, and a reset by a wipe while no child was alive, and a later spawn. |
| Supervisor.RankBounded | packages/inspector/server/host.ts:146-268 | In every reachable state that rank is at most twenty. |
| Supervisor.RankFalls | packages/inspector/server/host.ts:146-280 | No event, requests included, takes a request further from being served, and every step of the restart brings it closer. |
| Supervisor.UnservedCanStep | packages/inspector/server/host.ts:146-268 | Until a request is served such a step is possible. |
| Supervisor.IdleHasServedAll | packages/inspector/server/host.ts:263-267 | An idle supervisor has served every request. |
| Supervisor.RequestsCoalesce | packages/inspector/server/host.ts:247-268 | Requests during a pass begin no pass; its end begins exactly one more if there were any, and none otherwise. |
| Supervisor.PassesAreWanted | packages/inspector/server/host.ts:247-268 | Between any two passes there was a request. |
| Supervisor.EveryStepProgresses | packages/inspector/server/host.ts:146-268 | Every step other than a new request brings the restart closer to idle. |
| Supervisor.NeverStuck | packages/inspector/server/host.ts:146-268 | Until it is idle such a step is possible. |
| Supervisor.ReachesIdle | packages/inspector/server/host.ts:247-268 | From every reachable state the supervisor becomes idle within a bounded number of such steps. |
| ChatHistory.KeyTextsDiffer | packages/chat-sdk/src/history-store.ts:28-29 | No history key and seeded key, and no two threads, share a stored key. |
| ChatHistory.ChatHistoryStore.AppendChatItem | packages/chat-sdk/src/history-store.ts:58-77 | The append waits for the thread's chain entry and becomes the entry. |
| ChatHistory.ChatHistoryStore.OnStart | packages/chat-sdk/src/history-store.ts:61-63 | An append starts once the one it waits for has settled, failed or not. |
| ChatHistory.ChatHistoryStore.OnGetSettled | packages/chat-sdk/src/history-store.ts:43-66 | A failed read settles the append; otherwise what is written is what was read with the item last. |
| ChatHistory.ChatHistoryStore.OnSetSettled | packages/chat-sdk/src/history-store.ts:65-67 | A write that succeeds stores the items, one that fails stores nothing, and both settle the append. |
| ChatHistory.ChatHistoryStore.OnTailSettled | packages/chat-sdk/src/history-store.ts:71-75 | The chain entry goes only if it is still this append's. |
| ChatHistory.StepKeeps | packages/chat-sdk/src/history-store.ts:40-77 | Every step keeps the order of the chain, what is about to be written, and what is stored. |
| ChatHistory.RunKeeps | packages/chat-sdk/src/history-store.ts:40-77 | They hold after every interleaving. |
| ChatHistory.HistoryIsAppendsInOrder | packages/chat-sdk/src/history-store.ts:58-77 | A thread's stored history is its initial items and then the items appended successfully, in call order. |
| ChatHistory.CorruptStartsFresh | packages/chat-sdk/src/history-store.ts:43-55 | A history that is missing or does not parse counts as empty. |
| ChatHistory.NothingIsLost | packages/chat-sdk/src/history-store.ts:58-77 | If no read and no write fails, the items of all concurrent appends are stored, in call order. |
| ChatHistory.SettlesAsReported | packages/chat-sdk/src/history-store.ts:61-67 | Each append settles as its own read and write did. |
| ChatHistory.SeededIffMarked | packages/chat-sdk/src/history-store.ts:78-83 | A thread is seeded exactly if it was at first or has been marked, whatever was appended. |
| ChatHistory.OneAtATime | packages/chat-sdk/src/history-store.ts:58-66 | At most one append per thread is between its wait and its end. |
| ChatHistory.EntryOutlivesWork | packages/chat-sdk/src/history-store.ts:69-75 | A chain entry is removed only when every append on its thread has settled. |
| ChatHistory.CleanedChainIsEmpty | packages/chat-sdk/src/history-store.ts:69-75 | Once every append has cleaned up no chain entry is left. |
| ChatHistory.NeverStuck | packages/chat-sdk/src/history-store.ts:61-67 | An unsettled append, or one before it on its thread, can always take a step, whether reads and writes succeed or fail. |
| Session.AcpSession.OnNotification | packages/acp/src/connection.ts:130-138 | A notification goes to the active turn only, and a command list is kept. |
| Session.AcpSession.OnFinish | packages/acp/src/connection.ts:176-184 | The turn resolves with its own accumulator's result and is no longer active. |
| Session.AcpSession.OnDie | packages/acp/src/liveness.ts:67-82 | Only the first death rejects. |
| Session.OneTurnAtATime | packages/acp/src/connection.ts:140-155 | When a turn is in flight all before it are done, all after it are queued, and it is the active one. |
| Session.TurnsHearTheirOwn | packages/acp/src/connection.ts:130-138 | Each turn accumulates exactly the notifications that arrive while it runs. |
| Session.ResultsAreTheirOwn | packages/acp/src/connection.ts:157-185 | A turn that completes resolves with what those notifications make. |
| Session.TurnsEndAsAnswered | packages/acp/src/connection.ts:157-185 | Each turn ends as what came first while it ran, the answer or the death signal, settled it: with a result exactly if that was a stop. |
| Session.CommandsAreLast | packages/acp/src/connection.ts:130-138 | The command list is the last one sent, inside a turn or not. |
| Session.DeathFiresOnce | packages/acp/src/liveness.ts:57-82 | The death signal has fired once if the agent was ever reported dead, and never otherwise. |
| Session.DeathSettlesEveryPrompt | packages/acp/src/connection.ts:140-185 | After death, whatever else happens and however many prompts follow: a step of the session is possible until a prompt is done, and it is done once as many were taken as the turns up to it still need. |
| Session.StepLeft | packages/acp/src/connection.ts:140-185 | No event, a further prompt included, adds to what the turns up to a given one need, and every step of the session takes from it until that turn is done. |
| Session.QueueSettlesOnItsOwn | packages/acp/src/connection.ts:140-185 | After death all prompts can settle without any answer, within a number of steps given by the queue. |
| Session.OwnStepsProgress | packages/acp/src/connection.ts:140-185 | No step of the session leads away from that. |
| Session.NextInLineRuns | packages/acp/src/connection.ts:147-154 | However earlier turns ended, the first one that is not done can start or is in flight. |
| Permissions.EvaluateServePolicy | packages/acp/src/serve-permissions.ts:31-55 | The tiers are tried deny, ask, allow, and then the default. |
| Permissions.MostRestrictiveWins | packages/acp/src/serve-permissions.ts:31-55 | The answer is the most restrictive decision among the matching rules, and the default exactly when none matches. |
| Permissions.NamingRulesDecide | packages/acp/src/serve-permissions.ts:31-55 | A rule applies exactly if it names the tool or the kind of the call: the answer is what the most restrictive such rule says, and the default when there is none. |
| Permissions.DenyRuleDenies | packages/acp/src/serve-permissions.ts:31-55 | A deny rule naming either denies, whatever else is in the policy. |
| Permissions.RuleOrderIrrelevant | packages/acp/src/serve-permissions.ts:31-55 | The order and repetition of rules make no difference. |
| Permissions.ServePermissionBroker.DoAnswer | packages/acp/src/serve-permissions.ts:118-125 | An answer resolves the pending park and removes it; with none pending it does nothing. |
| Permissions.ServePermissionBroker.DoCancelSession | packages/acp/src/serve-permissions.ts:128-139 | Walking the pending entries in any order unwinds exactly the session's parks. |
| Permissions.AfterKeeps | packages/acp/src/serve-permissions.ts:72-139 | In every interleaving `pending` holds exactly the parks nothing has settled. |
| Permissions.FirstAnswerWins | packages/acp/src/serve-permissions.ts:81-125 | A park is resolved with the first of the replies, failures, deadlines and cancellations meant for it. |
| Permissions.ParksSettleOnce | packages/acp/src/serve-permissions.ts:72-139 | So each park is settled at most once, and pending exactly until then. |
| Permissions.GateOpensOnlyOnAllow | packages/acp/src/serve-permissions.ts:166-222 | A gated call goes ahead exactly if the policy allows it, or asks and the forwarder's allow was the first answer. |
| Permissions.StoppedCallIsTold | packages/acp/src/serve-permissions.ts:166-222 | A call that is stopped is told why: the policy, the deadline, the cancellation or the forwarder, by whichever came first. |
| StreamEvents.NamesExclude | packages/acp/src/serve-events.ts:62-64 | No event type ends with two of the names, so the order in which names are tried does not matter. |
| CallMarks.FlushCompletes | packages/acp/src/serve-events.ts:251-260 | Closing the calls still open leaves each started call closed after it was last opened, once or as often as it completed. |
| ServePump.PumpTurnEvents | packages/acp/src/serve-events.ts:203-240 | The loop sends the notes and ends with the outcome of the event-by-event pump; a stream that ends early counts as cancelled. |
| ServePump.SharedTurnEndsTogether | packages/acp/src/serve-events.ts:76-96 | Pumps claimed by the same event end at the same event with the same outcome, and only the pump of the first id sends anything. |
| ServePump.RelaysUpToFirstBoundary | packages/acp/src/serve-events.ts:262-386 | The sending pump relays its turn's words, thoughts and nested updates once each and in order, and every pump ends at the first boundary of its turn, as completed exactly if that is a completion. |
| ServePump.ClaimMeans | packages/acp/src/serve-events.ts:76-96 | A batch claims exactly the messages in it, and its first one sends. |
| ServePump.OnlyItsOwnTurnEnds | packages/acp/src/serve-events.ts:98-101 | The end of another turn changes nothing; that of its own, or any for a pump that knows of no turn, ends it there. |
| ServePump.OutcomeMeans | packages/acp/src/serve-events.ts:332-386 | A pump ends as the turn did: completed, cancelled by kind or by request, refused, over budget, or with the reason given. |
| ServePump.CallsAreReported | packages/acp/src/serve-events.ts:283-330 | A started call is announced with the arguments last seen for it, a completed one reported with its output, as failed exactly if it failed. |
| ServePump.OpenCallsEndAsTheTurn | packages/acp/src/serve-events.ts:251-260 | A call still open at the boundary is reported as completed or failed as the turn was. |
| ServePump.HandleMarks | packages/acp/src/serve-events.ts:283-330 | Inside the turn exactly the tool-call events announce and settle, each its own call. |
| ServePump.NoCallLeftOpen | packages/acp/src/serve-events.ts:251-330 | When the sending pump ends at a boundary, exactly the started calls were announced, and each is settled after its last announcement: once, or as often as it completed since. |
| ChatStream.StreamToChatChunks | packages/chat-sdk/src/stream-to-chunks.ts:48-124 | The generator's loop yields the chunks of the event-by-event translation. |
| ChatStream.FirstNamingDecides | packages/chat-sdk/src/stream-to-chunks.ts:126-162 | The first event that names the message decides; a batch it does not head, or a drop, ends the translation without a chunk. |
| ChatStream.ClaimMeans | packages/chat-sdk/src/stream-to-chunks.ts:126-162 | What claims, what is left to another message and what drops, read off the event. |
| ChatStream.OnlyItsOwnTurnEnds | packages/chat-sdk/src/stream-to-chunks.ts:107-123 | The end of another turn changes nothing; that of its own, or any after an injection, ends the translation there. |
| ChatStream.ClaimedIffInside | packages/chat-sdk/src/stream-to-chunks.ts:126-162 | A translation is in its turn exactly while some event is the first to name its message, the message heads it, and no boundary of that turn has come since. |
| ChatStream.PostersAreClaimedApart | packages/chat-sdk/src/stream-to-chunks.ts:147-162 | Of the messages claimed by one event only one posts. |
| ChatStream.PostedTwiceIffBothInside | packages/chat-sdk/src/stream-to-chunks.ts:126-162 | Text is posted for two messages exactly while both are inside a turn, each by an event that it heads. |
| ChatStream.InjectedPostsAgain | packages/chat-sdk/src/stream-to-chunks.ts:126-162 | A turn started for one message into which another is injected posts its text for both. |
| ChatStream.ClaimedSpeaks | packages/chat-sdk/src/stream-to-chunks.ts:74-93 | Inside the turn the text so far is the messages so far that had a delta, joined by the separator. |
| ChatStream.PostedTextIsTheMessages | packages/chat-sdk/src/stream-to-chunks.ts:48-124 | The text of a finished turn is its assistant messages that had a delta, and a non-empty abort notice as one more, joined by the separator. |
| ChatStream.AbortPostsItsNotice | packages/chat-sdk/src/stream-to-chunks.ts:111-122 | The notice for the reason given is posted last, after an abort only, unless there is none or it is empty. |
| ChatStream.CardsSayWhatHappened | packages/chat-sdk/src/stream-to-chunks.ts:95-106 | A started call gets a card in progress, a completed one a card that is failed exactly if it failed. |
| ChatStream.EveryCardIsClosed | packages/chat-sdk/src/stream-to-chunks.ts:188-204 | At the boundary every started call has a card and every card is closed after it was last opened. |
| ChatStream.OpenCardsEndAsTheTurn | packages/chat-sdk/src/stream-to-chunks.ts:95-123 | A call still open at the boundary gets a card with the turn's status and the title of its last start. |
| Base64.DecodesWhatWasEncoded | packages/mcp/src/content.ts:24-31 | Decoding undoes encoding, for all bytes. |
| Base64.CanonicalIffWritten | packages/mcp/src/content.ts:24-31 | The texts that come back from decoding and encoding are exactly the encodings of some bytes. |
| Base64.SpaceIgnored | packages/mcp/src/content.ts:24-31 | White space anywhere in a text makes no difference. |
| Base64.PaddingOptional | packages/mcp/src/content.ts:24-31 | A text without its padding decodes alike. |
| Base64.OtherCharactersRefused | packages/mcp/src/content.ts:24-31 | Any other character, or padding where it does not belong, makes the conversion throw. |
| Base64.StrayDigitRefused | packages/mcp/src/content.ts:24-31 | So does a single digit left over. |
| Blobs.ArtifactStore.StoreInlineBlobs | packages/mcp/src/content.ts:95-111 | Throws exactly if some inline blob does not decode; otherwise gives the rewritten value, prototypes included, and the store grows by exactly the blobs' bytes, each under its address. |
| Blobs.ArtifactStore.Put | packages/mcp/src/content.ts:37-45 | The content is held under its address afterwards, and nothing else changes. |
| BlobProperties.RefDescribesBlob | packages/mcp/src/content.ts:37-45 | The ref names the address of the content in the store, how many bytes stand there, their hash and the MIME type. |
| BlobProperties.InlineOfStored | packages/mcp/src/content.ts:47-64 | The rewrite of a value is an inline blob exactly if the value, with its entries `__proto__` as prototypes, reads as one and has one other key. |
| BlobProperties.WithoutProtoNothingIsUnmasked | packages/mcp/src/content.ts:106-110 | Only the key `__proto__` can bring that about. |
| BlobProperties.NoneLeftIffNothingUnmasked | packages/mcp/src/content.ts:95-111 | No inline blob is left exactly if nothing the rewrite comes to becomes one. |
| BlobProperties.MaskedBlobIsLeft | packages/mcp/src/content.ts:106-110 | An object with the keys `$blob` and `__proto__` whose blob stays inline. |
| BlobProperties.InheritedBlobIsLeft | packages/mcp/src/content.ts:53-58 | An object without an inline blob that becomes one, its data read through the prototype it was given. |
| BlobProperties.InheritedBlobLosesKeys | packages/mcp/src/content.ts:53-58 | An object of which the second rewrite makes the blob it inherits, losing its own key. |
| BlobProperties.UnchangedIffSettled | packages/mcp/src/content.ts:95-111 | A value is unchanged exactly if nothing in it is an inline blob, has a prototype or an entry `__proto__`. |
| BlobProperties.TwiceIsOnceIffTame | packages/mcp/src/content.ts:95-111 | The rewrite is the identity on its own output, prototypes included, exactly if nothing becomes an inline blob and nothing is given a prototype. |
| BlobProperties.TwiceShowsOnceIffTame | packages/mcp/src/content.ts:95-111 | Seen as JSON text, the second rewrite succeeds and changes nothing exactly if whatever becomes an inline blob already carries the ref it would be replaced by. |
| BlobRoundTrip.ComesBackIffReversible | packages/mcp/src/content.ts:95-111 | Putting the stored bytes back gives the input exactly if its inline blobs carry canonical base64 and a MIME type only and its other objects have no key `__proto__` and are not refs to stored blobs. |

## Left out

- Display content of the graph: titles, details, chips and edge labels, except for whether making them throws. What was drawn before a throw is not described.
- WorkflowPlan.Node: reading the document from JSON (which values are nodes, lists or fields) is part of the input.
- WorkflowPlan.Name: cases of a route switch are taken in the order they are enumerated; the order is part of the input.
- Graph placement: only the filter on back edges of `workflow-layout.ts` is used.
- Path containment on disk: one snapshot of a POSIX filesystem; a change between `realpath` and `lstat` is not modelled. Errors are not-found (`ENOENT`, `ENOTDIR`) or failed (everything else), and the number of links followed is a parameter.
- Terminals.BrokenLimitExceeds: limits are exact real numbers. In double precision the difference of a length and a limit may round to a whole number, and is then cut as at a whole limit.
- Terminals: handles, killing, releasing, exit statuses and environments.
- CommandLine.RoundTrip: shell grammar above tokens (reserved words, assignment words) is not modelled.
- CommandLine.BareCommandIsOneWord: the reader does not ask whether a pattern is closed or matches a file; a shell leaves `[` without its bracket, and a pattern without a match, as they are.
- Turn updates: content blocks and raw JSON are represented by their text; generated item ids, stop reason, usage and cost are not modelled.
- Supervisor: console, file watcher, health polling as one wait, steps that throw, and `stop()` at shutdown.
- History: items and their JSON are opaque, the store's `set` is atomic, and a text that does not parse is one value.
- Session: capability checks, cancellation, modes and MCP servers; a death is one step whatever caused it.
- Permissions: request ids are fresh, so asking under a used one does nothing.
- ServePump: how a call is presented is a parameter; parsed arguments and nested updates are opaque.
- StreamEvents: the readers of event payloads are abstracted into what they make of them; a member of `messageIds` that is not a text is one that nobody waits for.
- ChatStream: titles and notices are parameters; a consumer that stops reading early is not modelled.
- Blobs: object key order. Prototypes other than those that assigning `__proto__` sets are the built-in ones, and none of the names read is a built-in property. Hashing is an injective parameter. The byte-for-byte copy out of the text `atob` returns is part of `Base64.Decode`. Items of a list are rewritten one after the other, not concurrently.
- Blobs: `convertBlock`, `toolResultOutput` and `resourceValue` would only add easy members.
- Scripts, examples, user interface, transports and the core harness.
