# Mini2 in Dafny

A leader answers paged queries over a data set that is spread over a tree of shard nodes. For the first
page of a request it gathers the shards of all nodes below it, caches the concatenation, and serves the
following pages from the cache. A fair lock admits one query at a time, a reaper thread drops cache
entries that nobody has touched for a while, and a client asks page after page until it is told that
there is no more. The shards are dealt from a table of rows by a script.

The project models these parts and proves what they promise, then composes them into one transition
system in which every interleaving of client sessions, handler steps, reaper sweeps, node crashes and
recoveries is a run. `dafny verify dfyconfig.toml` checks everything.

| file | content |
|---|---|
| `Collections.dfy` | sums over finite sets, sequences without repetition |
| `FairLock.dfy` | the lock object and its critical sections |
| `FairLockRuns.dfy` | all runs of threads using the lock, with their invariant |
| `FairLockTheorems.dfy` | mutual exclusion, accounting, deadlock freedom, bounded overtaking, fairness |
| `FairLockOrder.dfy` | exactly when the lock serves in ticket order |
| `FairLockProgress.dfy` | how long the lock can go on by itself |
| `FairLockFaults.dfy` | what a call that ends without releasing does to the lock |
| `Overlay.dfy` | the overlay graph and breadth-first search over it |
| `TreeBuilders.dfy` | the C++ configuration object and the Python builder |
| `EdgeOrder.dfy` | how the order of the edge list decides parents and siblings |
| `ScatterGather.dfy` | replies over a tree as a function of which nodes answer |
| `ErrorTexts.dfy` | what the text of a failed fetch tells |
| `OverlayTree.dfy` | the tree that child lists describe |
| `TeamNode.dfy` | the C++ service, the Python service and the leader's gather as they run |
| `Records.dfy` | the packed 20-byte record |
| `Paging.dfy` | slicing a payload into pages |
| `LeaderNode.dfy` | the leader object: cache, reaper, `QueryOnce` |
| `ClientSession.dfy` | the client loop against a leader that others use at the same time |
| `ShardFiles.dfy` | dealing rows into nine shard files |
| `Cluster.dfy` | the whole system as a transition system |
| `HandlerSteps.dfy` | a handler's interleaved steps amount to one atomic call |
| `ClusterSafety.dfy` | invariants of every run of the system |
| `ClusterTheorems.dfy` | what clients, cache and queue are guaranteed in every run |
| `ClusterHistory.dfy` | gathers and evictions of a session, counted in the run itself |
| `ClusterFairness.dfy` | overtaking and fairness between sessions |
| `ClusterProgress.dfy` | calls under way come to an end in a bounded number of steps |
| `ClusterLiveness.dfy` | the environment is free to act, and calls that are not lost are answered |
| `ClusterFinish.dfy` | client loops can finish, unless their call is lost |
| `ClusterFaults.dfy` | callers that send negative offsets: exactly when the others can still be served |
| `Pipeline.dfy` | from the rows of the table to the records a client holds |
| `BuiltCluster.dfy` | the end-to-end results over the tree built from an overlay |
| `NodesConfig.dfy` | the shipped configuration, and a table too small for it |

## What is assumed

- A call to a node returns that node's reply or fails; which nodes answer is a parameter (`Net`), and in
  the transition system it changes at any moment, between any two calls of one gather.
- A payload and one chunk together have at most 2^31 bytes, which any payload of up to 2^31 - 1048576
  bytes satisfies (`Paging.SmallIsRoomy`). Within that bound no offset sent by the client loop makes the
  32-bit slicing arithmetic overflow, neither in the loop by itself (`Paging.RoomyFits`) nor in any run of
  the system (`ClusterTheorems.SlicesFit`); `Paging.FitsInt32Exactly` says which calls fit in general.
- A session of the transition system may start at any offset; client loops are those that start at zero.
  Results about what a session receives are about client loops. Results about runs, `NeverStuck` and
  those of `ClusterFaults` apart, are about states reached before any call has ended in an exception;
  without negative offsets these are all states (`ClusterTheorems.NoCallThrows`).
- Sessions use distinct request ids. Ordering and fairness of the lock assume that a client has one
  acquire outstanding at a time. For sessions that take turns on their client ids, a new one starting
  only when the earlier ones with that id are over, this is proved of the client loop
  (`ClusterFairness.SessionsAreSolo`). Safety and deadlock freedom are proved without it.
- The client loop of `ClientSession` runs against arbitrary interference, given as the states it finds at
  each call and each wake-up. It relies on three things: nodes answer with their own shards, an entry
  under its request id holds the full data, and nobody else uses its client id.
  `BuiltCluster.ReachedIsTrusted` proves the first two of every reachable state of the system.
- A node answers with the shard it loaded, except in `ClusterTheorems.SnapshotConsistency`, where a
  node may come back with any other data.
- An explicit `children` map describes a finite tree; for the tree built from the overlay this is
  proved.

## What turned out false

- The order of tickets is not the order of service when calls with one client id overlap: the later call
  overwrites the entry of the earlier one in `waiting_`, and the first of them to pass erases it.
  `FairLockOrder.OverlapBreaksOrder` gives a run. `FairLockOrder.OrderKeptIff` says exactly when the order
  is kept: the least waiter is the only one that a free lock lets pass if and only if its own entry is on
  record or nobody else waits. `FairLockOrder.SoloKeepsOrder` derives this when acquires do not overlap.
- `QueryOnce` does not release the lock on every path: a negative offset makes `substr` throw outside the
  `try` block. `LeaderNode.Leader.Serve` states exactly when, and `LeaderNode.NegativeOffsetWedges` gives
  the call. `ClusterFaults.ServedIffNoneDoomed` states the effect over all runs of sessions that send any
  offsets: a waiting call can still be served if and only if no call has thrown and the turn is not with a
  call at a negative offset that already has its payload. When nobody sends a negative offset neither
  happens.
- A C++ worker that finds its call cancelled leaves its slot empty without an error, so a cancelled call
  can be answered OK in part, or OK where it should fail (`TeamNode.CancelledCallHidesFailure`).
  `TeamNode.CompleteIffNoWorkerCancelled` states exactly when an OK reply is the right one.
- Not every unfinished client loop can still finish: once its call has found a node down, or its reply is
  an error, the loop will end there. `ClusterFinish.LoopFinishesIff` states that this is the only case:
  otherwise the loop can go on to the end, nodes coming back if need be.
- With fewer than nine rows some node below the leader has an empty shard and serves sample records
  instead (`NodesConfig.SmallTableServesSamples`). `Pipeline.RowsServed` shows that the dealt rows are
  served exactly if and only if there are at least nine.

## Model

| member | source | states |
|---|---|---|
| `FairLockTheorems.DebtCountsTurns` | src/leader/leader_node.cpp:49-62 | What a client is told it owes is the number of turns it has completed in the run so far, whoever else was served and whether or not its calls overlapped. |
| `FairLock.FairQueue.TakeTicket` | src/leader/leader_node.cpp:33-36 | A ticket carries the client's present debt and the next arrival number, and replaces any entry under that client id; nothing else of the lock changes. |
| `FairLock.FairQueue.TryPass` | src/leader/leader_node.cpp:38-47 | The turn is taken exactly when nobody has it and no other client's entry is smaller, however the map is scanned; only then is the entry erased. |
| `FairLock.FairQueue.Release` | src/leader/leader_node.cpp:49-54 | A release charges the client one turn and frees the lock. |
| `FairLockRuns.LeastSeesNoSmaller` | src/leader/leader_node.cpp:38-43 | The waiter with the least ticket is never held back by an entry, even when calls under one client id have overwritten or erased entries. |
| `FairLockRuns.StepKeepsInv` | src/leader/leader_node.cpp:33-56 | Every step of every thread keeps: one holder, distinct numbers, each entry owned by a thread still waiting, and no lost wake-up. |
| `FairLockRuns.RunKeepsInv` | src/leader/leader_node.cpp:33-56 | The same over whole runs. |
| `FairLockTheorems.MutualExclusion` | src/leader/leader_node.cpp:33-56 | In every reachable state at most one thread has the turn, all debts add up to the releases, and with the turn in progress to the grants. |
| `FairLockTheorems.NoLostWakeup` | src/leader/leader_node.cpp:38-56 | With the lock free and no notify pending, the thread with the least ticket is awake and its test succeeds. |
| `FairLockTheorems.DeadlockFree` | src/leader/leader_node.cpp:33-56 | While any thread is inside the lock some release, notify or successful test is possible, overlapping calls included. |
| `FairLockTheorems.GrantTicket` | src/leader/leader_node.cpp:24-43 | Whoever is served while another waits has the smaller ticket, issued at its present debt. |
| `FairLockTheorems.QuotaStep` | src/leader/leader_node.cpp:33-56 | One step leaves the number of turns others may still take before a waiter unchanged, or lowers it by exactly one when it hands a turn to another client. |
| `FairLockTheorems.BoundedOvertaking` | src/leader/leader_node.cpp:24-56 | Over any stretch in which a waiter with debt d waits, the grants to others are at most the sum of max(0, d - debt) over the other clients plus one for each ahead with equal debt; each grant is paid from a quota that never rises. |
| `FairLockTheorems.SpentQuotaIsNext` | src/leader/leader_node.cpp:38-47 | When that quota is spent, the waiter is the least and passes as soon as the lock is free. |
| `FairLockTheorems.BackloggedFairness` | src/leader/leader_node.cpp:33-56 | Two clients that start with equal debt and each wait whenever the other is served never differ by more than one turn, among any number of other clients. |
| `FairLockOrder.OverlapBreaksOrder` | src/leader/leader_node.cpp:36-45 | A concrete run with overlapping calls of one client in which a later, larger ticket is served first. |
| `FairLockOrder.RunKeepsNewest` | src/leader/leader_node.cpp:35-36 | In every run an entry is the newest ticket of its client, and no ticket carries more debt than its client owes. |
| `FairLockOrder.PassesOnlyLostEntries` | src/leader/leader_node.cpp:38-45 | In every run a free lock lets a waiter pass if and only if no waiter whose entry is on record has a smaller ticket, its own client's included. |
| `FairLockOrder.NewcomerPasses` | src/leader/leader_node.cpp:33-45 | A newcomer passes a free lock at its first test if and only if no other client's waiter on record has a smaller ticket. |
| `FairLockOrder.OrderKeptIff` | src/leader/leader_node.cpp:33-56 | In every run with a free lock the waiter with the least ticket is the only one that may pass if and only if its own entry is on record or it waits alone. |
| `FairLockOrder.SoloKeepsOrder` | src/leader/leader_node.cpp:33-56 | With one acquire per client outstanding only the least ticket is ever let pass. |
| `FairLockProgress.LockDrains` | src/leader/leader_node.cpp:38-56 | Without new calls and spurious wake-ups, the work of the lock has bounded length however many tests of the predicate fail; work that cannot go on has emptied the lock, after three moves for each waiter, two for the holder and one for each pending notify. |
| `FairLockProgress.CanBeServed` | src/leader/leader_node.cpp:33-56 | From any sound state each waiter can be served by moves of the lock alone. |
| `FairLockFaults.WedgedForever` | src/leader/leader_node.cpp:129-163 | Once the lock is taken by a call that is gone, no run ever grants a turn again. |
| `FairLockFaults.SoundUntilThrow` | src/leader/leader_node.cpp:114-163 | The lock's invariant holds up to the first call that ends in an exception, and from then on the lock is taken by nobody. |
| `FairLockFaults.ServedIffNoThrow` | src/leader/leader_node.cpp:114-163 | At the level of the lock, where any holder may leave by an exception: a waiting call can still be served if and only if none has. |
| `Overlay.NeighboursAreEdges` | src/common/config.hpp:42-47 | Two nodes are neighbours exactly when an edge joins them, in either direction. |
| `EdgeOrder.NeighboursAppend` | src/common/config.hpp:42-47 | Later edges add their neighbours after those of earlier edges. |
| `EdgeOrder.OneEdge` | src/python_server/server.py:25-28 | One edge adds its other end at each end; a self-loop adds its node twice. |
| `Overlay.SpanningTree` | src/common/config.hpp:91-109 | The search reaches exactly the nodes connected to the root, each once, each but the root from an earlier node joined to it by an edge. |
| `Overlay.DepthIsDistance` | src/common/config.hpp:91-109 | The tree path to a node is a walk of the overlay and no walk to it is shorter. |
| `EdgeOrder.ParentIsEarliest` | src/common/config.hpp:97-108 | Of all queued neighbours of a node, the earliest in the queue is its parent. |
| `EdgeOrder.ChildListFollowsEdges` | src/common/config.hpp:101-107 | Children of a node are listed in the order in which the edge list first joins them to it. |
| `TreeBuilders.ClusterConfig.ReadOverlay` | src/common/config.hpp:42-47 | The adjacency lists hold each node's neighbours in edge order, duplicates and self-loops included. |
| `TreeBuilders.FirstLeaderExactly` | src/common/config.hpp:49-53 | The declared leader is the node of the first entry whose role is "leader"; there is none exactly when no entry has that role. |
| `TreeBuilders.ClusterConfig.ChooseRoot` | src/common/config.hpp:49-55 | The root is that leader, failing that the first node id, failing that empty. |
| `TreeBuilders.ClusterConfig.ReadChildren` | src/common/config.hpp:58-63 | Explicit child lists are taken over unchanged. |
| `TreeBuilders.ClusterConfig.Search` | src/common/config.hpp:93-108 | The queue-growing loop ends having scanned every queued node, with child lists that are exactly the search tree's, in queue order. |
| `TreeBuilders.ClusterConfig.BuildTree` | src/common/config.hpp:91-109 | The child lists are those of the breadth-first tree; without a root there are none. |
| `TreeBuilders.ClusterConfig.Load` | src/common/config.hpp:42-66 | The root is the first declared leader, else the first node id, else empty. Explicit lists win over the overlay; otherwise every node has its breadth-first children under that root, and none without a root. |
| `TreeBuilders.PyInvert` | src/python_server/server.py:43-47 | Inverting the parent dictionary in insertion order gives the same lists as appending during the search. |
| `TreeBuilders.PyBuildChildren` | src/python_server/server.py:20-47 | The Python builder fails exactly when there are no explicit lists and no entry has the role "leader"; otherwise it yields the explicit lists or the breadth-first children. |
| `TreeBuilders.BuildersAgree` | src/common/config.hpp:42-66 | With a declared leader the C++ and the Python child lists are equal for every node, in content and order, on every overlay: the explicit lists if there are any, else the breadth-first children. |
| `OverlayTree.MatchesUnique` | src/common/config.hpp:80-84 | Child lists determine the tree below a node, if it is finite. |
| `OverlayTree.BuiltTree` | src/common/config.hpp:91-109 | The child lists built from an overlay describe a finite tree in which exactly the nodes connected to the root occur, each exactly once. |
| `OverlayTree.ConnectTree` | src/team_node/team_node.cpp:19-28 | Nodes that each connect to the children their configuration names form exactly the tree of the child lists. |
| `OverlayTree.ConnectOverlay` | src/leader/leader_node.cpp:83-90 | With a declared leader and no explicit lists, the leader ends up connected to a finite tree in which every other node joined to it by the overlay occurs exactly once, and nothing else. |
| `OverlayTree.PathsAreShortest` | src/common/config.hpp:91-109 | Every root path of that tree is a shortest walk of the overlay. |
| `ScatterGather.FetchShape` | src/team_node/team_node.cpp:81-127 | A fetch succeeds if and only if every node of the subtree is up, and then yields one segment a node in preorder, marked last exactly on leaves. |
| `ScatterGather.Labelled` | src/team_node/team_node.cpp:106-108 | An error slot holds the child's id, a colon, a space and the child's own message. |
| `ScatterGather.FirstFailure` | src/team_node/team_node.cpp:106-118 | A fetch fails exactly when some node is down below ancestors that are up; the message is "child fetch failed: ", id and ": " for each node on the path to the first such node in preorder, then the connection error. |
| `ErrorTexts.GatherFailure` | src/leader/leader_node.cpp:189-205 | The same for the leader's gather, from its child on. |
| `ErrorTexts.TextDeterminesPath` | src/leader/leader_node.cpp:189-205 | When ids have no colon, the message determines which path is broken. |
| `ScatterGather.PathsFollowPreorder` | src/team_node/team_node.cpp:120-124 | The paths blamed by errors end at the nodes in the order of the segments. |
| `ScatterGather.GatherAllOrNothing` | src/leader/leader_node.cpp:202-209 | The leader's gather yields the preorder concatenation of all shards below it, or an error when any node is down; never a part. |
| `ScatterGather.ShardsAppend` | src/leader/leader_node.cpp:207-209 | Shards lie in the order of the nodes, each being what its node holds. |
| `ScatterGather.ShardsAligned` | src/team_node/team_node.cpp:43-47 | Trimmed shards make every gathered payload a whole number of records. |
| `TeamNode.Trimmed` | src/team_node/team_node.cpp:43-47 | What is kept of a shard file is its longest prefix of whole records. |
| `TeamNode.TrimShard` | src/python_server/server.py:95-97 | Dropping the remainder leaves exactly those whole records. |
| `TeamNode.RunWorkers` | src/team_node/team_node.cpp:92-112 | For every completion order of the workers each slot ends up with that child's reply or labelled error. |
| `TeamNode.FirstError` | src/team_node/team_node.cpp:114-118 | The error reported is the one of the first failing child in child order, whichever worker failed first. |
| `TeamNode.CppFetch` | src/team_node/team_node.cpp:76-140 | The parallel service replies as the sequential specification does on the children whose workers did not see the call cancelled. |
| `TeamNode.PyFetch` | src/python_server/server.py:120-153 | The sequential service replies as the specification; when it finds its context inactive before some child it fails rather than answer in part. |
| `TeamNode.Call` | src/team_node/team_node.cpp:100-108 | In any mixture of C++ and Python nodes a call gives the reply of the one specification. |
| `TeamNode.LeaderGather` | src/leader/leader_node.cpp:177-210 | The parallel gather yields the specified outcome for every completion order. |
| `TeamNode.CompleteIffNoWorkerCancelled` | src/team_node/team_node.cpp:93-118 | Any OK reply, whichever workers saw the call cancelled, is the reply the call should have had if and only if none did. |
| `TeamNode.OkIffKeptUp` | src/team_node/team_node.cpp:93-118 | The reply is OK exactly when the node is up and so is each subtree whose worker did not see the call cancelled. |
| `TeamNode.CancelledCallHidesFailure` | src/team_node/team_node.cpp:94 | Node E with its child F down answers a cancelled call OK without F, where an uncancelled call fails. |
| `Records.NumberRoundTrip` | scripts/make_shards.py:62-70 | Little-endian packing of a number in range is undone by unpacking. |
| `Records.BytesRoundTrip` | src/client/main.cpp:97-98 | Unpacking any bytes gives a number in range whose packing is those bytes. |
| `Records.DecodeEncode` | scripts/make_shards.py:61-71 | The client decodes a packed row field by field to what was packed. |
| `Records.EncodeDecode` | src/client/main.cpp:97-98 | Any 20 bytes are the packing of exactly the record decoded from them. |
| `Records.EncodeLayout` | scripts/make_shards.py:12-12 | Byte by byte: key in bytes 0 to 3 modulo 2^32, the two floats in 4 to 11, zip in 12 to 15, year in 16 and 17, status in 18, borough in 19, lowest byte first. |
| `Records.DecodeAppend` | src/client/main.cpp:93-111 | Decoding page by page equals decoding the whole, as long as pages end on record boundaries. |
| `Records.DecodeEncodeAll` | scripts/make_shards.py:94 | A shard file written row by row decodes to those rows. |
| `Paging.PageSizes` | src/leader/leader_node.cpp:107-137 | For each size asked for, when a page is not the last and how long it then is: the whole records of 20 to 1048576 bytes asked for, 120 bytes for none, 20 for less than a record, 1048560 for more than the limit. |
| `Paging.PageFields` | src/leader/leader_node.cpp:139-148 | What each kind of page holds: bytes, the segment's last flag, next offset or -1, and the complete flag. |
| `Paging.Stride` | src/leader/leader_node.cpp:107-112 | A page that is not the last carries the largest number of whole records that fit the defaulted and clamped chunk, at least one. |
| `Paging.FitsInt32Exactly` | src/leader/leader_node.cpp:129-137 | Payload size and offset plus chunk being below 2^31 is exactly the condition for every value the slicing computes to have 32 bits. |
| `Paging.RoomyFits` | src/client/main.cpp:65-114 | With room for payload and one chunk below 2^31, every offset the client loop can send meets that condition. |
| `Paging.SmallIsRoomy` | src/leader/leader_node.cpp:107-112 | Payloads of up to 2^31 - 1048576 bytes leave that room whatever chunk is asked for. |
| `Paging.SlicePage` | src/leader/leader_node.cpp:129-148 | Under exactly that condition no step overflows, the alignment guard always holds when tested, and the page is the specified one; a negative start is the only exception. |
| `Paging.PageCountStep` | src/client/main.cpp:65-115 | Each page but the last reduces the number of calls still needed by one; at the last, one is needed. |
| `Paging.AlignedPage` | src/leader/leader_node.cpp:132-148 | From an aligned offset a page holds exactly the bytes up to an aligned end, and says there is more exactly when that end is not the payload's. |
| `Paging.PagingExact` | src/leader/leader_node.cpp:129-148 | Following the offsets ends, splits no record, loses and repeats no byte, and takes max(1, ceil(total / stride)) pages. |
| `LeaderNode.SweepIsSafe` | src/leader/leader_node.cpp:237-248 | However stale the clock reading, a sweep removes exactly the entries idle for 31 seconds at that reading, so nothing touched within 30 seconds of its removal; survivors are unchanged. |
| `LeaderNode.Leader.Sweep` | src/leader/leader_node.cpp:239-249 | Erasing while iterating, in any order, removes exactly the abandoned entries. |
| `LeaderNode.Leader.FetchOrCache` | src/leader/leader_node.cpp:212-227 | A hit returns the cached payload and touches it; a miss caches the gathered payload; a failed gather changes nothing. |
| `LeaderNode.Leader.Evict` | src/leader/leader_node.cpp:229-232 | Only the one entry goes. |
| `LeaderNode.Leader.Serve` | src/leader/leader_node.cpp:116-165 | The turn is given back exactly once on every path but the exception, which occurs if and only if a payload is available, the call is not cancelled and the offset is negative. A cancelled call leaves the cache alone; a failed gather gives its message and leaves the entry alone; otherwise the page is the specified one and the entry stays with the payload exactly when there is more. No other entry changes. The debt shown with a page is that before the turn is charged. |
| `LeaderNode.Leader.QueryOnce` | src/leader/leader_node.cpp:100-165 | Whatever other threads do to lock, cache and nodes before each of its wake-ups, the call is served at the first test that its ticket passes, with the payload obtainable at that moment, and otherwise it is still waiting and has changed nothing more. |
| `LeaderNode.NegativeOffsetWedges` | src/leader/leader_node.cpp:129-163 | A fresh leader asked at offset -1 throws and keeps the turn. |
| `ClientSession.DecodeEachWhole` | src/client/main.cpp:93-111 | Segment boundaries do not change what is decoded as long as they fall between records. |
| `ClientSession.DecodeSegments` | src/client/main.cpp:93-111 | For any list of segments the nested loops collect exactly the whole records of each, and those of the joined payload when every segment is whole. |
| `ClientSession.NextPage` | src/client/main.cpp:65-114 | However others interleave, a call that is served is answered exactly when it finds a cached payload or all nodes up; then the records extend to the page's end and its next offset is right. It charges one turn and touches no other entry. |
| `ClientSession.PageThrough` | src/client/main.cpp:57-115 | The loop ends at the last page or the first error; at every moment it has the records of exactly the pages received. |
| `ClientSession.RunClient` | src/client/main.cpp:57-115 | Against any number of other clients, sweeps and failing nodes: a client that comes to the end has every record below the leader in preorder after exactly the page count of calls, one turn each; it fails if and only if a call is served that finds no cached payload and a node down. |
| `ShardFiles.DealRows` | scripts/make_shards.py:90-95 | Each file holds the packed rows whose index is its number modulo nine, up to the limit, and each count is the number of them. |
| `ShardFiles.MakeShards` | scripts/make_shards.py:83-95 | The same from fresh files: no limit or one beyond the table deals all rows, a limit deals that many, a negative one none. |
| `ShardFiles.DealSize` | scripts/make_shards.py:90-95 | Shard k of n rows has ceil((n - k) / 9) rows. |
| `ShardFiles.Balanced` | scripts/make_shards.py:93 | Shard sizes differ by at most one, larger ones first. |
| `ShardFiles.Interleaved` | scripts/make_shards.py:93-94 | Row i is entry i / 9 of shard i mod 9: interleaving the shards restores the table. |
| `ShardFiles.NothingLost` | scripts/make_shards.py:90-95 | Any distinct shards together hold exactly their rows, each as often as in the table. |
| `ShardFiles.RowsOfSize` | scripts/make_shards.py:90-95 | Shards B to I hold n - ceil(n / 9) of n rows. |
| `HandlerSteps.FetchAllLocal` | src/leader/leader_node.cpp:184-205 | Replies and error messages depend only on the nodes of the tree. |
| `HandlerSteps.HandlerIsServe` | src/leader/leader_node.cpp:116-165 | At whatever offset, a handler that comes to its return by small steps, with nodes asked in any order, has the status and cache entry that the atomic call promises. |
| `ClusterSafety.LockRefines` | src/leader/leader_node.cpp:114-164 | Every run of the system drives the lock through a run of its own, so all lock theorems apply. |
| `ClusterSafety.OthersUntouched` | src/leader/leader_node.cpp:116-165 | An event leaves every other session's record, lock phase and cache entry alone. |
| `ClusterSafety.StepSafe` | src/leader/leader_node.cpp:100-251 | Every event keeps the system invariant: handler stages match the lock, entries belong to open requests, gathers are paid for by evictions, offsets stay in range. |
| `ClusterSafety.RunSafe` | src/leader/leader_node.cpp:100-251 | The same over whole runs. |
| `ClusterTheorems.OneHandlerAtATime` | src/leader/leader_node.cpp:114-164 | At most one query is between acquire and release, hence at most one gather in flight. |
| `ClusterTheorems.TurnsBalance` | src/leader/leader_node.cpp:114-164 | Over any run all debts add up to the releases, and with the turn in progress to the grants. |
| `ClusterTheorems.OneGatherPerSession` | src/leader/leader_node.cpp:212-251 | A request is gathered at most once more often than the reaper evicted it, once only if its touches are less than 31 seconds apart, and at least once before it is served. |
| `ClusterHistory.GathersInRun` | src/leader/leader_node.cpp:212-251 | The same counted in the run itself: cache misses of a session against removals of its entry by the reaper, and one gather only if it never looks 31 seconds or more after the last touch. |
| `ClusterHistory.FirstPayloadServed` | src/leader/leader_node.cpp:121-148 | While the reaper has not removed its entry, all a client loop has been given is cut from the first payload that a gather for it ended with in the run. |
| `ClusterLiveness.SweepOverRuns` | src/leader/leader_node.cpp:234-249 | However much happens between reading the clock and sweeping, the sweep removes exactly the entries that were idle for 31 seconds at the reading. |
| `ClusterLiveness.AnybodyJoins` | src/client/main.cpp:57-68 | A session may start at any time under a request id not in use, at any offset. |
| `ClusterLiveness.ClientsActFreely` | src/client/main.cpp:65-76 | A loop without a call under way may call, and a client may die, at any time. |
| `ClusterLiveness.ErrorEndsLoop` | src/client/main.cpp:79-82 | A reply that is an error ends the loop with what it has. |
| `ClusterLiveness.NodesActFreely` | src/leader/leader_node.cpp:191-195 | Any node may go down or come back with any data at any time. |
| `ClusterLiveness.TimeAndReaperActFreely` | src/leader/leader_node.cpp:235-238 | Any time may pass, the reaper may read its clock, and waiters may wake for no reason. |
| `ClusterTheorems.CacheHoldsOpenRequests` | src/leader/leader_node.cpp:161-163 | While the lock is free every cache key is a request not yet answered with its last page. |
| `ClusterTheorems.NeverStuck` | src/leader/leader_node.cpp:114-164 | While any call is under way, some handler can take a step or the queue can grant a turn, whichever nodes are down and whatever reaper and clients have done; unless the turn is with a call about to throw, and then only returns of earlier calls can go on. |
| `ClusterTheorems.NoCallThrows` | src/client/main.cpp:57-114 | When no session starts at a negative offset, no run has a call that throws, none is about to, and every offset still to be sent is nonnegative. |
| `ClusterTheorems.SlicesFit` | src/leader/leader_node.cpp:129-137 | In every reachable state the slice that a client loop's handler is about to make has 32-bit values throughout. |
| `ClusterProgress.MoveLowers` | src/leader/leader_node.cpp:114-164 | Every step of a handler or grant of the queue lowers a count of the steps left, which is never negative. |
| `ClusterProgress.WorkLowers` | src/leader/leader_node.cpp:38-56 | Every piece of work of handlers and lock lowers a bound on what is left, failed tests of the predicate included. |
| `ClusterProgress.CallsComplete` | src/leader/leader_node.cpp:114-164 | From any state reached without negative offsets, work on the calls under way has bounded length however many tests fail, work that cannot go on has completed every call, and there is such work. |
| `ClusterLiveness.WorkServes` | src/client/main.cpp:65-115 | With all nodes up, completing a call that is not lost gives its loop one more page. |
| `ClusterLiveness.LostForever` | src/client/main.cpp:79-82 | A loop that has ended with an error, has died, or whose call is lost never finishes. |
| `ClusterFinish.LoopFinishesIff` | src/client/main.cpp:65-115 | In every run without negative offsets, over nodes that keep their shards: an unfinished client loop can go on to receive all the data in the exact number of calls, if and only if its call is not lost. |
| `ClusterFinish.NewLoopFinishes` | src/client/main.cpp:57-115 | At any time a new client loop can start and go on to receive all the data in the exact number of calls, whatever chunk it asks for. |
| `ClusterFaults.SoundUntilThrow` | src/leader/leader_node.cpp:114-163 | The system's invariant holds up to the first exception; from then on nobody has the turn and nobody gets it. |
| `ClusterFaults.DoomedServesNobody` | src/leader/leader_node.cpp:129-141 | Once the turn is with a call at a negative offset that has its payload, no continuation serves anyone else. |
| `ClusterFaults.CanBeServed` | src/leader/leader_node.cpp:114-164 | As long as it is not, every waiting call can be served, even when calls at negative offsets are queued before it: they may fail or be cancelled. |
| `ClusterFaults.ServedIffNoneDoomed` | src/leader/leader_node.cpp:100-165 | Over every run of sessions sending any offsets, a waiting call can still be served if and only if no call has thrown and the turn is not with one that can only throw; both hold when nobody sends a negative offset. |
| `ClusterTheorems.SnapshotConsistency` | src/leader/leader_node.cpp:121-148 | Unless the reaper evicts the request, everything a session is given is a prefix of the one payload gathered for its first page, whatever nodes die or change meanwhile. |
| `BuiltCluster.OverlayEndToEnd` | src/client/main.cpp:65-115 | For the tree built from any overlay, in which each node joined to the leader occurs exactly once: in every reachable state each cache entry is the concatenation of those nodes' shards, each page in progress a slice of it, an unfinished client loop holds exactly its first `offset` bytes, a finished one all of it, in the exact number of calls. |
| `BuiltCluster.OverlayLoopsFinish` | src/client/main.cpp:65-115 | Over the tree built from any overlay each unfinished client loop can go on to receive the shards of all nodes joined to the leader, if and only if its call is not lost. |
| `ClusterTheorems.EndToEnd` | src/leader/leader_node.cpp:100-232 | The same over the nodes of any finite tree, such as one given by explicit child lists. |
| `BuiltCluster.ReachedIsTrusted` | src/leader/leader_node.cpp:100-251 | In every reachable state nodes answer with their own shards and an entry under any request id holds the full data, as the client loop relies on. |
| `ClusterFairness.SessionsAreSolo` | src/client/main.cpp:65-76 | Client loops that take turns on their client ids never have two acquires of one client outstanding; an id may come back for any number of later sessions. |
| `ClusterFairness.SessionOvertaking` | src/leader/leader_node.cpp:24-56 | The overtaking bound holds for such sessions inside the whole system, with debts carried over from session to session. |
| `ClusterFairness.SessionFairness` | src/leader/leader_node.cpp:33-56 | Two clients that start level and each have a call waiting whenever the other is served stay within one turn, over any number of their sessions. |
| `Pipeline.DeployedIsStocked` | src/team_node/team_node.cpp:12-18 | A node whose file holds rows serves exactly those; one without serves its ten sample records. |
| `Pipeline.ServesDealtRows` | src/leader/leader_node.cpp:207-209 | Nodes that all have rows serve exactly their rows, node after node. |
| `Pipeline.ServedExactly` | src/team_node/team_node.cpp:12-18 | Any distinct nodes together serve exactly the rows dealt to them if and only if each was dealt one. |
| `Pipeline.BuiltTreeCovers` | src/common/config.hpp:91-109 | Whatever the links of an overlay joining A to I, the tree built under A has B to I below it, each once. |
| `Pipeline.RowsServed` | scripts/make_shards.py:90-95 | B to I serve exactly the rows whose index is not a multiple of nine, n - ceil(n / 9) of them, if and only if there are at least nine rows. |
| `Pipeline.SamplesAreExtra` | src/team_node/team_node.cpp:12-18 | Nodes serve their dealt rows and exactly ten records more for each node that was dealt none. |
| `Pipeline.RowsReachClient` | src/client/main.cpp:65-115 | Over every interleaving a finished client loop has decoded exactly those rows, in the exact page count of calls; an unfinished one the first of them. |
| `BuiltCluster.OverlayRowsReachClient` | src/client/main.cpp:65-115 | The same over the tree built from any overlay that joins A to I, whatever its links. |
| `BuiltCluster.RowsReachAnybody` | src/client/main.cpp:57-115 | At any time a new client loop can start and come to have decoded exactly the rows dealt to B to I. |
| `NodesConfig.SmallTableServesSamples` | src/team_node/team_node.cpp:12-18 | A table of one row, dealt and deployed, gives a client eighty sample records where it should get none. |
| `NodesConfig.ConfiguredTreeCovers` | config/nodes.yaml:15-18 | The shipped child lists describe a finite tree over all nodes, read in the order B C D E F H G I. |

## Left out

- gRPC channels, protobuf encoding, endpoints, ports and YAML parsing: edges, roles, node ids (in map order) and child lists are values; failing to parse, an unknown node id and the endpoint fallback are not modelled.
- Blocking: `acquire` is its two critical sections, taking a ticket and testing the predicate; the transition system says how threads sleep, wake spuriously and are notified.
- Wrap-around of the ticket number and of debts: both are mathematical integers.
- The reference held across the growing queue vector at `src/common/config.hpp:98`: the scanned id is modelled as a copy, which is what the loop intends.
- LeaderNode.Leader.Serve: calls whose 32-bit sum overflows have no defined result and are excluded; the transition system slices with the unbounded specification, which agrees within that condition.
- LeaderNode.Leader.Serve: cache, gather and slice run without interference; the reaper and changing nodes inside a call are modelled in `Cluster`, step by step.
- TeamNode.RunWorkers: workers finish in any order but each call is one step; interleaving of calls with nodes going up and down is modelled in `Cluster`, node by node.
- TeamNode.PyFetch: the moment at which the context goes inactive is a parameter; which error text the client library shows for it is not modelled.
- In the transition system a gather asks each node once in any order and then folds the answers; a gather cut short by its first failure is not distinguished from one that asks the remaining nodes and then fails.
- Leader restart and shutdown, the reaper's five-second sleep (a sweep may happen at any time) and the join of its thread.
- Sample records: ten records a node, contents as parameters; file search paths and the environment variable.
- CSV reading and the parsing of dates, zip codes, statuses and floats: rows are records whose fields are in range, floats are raw words.
- Counters, latencies and console output.
