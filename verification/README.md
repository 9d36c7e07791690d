# RaftManager: leader coordination and cluster joining

This project models the leader-coordination core of a node in the poke
server (`poke.server.managers.RaftManager`) and proves properties of the
model in Dafny. Two parts are modelled.

The election coordinator, `Managers.RaftManager`:
- a leader-health debounce that answers "not yet" while its retry budget
  (`firstTime`, 2 at start) lasts and "start an election" afterwards;
- the cached leader, overwritten only by a successful election conclusion;
- the lazily built, single election engine;
- dispatch of management messages: WHOISTHELEADER is answered from the
  cache, every other raft action goes to the engine and its reply is
  broadcast;
- the engine's append-only log (`entries`, `logIndex`, `prevLogIndex`, the
  `appendLogs` flag).

The cluster join loop, `Managers.ClusterConnectionManager`:
- a round-robin cursor over the topology's cluster ids;
- it does nothing while no leader is known;
- it skips clusters already in `connMap`;
- for any other cluster it registers the first node that connects and stays
  writable, after writing it a join request.

The network is replaced by parameters:
- `channelUp(id)`: a management channel to node `id` exists;
- `connects(n)` and `writable(n)`: a connect to node `n` succeeds, and its
  channel is writable after the join request is written;
- `engine(m)`: the election engine's reply to `m`;
- `constructOk`: building the configured engine class succeeds.

Messages sent, connection attempts, messages handed to the engine and engine
constructions are kept in ghost fields. The contracts speak about them.

Files:
- `messages.dfy` holds the envelopes, including the join message that
  `createClusterJoinMessage` builds.
- `raft_spec.dfy` holds the value-level specification of the coordinator:
  the debounce, the log and the leader reply.
- `join_spec.dfy` holds the value-level specification of the join loop.
- `managers.dfy` holds the two classes and three client scenarios: a leader
  query answered end to end, the debounce of a fresh node, and a join that
  skips an unreachable node.

Points where the code does less or other than its comments and names suggest; the model follows the code:
- `askWhoIsTheLeader` (RaftManager.java:101-110) reads the cached leader and
  only logs it. It sends no query to peers, so `AssessCurrentState` leaves
  the outbox unchanged.
- `concludeWith` calls `election.clear()` (RaftManager.java:194). That clears
  the engine's per-cycle state. The `election` field stays set, so later
  calls reuse the same engine. The model counts the clears and keeps
  `electionCreated` unchanged.
- The join request is written to every node whose connect succeeds
  (RaftManager.java:355-360). Writability is checked only afterwards. So a
  node that connects but is not writable still receives a join request.
- A failed engine construction leaves `election` null. `processRequest` and
  `createLogs` then dereference null (RaftManager.java:79, 199). The model
  returns `NullPointer` and changes no state.
- `createLogs` casts the engine to `RaftElection` (RaftManager.java:199),
  although the engine class is chosen by a configuration string
  (RaftManager.java:152-158). With any other implementation the call throws
  before touching the log. The model keeps the configured kind in
  `raftEngine` and returns `ClassCast` with no state change.

## Model

Four members are transparent helpers with no contract of their own: `Managers.RaftManager.WhoIsTheLeader`, `Managers.RaftManager.AskWhoIsTheLeader`, `Messages.LeaderIsReply` and `Messages.CreateClusterJoinMessage`. What they do is stated by the rows of `ConcludeWith`, `AssessCurrentState`, `LeaderQueryReplies` and `JoinGoesToRegistered`.

| member | source | states |
|---|---|---|
| `RaftSpec.AssessOutcomesShape` | core-netty-4.4-version-2/src/poke/server/managers/RaftManager.java:89-99 | over n consecutive assessments from budget b, the i-th answer is "start an election" exactly when i >= b: b answers "no", then only "yes" |
| `RaftSpec.BudgetAfterSpends` | core-netty-4.4-version-2/src/poke/server/managers/RaftManager.java:89-99 | each "no" answer spends exactly one unit of a positive budget; the budget stops at 0 and a non-positive budget never changes |
| `RaftSpec.StartupDebounce` | core-netty-4.4-version-2/src/poke/server/managers/RaftManager.java:50 | starting from the initial budget 2, the answers are false, false, then true on every later call |
| `RaftSpec.AppendKeeps` | core-netty-4.4-version-2/src/poke/server/managers/RaftManager.java:197-207 | one append to an append-only log keeps it append-only, overwrites nothing, keeps every entry and adds exactly the index logIndex + 1 |
| `RaftSpec.AppendAllLog` | core-netty-4.4-version-2/src/poke/server/managers/RaftManager.java:197-207 | over n appends: logIndex rises by exactly n, prevLogIndex trails it by one, the i-th name sits at the old index + 1 + i, every earlier entry is kept, and no other index appears |
| `RaftSpec.AppendAllSnoc` | core-netty-4.4-version-2/src/poke/server/managers/RaftManager.java:197-207 | n appends followed by one more append give the same log as n + 1 appends, so the multi-append lemma applies to successive calls |
| `RaftSpec.LeaderQueryReplies` | core-netty-4.4-version-2/src/poke/server/managers/RaftManager.java:112-143 | at most one reply; none exactly when the leader is unknown or no management channel to the requester exists; otherwise a THELEADERIS unicast to the query's originator, naming the cached leader, signed with this node's id and security code -999 (the reply `LeaderIsReply` builds, lines 121-132) |
| `JoinSpec.FirstJoinable` | core-netty-4.4-version-2/src/poke/server/managers/RaftManager.java:351-367 | the position of the first node in listed order that connects and stays writable: that node qualifies and none before it does; None exactly when no node qualifies |
| `JoinSpec.JoinsWrittenShape` | core-netty-4.4-version-2/src/poke/server/managers/RaftManager.java:355-360 | every join request written goes from cluster 35325 and this node to the cluster being joined, addressed to a tried node whose connect succeeded; no more requests than nodes tried (one per listed entry whose connect succeeds, so a node listed twice can receive two) |
| `JoinSpec.JoinGoesToRegistered` | core-netty-4.4-version-2/src/poke/server/managers/RaftManager.java:324-365 | when a cluster has a joinable node, the last join request written, built by `createClusterJoinMessage` (lines 324-338), carries (35325, own id, cluster id, id of the node that gets registered) in its from-cluster, from-node, to-cluster and to-node fields |
| `JoinSpec.NoLeaderNoJoin` | core-netty-4.4-version-2/src/poke/server/managers/RaftManager.java:380-387 | while no leader is known, any number of iterations leaves the connection map and the cursor unchanged |
| `JoinSpec.JoinStepsSplit` | core-netty-4.4-version-2/src/poke/server/managers/RaftManager.java:343-388 | a + b iterations of the loop are a iterations followed by b iterations |
| `JoinSpec.JoinRun` | core-netty-4.4-version-2/src/poke/server/managers/RaftManager.java:343-369 | with a leader known, n iterations from cursor c visit the cluster ids at c..c+n-1; exactly the visited clusters with a joinable node are added, each mapped to its first joinable node; no entry is removed or replaced |
| `JoinSpec.FullPass` | core-netty-4.4-version-2/src/poke/server/managers/RaftManager.java:341-379 | a pass from the first cluster id, plus the iteration that finds the iterator exhausted, connects every listed cluster with a joinable node, keeps every existing entry, and resets the cursor to the first key |
| `Managers.RaftManager.constructor` | core-netty-4.4-version-2/src/poke/server/managers/RaftManager.java:50-56 | a new coordinator has retry budget 2, no leader, no engine, an empty log and nothing sent; it records whether the configured engine is a RaftElection |
| `Managers.RaftManager.AssessCurrentState` | core-netty-4.4-version-2/src/poke/server/managers/RaftManager.java:89-110 | answers "start an election" exactly when the budget is used up; otherwise it spends exactly one unit of the budget and calls `askWhoIsTheLeader`, which only reads the cached leader; nothing is sent and nothing else changes |
| `Managers.RaftManager.RespondToWhoIsTheLeader` | core-netty-4.4-version-2/src/poke/server/managers/RaftManager.java:112-143 | the outbox grows by exactly the replies described by LeaderQueryReplies; no other state changes |
| `Managers.RaftManager.ElectionInstance` | core-netty-4.4-version-2/src/poke/server/managers/RaftManager.java:145-169 | an existing engine is returned without being rebuilt; otherwise one is built when construction succeeds and stays unset when it fails; at most one engine is ever built |
| `Managers.RaftManager.ProcessRequest` | core-netty-4.4-version-2/src/poke/server/managers/RaftManager.java:66-82 | without a raft payload nothing changes; WHOISTHELEADER only produces the leader reply and never reaches the engine; any other action goes to the engine once, and exactly one broadcast is sent iff the engine replies; with no engine the call fails with NullPointer and changes nothing |
| `Managers.RaftManager.ConcludeWith` | core-netty-4.4-version-2/src/poke/server/managers/RaftManager.java:183-195 | after a successful conclusion `whoIsTheLeader` (lines 183-185) returns the winner; after a failed one it returns the previous leader; the engine is cleared exactly once either way |
| `Managers.RaftManager.CreateLogs` | core-netty-4.4-version-2/src/poke/server/managers/RaftManager.java:197-207 | prevLogIndex becomes the old logIndex; logIndex rises by one; the name is stored at the new, previously unused index; every other entry is unchanged; appendLogs is set; with no engine it fails with NullPointer, and with an engine that is not a RaftElection with ClassCast, leaving the log untouched in both cases |
| `Managers.ClusterConnectionManager.constructor` | core-netty-4.4-version-2/src/poke/server/managers/RaftManager.java:288-294 | a new join loop holds the topology, has no connections and its cursor at the first cluster id |
| `Managers.ClusterConnectionManager.RegisterConnection` | core-netty-4.4-version-2/src/poke/server/managers/RaftManager.java:296-298 | the cluster id is mapped to the node, and every other entry is unchanged |
| `Managers.ClusterConnectionManager.JoinCluster` | core-netty-4.4-version-2/src/poke/server/managers/RaftManager.java:347-369 | tries nodes in listed order up to the first joinable one and no further; a join request is written to each node that connects; the cluster is registered to the first joinable node, or the map is unchanged when there is none |
| `Managers.ClusterConnectionManager.RunOnce` | core-netty-4.4-version-2/src/poke/server/managers/RaftManager.java:341-389 | one loop iteration is JoinStep: nothing while no leader is known; reset to the first key when exhausted; skip a connected cluster; otherwise join it. Entries are never removed or replaced. Connection attempts and join requests happen only when a cluster is joined |

## Left out

- Socket I/O is not modelled: the Netty bootstrap, connect options and timeouts, and channel writes (RaftManager.java:300-322, 135-138, 359-360). These become the `connects`, `writable` and `channelUp` parameters plus ghost outboxes.
- Concurrency is not modelled: threads, `synchronized (syncPt)`, the `AtomicReference` singleton (`initManager`, `getInstance`) and the `Thread.sleep` backoffs. `ElectionInstance` is sequential, and the perpetual `run` loop is modelled one iteration at a time (`RunOnce`).
- `startMonitor` is not modelled: it starts the engine's monitor thread and the join thread.
- Managers.RaftManager.ElectionInstance: reflective construction by class name (`Beans.instantiate`) is a foreign call, modelled as the `constructOk` choice. The engine's wiring (`setNodeId`, `setListener`) is not modelled.
- `RaftElection`, `LogMessage` and the engine's monitor are not part of this model. Only the log fields and the `appendLogs` flag are kept. The engine's reply is a parameter, and its internal state is not modelled.
- Managers.RaftManager.ConcludeWith: requires a built engine, because only a built engine is wired to call back (RaftManager.java:160). The NullPointerException that `election.clear()` would throw without one, after a successful call has already overwritten the leader, is not modelled.
- Managers.RaftManager.CreateLogs: the engine's own writes to its log and `appendLogs` flag, from `process` and from its monitor thread, are not modelled. `ProcessRequest` hands messages to the engine without changing the log. The append-only invariant in `Valid` and the "new index was previously unused" clause of `CreateLogs` are proved on the assumption that `createLogs` is the log's only writer.
- Managers.RaftManager.CreateLogs: the log's initial values live in `LogMessage`, which is not part of this model. The constructor starts from an empty log at index 0.
- Managers.RaftManager.CreateLogs: does not model the 32-bit wrap-around of the `Integer` log index after 2^31 - 1 appends. The index is unbounded here.
- Time stamps are not modelled: `lastKnownBeat`, `System.currentTimeMillis()` in the reply header and `electionCycle`. They carry wall-clock values or are never read by the core.
- Logging, `printStackTrace` and the plain getters and setters (RaftManager.java:211-282) are not modelled. They carry no behaviour.
- `ClusterLostListener.operationComplete` only logs and never removes an entry from `connMap`. The model likewise never removes entries. A cluster whose connection is lost is therefore never rejoined.
- The join loop's key order is the iteration order of the topology map's key set, given as `clusterIds`.
