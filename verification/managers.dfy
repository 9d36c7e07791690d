/**
 * The election coordinator (RaftManager) and its cluster join loop
 * (ClusterConnectionManager) as classes whose methods update their fields
 * in place. The network is reduced to parameters: which peers have a
 * management channel open, which remote nodes accept a connection and stay
 * writable, and what the pluggable election engine answers to a message.
 * Messages sent are recorded in ghost outboxes.
 */
module Managers {
  import opened Messages
  import opened RaftSpec
  import opened JoinSpec

  /** How a call into the coordinator ends: normally, with the
      NullPointerException thrown when no election engine could be built, or
      with the ClassCastException thrown when the configured engine is not a
      RaftElection. */
  datatype Completion = Normal | NullPointer | ClassCast

  class RaftManager {
    /** This node's id (from the server configuration). */
    const nodeId: int
    /** Whether the configured election implementation is RaftElection. */
    const raftEngine: bool
    /** Leader queries left before an election is called for. */
    var firstTime: int
    /** The leader, if known. */
    var leaderNode: Option<int>
    /** Whether the election engine has been built. */
    var electionCreated: bool
    /** The engine's log: entries, last index, index before the last append. */
    var entries: map<int, string>
    var logIndex: int
    var prevLogIndex: int
    /** The engine's "entries await replication" flag. */
    var appendLogs: bool

    /** Every message this node has sent, in order. */
    ghost var sent: seq<Outgoing>
    /** Every message handed to the election engine, in order. */
    ghost var engineInbox: seq<Management>
    /** How many election engines have been built. */
    ghost var constructions: nat
    /** How many times the engine's per-cycle state has been cleared. */
    ghost var clears: nat

    ghost predicate Valid()
      reads this
    {
      constructions <= 1 &&
      (electionCreated <==> constructions == 1) &&
      AppendOnly(CurrentLog())
    }

    /** The engine's log as a value. */
    function CurrentLog(): (r: Log)
      reads this
    {
      Log(entries, logIndex, prevLogIndex)
    }

    constructor (nodeId: int, raftEngine: bool)
      ensures Valid()
      ensures this.nodeId == nodeId && this.raftEngine == raftEngine && firstTime == 2 && leaderNode == None
      ensures !electionCreated && constructions == 0 && clears == 0
      ensures CurrentLog() == Log(map[], 0, 0) && !appendLogs
      ensures sent == [] && engineInbox == []
    {
      this.nodeId := nodeId;
      this.raftEngine := raftEngine;
      firstTime := 2;
      leaderNode := None;
      electionCreated := false;
      entries := map[];
      logIndex := 0;
      prevLogIndex := 0;
      appendLogs := false;
      sent := [];
      engineInbox := [];
      constructions := 0;
      clears := 0;
    }

    /** The cached leader. */
    function WhoIsTheLeader(): (r: Option<int>)
      reads this
    {
      leaderNode
    }

    /** Leader health check: while queries remain, spend one and answer
        "not yet"; once they are used up, answer "start an election".
        The leader lookup it makes sends nothing. */
    method AssessCurrentState() returns (startElection: bool)
      requires Valid()
      modifies this`firstTime
      ensures Valid()
      ensures startElection == (old(firstTime) <= 0)
      ensures firstTime == NextBudget(old(firstTime))
      ensures old(firstTime) > 0 ==> firstTime == old(firstTime) - 1
      ensures sent == old(sent)
    {
      if firstTime > 0 {
        firstTime := firstTime - 1;
        AskWhoIsTheLeader();
        startElection := false;
      } else {
        startElection := true;
      }
    }

    /** Reads the cached leader, which RaftManager.java only logs: it sends
        no query to peers and changes nothing. */
    method AskWhoIsTheLeader()
    {
    }

    /** Answers a WHOISTHELEADER query from the cached leader, over the
        management channel to the query's originator if one is open. */
    method RespondToWhoIsTheLeader(query: Management, channelUp: int -> bool)
      modifies this`sent
      ensures sent == old(sent) + LeaderQueryReplies(leaderNode, nodeId, query, channelUp)
    {
      if leaderNode.None? {
        return;
      }
      var reply := LeaderIsReply(nodeId, leaderNode.value);
      var to := query.header.originator;
      if channelUp(to) {
        sent := sent + [Unicast(to, reply)];
      }
    }

    /** The election engine, built on first use and reused afterwards.
        `constructOk` says whether building the configured engine succeeds;
        a failure is only logged and leaves the engine unset. */
    method ElectionInstance(constructOk: bool) returns (present: bool)
      requires Valid()
      modifies this`electionCreated, this`constructions
      ensures Valid()
      ensures present == electionCreated
      ensures old(electionCreated) ==> electionCreated && constructions == old(constructions)
      ensures !old(electionCreated) ==> electionCreated == constructOk
    {
      if !electionCreated {
        if constructOk {
          electionCreated := true;
          constructions := constructions + 1;
        }
      }
      present := electionCreated;
    }

    /** Dispatches one management message. Without a raft payload it is
        ignored; a WHOISTHELEADER query is answered from the cached leader
        without involving the engine; any other action goes to the engine,
        whose reply, if any, is broadcast. `engine` is the engine's answer
        to a message. */
    method ProcessRequest(m: Management, engine: Management -> Option<Management>,
                          constructOk: bool, channelUp: int -> bool) returns (c: Completion)
      requires Valid()
      modifies this`sent, this`engineInbox, this`electionCreated, this`constructions
      ensures Valid()
      ensures m.raft.None? ==>
                c == Normal && sent == old(sent) && engineInbox == old(engineInbox) &&
                electionCreated == old(electionCreated) && constructions == old(constructions)
      ensures m.raft.Some? && m.raft.value.action == Action.WhoIsTheLeader ==>
                c == Normal && sent == old(sent) + LeaderQueryReplies(leaderNode, nodeId, m, channelUp) &&
                engineInbox == old(engineInbox) &&
                electionCreated == old(electionCreated) && constructions == old(constructions)
      ensures m.raft.Some? && m.raft.value.action != Action.WhoIsTheLeader ==>
                electionCreated == (old(electionCreated) || constructOk) &&
                (electionCreated ==>
                   c == Normal && engineInbox == old(engineInbox) + [m] &&
                   sent == old(sent) + (if engine(m).Some? then [Broadcast(engine(m).value)] else [])) &&
                (!electionCreated ==>
                   c == NullPointer && engineInbox == old(engineInbox) && sent == old(sent))
    {
      if m.raft.None? {
        return Normal;
      }
      if m.raft.value.action == Action.WhoIsTheLeader {
        RespondToWhoIsTheLeader(m, channelUp);
        return Normal;
      }
      var present := ElectionInstance(constructOk);
      if !present {
        return NullPointer;
      }
      engineInbox := engineInbox + [m];
      var rtn := engine(m);
      if rtn.Some? {
        sent := sent + [Broadcast(rtn.value)];
      }
      c := Normal;
    }

    /** The engine's conclusion callback: a successful election installs
        its leader; in every case the engine's per-cycle state is cleared. */
    method ConcludeWith(success: bool, leaderId: Option<int>)
      requires Valid() && electionCreated
      modifies this`leaderNode, this`clears
      ensures Valid()
      ensures WhoIsTheLeader() == if success then leaderId else old(WhoIsTheLeader())
      ensures clears == old(clears) + 1
    {
      if success {
        leaderNode := leaderId;
      }
      clears := clears + 1;
    }

    /** Appends `name` to the engine's log at the next index and flags the
        engine that entries await replication. With no engine (building it
        fails), or an engine that is not a RaftElection, the call throws
        before touching the log. */
    method CreateLogs(name: string, constructOk: bool) returns (c: Completion)
      requires Valid()
      modifies this`entries, this`logIndex, this`prevLogIndex, this`appendLogs,
               this`electionCreated, this`constructions
      ensures Valid()
      ensures electionCreated == (old(electionCreated) || constructOk)
      ensures old(electionCreated) ==> constructions == old(constructions)
      ensures electionCreated && raftEngine ==>
                c == Normal && CurrentLog() == Append(old(CurrentLog()), name) && appendLogs
      ensures electionCreated && raftEngine ==>
                prevLogIndex == old(logIndex) && logIndex == old(logIndex) + 1 &&
                logIndex !in old(entries) && entries == old(entries)[logIndex := name]
      ensures !electionCreated ==>
                c == NullPointer && CurrentLog() == old(CurrentLog()) && appendLogs == old(appendLogs)
      ensures electionCreated && !raftEngine ==>
                c == ClassCast && CurrentLog() == old(CurrentLog()) && appendLogs == old(appendLogs)
    {
      var present := ElectionInstance(constructOk);
      if !present {
        return NullPointer;
      }
      if !raftEngine {
        return ClassCast;
      }
      AppendKeeps(CurrentLog(), name);
      var index := logIndex;
      prevLogIndex := index;
      index := index + 1;
      logIndex := index;
      entries := entries[index := name];
      present := ElectionInstance(constructOk);
      appendLogs := true;
      c := Normal;
    }
  }

  /** The background join loop: walks the cluster ids round-robin and, once
      a leader is known, connects to each remote cluster not yet connected. */
  class ClusterConnectionManager {
    /** The coordinator whose leader gates the loop. */
    const raft: RaftManager
    /** The topology's cluster ids, in iteration order. */
    const clusterIds: seq<int>
    /** The topology: cluster id -> its nodes, in listed order. */
    const clusterMap: map<int, seq<NodeDesc>>
    /** Cluster id -> id of the node its connection goes to. */
    var connMap: map<int, int>
    /** Position of the cluster-id iterator; |clusterIds| when exhausted. */
    var cursor: nat

    /** Every node a connection was attempted to, in order. */
    ghost var attempts: seq<NodeDesc>
    /** Every join request written, in order. */
    ghost var joinsSent: seq<JoinMessage>

    ghost predicate Valid()
      reads this
    {
      cursor <= |clusterIds| &&
      (forall i :: 0 <= i < |clusterIds| ==> clusterIds[i] in clusterMap)
    }

    /** The loop's state as a value. */
    function State(): (r: JoinState)
      reads this
    {
      JoinState(connMap, cursor)
    }

    constructor (raft: RaftManager, clusterMap: map<int, seq<NodeDesc>>, clusterIds: seq<int>)
      requires forall i :: 0 <= i < |clusterIds| ==> clusterIds[i] in clusterMap
      requires forall k :: k in clusterMap ==> k in clusterIds
      ensures Valid()
      ensures this.raft == raft && this.clusterMap == clusterMap && this.clusterIds == clusterIds
      ensures connMap == map[] && cursor == 0 && attempts == [] && joinsSent == []
    {
      this.raft := raft;
      this.clusterMap := clusterMap;
      this.clusterIds := clusterIds;
      connMap := map[];
      cursor := 0;
      attempts := [];
      joinsSent := [];
    }

    method RegisterConnection(key: int, node: int)
      modifies this`connMap
      ensures connMap == old(connMap)[key := node]
    {
      connMap := connMap[key := node];
    }

    /** Tries the nodes of cluster `key` in listed order: each node that
        connects is sent a join request, and the first that stays writable
        is registered for the cluster and ends the attempt. */
    method JoinCluster(key: int, connects: NodeDesc -> bool, writable: NodeDesc -> bool)
      requires key in clusterMap
      modifies this`connMap, this`attempts, this`joinsSent
      ensures connMap == match Target(clusterMap, key, connects, writable)
                         case Some(node) => old(connMap)[key := node]
                         case None => old(connMap)
      ensures attempts == old(attempts) + Tried(clusterMap[key], connects, writable)
      ensures joinsSent == old(joinsSent) +
                           JoinsWritten(Tried(clusterMap[key], connects, writable), connects, raft.nodeId, key)
    {
      var nodes := clusterMap[key];
      var self := raft.nodeId;
      var i := 0;
      var found := false;
      while i < |nodes| && !found
        invariant 0 <= i <= |nodes|
        invariant attempts == old(attempts) + nodes[..i]
        invariant joinsSent == old(joinsSent) + JoinsWritten(nodes[..i], connects, self, key)
        invariant !found ==> connMap == old(connMap)
        invariant !found ==> forall j :: 0 <= j < i ==> !Joinable(nodes[j], connects, writable)
        invariant found ==> 0 < i && Joinable(nodes[i - 1], connects, writable) &&
                            (forall j :: 0 <= j < i - 1 ==> !Joinable(nodes[j], connects, writable)) &&
                            connMap == old(connMap)[key := nodes[i - 1].nodeId]
      {
        var n := nodes[i];
        assert nodes[..i + 1] == nodes[..i] + [n];
        JoinsWrittenSnoc(nodes[..i], n, connects, self, key);
        attempts := attempts + [n];
        var req := CreateClusterJoinMessage(LocalClusterId, self, key, n.nodeId);
        if connects(n) {
          joinsSent := joinsSent + [req];
          if writable(n) {
            RegisterConnection(key, n.nodeId);
            found := true;
          }
        }
        i := i + 1;
      }
      if found {
        FirstJoinableAt(nodes, i - 1, connects, writable);
        assert Tried(nodes, connects, writable) == nodes[..i];
      } else {
        assert nodes[..i] == nodes;
      }
    }

    /** One iteration of the join loop. */
    method RunOnce(connects: NodeDesc -> bool, writable: NodeDesc -> bool)
      requires Valid()
      modifies this`connMap, this`cursor, this`attempts, this`joinsSent
      ensures Valid()
      ensures State() == JoinStep(old(State()), clusterIds, clusterMap, raft.WhoIsTheLeader().Some?,
                                  connects, writable)
      ensures forall k :: k in old(connMap) ==> k in connMap && connMap[k] == old(connMap)[k]
      ensures var joining := raft.WhoIsTheLeader().Some? && old(cursor) < |clusterIds| &&
                             clusterIds[old(cursor)] !in old(connMap);
              if joining then
                var nodes := clusterMap[clusterIds[old(cursor)]];
                attempts == old(attempts) + Tried(nodes, connects, writable) &&
                joinsSent == old(joinsSent) +
                             JoinsWritten(Tried(nodes, connects, writable), connects, raft.nodeId,
                                          clusterIds[old(cursor)])
              else
                attempts == old(attempts) && joinsSent == old(joinsSent)
    {
      if raft.WhoIsTheLeader().None? {
        return;
      }
      if cursor >= |clusterIds| {
        cursor := 0;
        return;
      }
      var key := clusterIds[cursor];
      cursor := cursor + 1;
      if key !in connMap {
        JoinCluster(key, connects, writable);
      }
    }
  }

  /** Node 1 learns from its election that node 2 leads, then answers node
      3's leader query with THELEADERIS naming node 2. */
  method LeaderQueryScenario()
  {
    var rm := new RaftManager(1, true);
    var ok := rm.ElectionInstance(true);
    rm.ConcludeWith(true, Some(2));
    assert rm.WhoIsTheLeader() == Some(2);
    var query := Management(Header(3, 0), Some(RaftMessage(Action.WhoIsTheLeader, None)));
    var c := rm.ProcessRequest(query, _ => None, true, _ => true);
    assert rm.sent == [Unicast(3, LeaderIsReply(1, 2))];
    assert rm.engineInbox == [];
  }

  /** A fresh coordinator answers "not yet" twice, then "start an election". */
  method DebounceScenario()
  {
    var rm := new RaftManager(1, true);
    var a := rm.AssessCurrentState();
    var b := rm.AssessCurrentState();
    var c := rm.AssessCurrentState();
    var d := rm.AssessCurrentState();
    assert [a, b, c, d] == [false, false, true, true];
  }

  /** Cluster 7 lists an unreachable node 71 and a reachable node 72: one
      pass registers node 72 and sends it the join request. */
  method JoinScenario()
  {
    var rm := new RaftManager(1, true);
    var ok := rm.ElectionInstance(true);
    rm.ConcludeWith(true, Some(2));
    var a1 := NodeDesc(71, "a1", 5570);
    var a2 := NodeDesc(72, "a2", 5570);
    var ccm := new ClusterConnectionManager(rm, map[7 := [a1, a2]], [7]);
    var up := (n: NodeDesc) => n.nodeId == 72;
    var stays := (n: NodeDesc) => true;
    ccm.RunOnce(up, stays);
    assert FirstJoinable([a1, a2], up, stays) == Some(1);
    assert Tried([a1, a2], up, stays) == [a1, a2];
    assert ccm.connMap == map[7 := 72];
    assert ccm.attempts == [a1, a2];
    assert [a1, a2][..1] == [a1] && [a1][..0] == [];
    assert JoinsWritten([a1], up, 1, 7) == [];
    assert JoinsWritten([a1, a2], up, 1, 7) == [JoinMessage(LocalClusterId, 1, 7, 72)];
    assert ccm.joinsSent == [JoinMessage(LocalClusterId, 1, 7, 72)];
    ccm.RunOnce(up, stays);
    assert ccm.cursor == 0;
  }
}
