/**
 * Value-level specification of the cluster join pass: which node of a
 * cluster is joined, which nodes are tried, which join requests are
 * written, and how one iteration moves the round-robin cursor and grows
 * the connection map. Managers.ClusterConnectionManager is proved against
 * these functions.
 *
 * `connects(n)` says that connecting to node `n` succeeds and `writable(n)`
 * that its channel is still writable after the join request is written;
 * both stand for the network.
 */
module JoinSpec {
  import opened Messages

  /** A node the join pass registers: it connects and stays writable. */
  predicate Joinable(n: NodeDesc, connects: NodeDesc -> bool, writable: NodeDesc -> bool)
  {
    connects(n) && writable(n)
  }

  /** The position of the first joinable node, in listed order. */
  function FirstJoinable(nodes: seq<NodeDesc>, connects: NodeDesc -> bool, writable: NodeDesc -> bool)
    : (r: Option<nat>)
    ensures r.Some? ==> r.value < |nodes| && Joinable(nodes[r.value], connects, writable)
    ensures r.Some? ==> forall j :: 0 <= j < r.value ==> !Joinable(nodes[j], connects, writable)
    ensures r.None? <==> forall j :: 0 <= j < |nodes| ==> !Joinable(nodes[j], connects, writable)
  {
    if nodes == [] then None
    else if Joinable(nodes[0], connects, writable) then Some(0)
    else match FirstJoinable(nodes[1..], connects, writable)
      case None => None
      case Some(i) => Some(i + 1)
  }

  /** The nodes one join attempt on a cluster connects to: up to and
      including the first joinable one, or all of them. */
  function Tried(nodes: seq<NodeDesc>, connects: NodeDesc -> bool, writable: NodeDesc -> bool): (r: seq<NodeDesc>)
  {
    match FirstJoinable(nodes, connects, writable)
    case Some(i) => nodes[..i + 1]
    case None => nodes
  }

  /** The join requests written while trying `tried` for cluster `key`:
      one for every node whose connect succeeded, in order. */
  function JoinsWritten(tried: seq<NodeDesc>, connects: NodeDesc -> bool, self: int, key: int): (r: seq<JoinMessage>)
  {
    if tried == [] then []
    else
      var last := tried[|tried| - 1];
      JoinsWritten(tried[..|tried| - 1], connects, self, key) +
      (if connects(last) then [CreateClusterJoinMessage(LocalClusterId, self, key, last.nodeId)] else [])
  }

  /** Every join request written goes from this cluster and node to cluster
      `key`, addressed to a tried node whose connect succeeded, and there are
      no more requests than nodes tried. A node listed twice is tried, and
      may be sent a request, once per listing. */
  lemma {:induction false} JoinsWrittenShape(tried: seq<NodeDesc>, connects: NodeDesc -> bool, self: int, key: int)
    ensures |JoinsWritten(tried, connects, self, key)| <= |tried|
    ensures forall m :: m in JoinsWritten(tried, connects, self, key) ==>
              m.fromClusterId == LocalClusterId && m.fromNodeId == self && m.toClusterId == key &&
              exists n :: n in tried && connects(n) && m.toNodeId == n.nodeId
    decreases |tried|
  {
    if tried != [] {
      var init := tried[..|tried| - 1];
      JoinsWrittenShape(init, connects, self, key);
      forall m | m in JoinsWritten(init, connects, self, key)
        ensures exists n :: n in tried && connects(n) && m.toNodeId == n.nodeId
      {
        var n :| n in init && connects(n) && m.toNodeId == n.nodeId;
        assert n in tried;
      }
      assert tried[|tried| - 1] in tried;
    }
  }

  /** Trying one more node appends its join request when it connects. */
  lemma JoinsWrittenSnoc(tried: seq<NodeDesc>, n: NodeDesc, connects: NodeDesc -> bool, self: int, key: int)
    ensures JoinsWritten(tried + [n], connects, self, key) ==
            JoinsWritten(tried, connects, self, key) +
            (if connects(n) then [JoinMessage(LocalClusterId, self, key, n.nodeId)] else [])
  {
  }

  /** A joinable node with no joinable node before it is the first one. */
  lemma FirstJoinableAt(nodes: seq<NodeDesc>, i: nat, connects: NodeDesc -> bool, writable: NodeDesc -> bool)
    requires i < |nodes| && Joinable(nodes[i], connects, writable)
    requires forall j :: 0 <= j < i ==> !Joinable(nodes[j], connects, writable)
    ensures FirstJoinable(nodes, connects, writable) == Some(i)
  {
  }

  /** When a cluster has a joinable node, the last join request written
      goes to that node, the one that is registered. */
  lemma JoinGoesToRegistered(nodes: seq<NodeDesc>, connects: NodeDesc -> bool, writable: NodeDesc -> bool,
                             self: int, key: int)
    requires FirstJoinable(nodes, connects, writable).Some?
    ensures var w := JoinsWritten(Tried(nodes, connects, writable), connects, self, key);
            |w| > 0 &&
            w[|w| - 1] == JoinMessage(LocalClusterId, self, key,
                                      nodes[FirstJoinable(nodes, connects, writable).value].nodeId)
  {
  }

  /** The node id a cluster gets connected to, if any of its nodes is joinable. */
  function Target(clusterMap: map<int, seq<NodeDesc>>, key: int,
                  connects: NodeDesc -> bool, writable: NodeDesc -> bool): (r: Option<int>)
  {
    if key !in clusterMap then None
    else match FirstJoinable(clusterMap[key], connects, writable)
      case None => None
      case Some(i) => Some(clusterMap[key][i].nodeId)
  }

  /** The join manager's state: cluster id -> node it is connected through,
      and the position of the cluster-id iterator. */
  datatype JoinState = JoinState(connMap: map<int, int>, cursor: nat)

  /** One iteration of the join loop over cluster ids `clusterIds`.
      Without a leader nothing happens; an exhausted cursor is reset; a
      cluster already connected is skipped; otherwise the first joinable
      node, if any, is registered for the cluster. */
  function JoinStep(s: JoinState, clusterIds: seq<int>, clusterMap: map<int, seq<NodeDesc>>,
                    leaderKnown: bool, connects: NodeDesc -> bool, writable: NodeDesc -> bool): (r: JoinState)
  {
    if !leaderKnown then s
    else if s.cursor >= |clusterIds| then JoinState(s.connMap, 0)
    else
      var key := clusterIds[s.cursor];
      if key in s.connMap then JoinState(s.connMap, s.cursor + 1)
      else match Target(clusterMap, key, connects, writable)
        case None => JoinState(s.connMap, s.cursor + 1)
        case Some(node) => JoinState(s.connMap[key := node], s.cursor + 1)
  }

  /** `n` iterations of the join loop with unchanging reachability. */
  function JoinSteps(s: JoinState, n: nat, clusterIds: seq<int>, clusterMap: map<int, seq<NodeDesc>>,
                     leaderKnown: bool, connects: NodeDesc -> bool, writable: NodeDesc -> bool): (r: JoinState)
    decreases n
  {
    if n == 0 then s
    else JoinSteps(JoinStep(s, clusterIds, clusterMap, leaderKnown, connects, writable),
                   n - 1, clusterIds, clusterMap, leaderKnown, connects, writable)
  }

  /** While no leader is known, any number of iterations changes nothing. */
  lemma {:induction false} NoLeaderNoJoin(s: JoinState, n: nat, clusterIds: seq<int>,
                                         clusterMap: map<int, seq<NodeDesc>>,
                                         connects: NodeDesc -> bool, writable: NodeDesc -> bool)
    ensures JoinSteps(s, n, clusterIds, clusterMap, false, connects, writable) == s
  {
    if n > 0 {
      NoLeaderNoJoin(s, n - 1, clusterIds, clusterMap, connects, writable);
    }
  }

  /** Running `a` then `b` iterations is running `a + b`. */
  lemma {:induction false} JoinStepsSplit(s: JoinState, a: nat, b: nat, clusterIds: seq<int>,
                                         clusterMap: map<int, seq<NodeDesc>>, leaderKnown: bool,
                                         connects: NodeDesc -> bool, writable: NodeDesc -> bool)
    ensures JoinSteps(s, a + b, clusterIds, clusterMap, leaderKnown, connects, writable) ==
            JoinSteps(JoinSteps(s, a, clusterIds, clusterMap, leaderKnown, connects, writable),
                      b, clusterIds, clusterMap, leaderKnown, connects, writable)
    decreases a
  {
    if a > 0 {
      JoinStepsSplit(JoinStep(s, clusterIds, clusterMap, leaderKnown, connects, writable),
                     a - 1, b, clusterIds, clusterMap, leaderKnown, connects, writable);
    }
  }

  /** With a leader known, `n` iterations from cursor `c` (not running past
      the end) visit clusterIds[c..c + n]: exactly the visited clusters
      that have a joinable node are added, each to its first joinable node,
      and no entry is removed or replaced. */
  lemma {:induction false} JoinRun(s: JoinState, n: nat, clusterIds: seq<int>,
                                   clusterMap: map<int, seq<NodeDesc>>,
                                   connects: NodeDesc -> bool, writable: NodeDesc -> bool)
    requires s.cursor + n <= |clusterIds|
    ensures JoinSteps(s, n, clusterIds, clusterMap, true, connects, writable).cursor == s.cursor + n
    ensures forall k :: k in JoinSteps(s, n, clusterIds, clusterMap, true, connects, writable).connMap <==>
              k in s.connMap ||
              (k in clusterIds[s.cursor..s.cursor + n] && Target(clusterMap, k, connects, writable).Some?)
    ensures forall k :: k in JoinSteps(s, n, clusterIds, clusterMap, true, connects, writable).connMap ==>
              JoinSteps(s, n, clusterIds, clusterMap, true, connects, writable).connMap[k] ==
              if k in s.connMap then s.connMap[k] else Target(clusterMap, k, connects, writable).value
    decreases n
  {
    if n > 0 {
      var s' := JoinStep(s, clusterIds, clusterMap, true, connects, writable);
      JoinRun(s', n - 1, clusterIds, clusterMap, connects, writable);
      var c := s.cursor;
      assert clusterIds[c..c + n] == [clusterIds[c]] + clusterIds[c + 1..c + n];
    }
  }

  /** A full pass from the first cluster id, plus the iteration that finds
      the iterator exhausted, connects every listed cluster that has a
      joinable node (keeping every existing entry) and returns the cursor
      to the start. */
  lemma FullPass(connMap: map<int, int>, clusterIds: seq<int>, clusterMap: map<int, seq<NodeDesc>>,
                 connects: NodeDesc -> bool, writable: NodeDesc -> bool)
    ensures var r := JoinSteps(JoinState(connMap, 0), |clusterIds| + 1, clusterIds, clusterMap, true,
                               connects, writable);
            r.cursor == 0 &&
            (forall k :: k in r.connMap <==>
               k in connMap || (k in clusterIds && Target(clusterMap, k, connects, writable).Some?)) &&
            (forall k :: k in connMap ==> r.connMap[k] == connMap[k])
  {
    var s := JoinState(connMap, 0);
    var n := |clusterIds|;
    JoinStepsSplit(s, n, 1, clusterIds, clusterMap, true, connects, writable);
    JoinRun(s, n, clusterIds, clusterMap, connects, writable);
    assert clusterIds[0..n] == clusterIds;
  }
}
