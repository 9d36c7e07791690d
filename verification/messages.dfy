/**
 * The envelopes the leader-coordination layer reads and writes, with the
 * wire format abstracted away: a management envelope carries a header and
 * an optional raft payload; a cluster join request carries four ids.
 */
module Messages {

  datatype Option<+T> = None | Some(value: T)

  /** Raft actions: the two the coordinator understands, and every other
      (engine-internal) action by its protocol number. The number of an
      `Other` action is never that of WHOISTHELEADER or THELEADERIS: a
      message carrying WHOISTHELEADER's number is `WhoIsTheLeader`. */
  datatype Action = WhoIsTheLeader | TheLeaderIs | Other(number: int)

  datatype RaftMessage = RaftMessage(action: Action, leader: Option<int>)

  /** The management header; its wall-clock time stamp is not modelled. */
  datatype Header = Header(originator: int, securityCode: int)

  datatype Management = Management(header: Header, raft: Option<RaftMessage>)

  /** A message leaving this node: sent to one peer, or to all peers. */
  datatype Outgoing = Unicast(to: int, msg: Management) | Broadcast(msg: Management)

  datatype JoinMessage = JoinMessage(fromClusterId: int, fromNodeId: int, toClusterId: int, toNodeId: int)

  /** A node of a remote cluster as the topology lists it. */
  datatype NodeDesc = NodeDesc(nodeId: int, host: string, port: int)

  /** Security code stamped on every leader reply. */
  const LeaderReplySecurityCode: int := -999

  /** Cluster id this node announces itself with when joining a remote cluster. */
  const LocalClusterId: int := 35325

  /** The THELEADERIS reply a node sends, naming `leader` and signed by `self`. */
  function LeaderIsReply(self: int, leader: int): (r: Management)
  {
    Management(Header(self, LeaderReplySecurityCode), Some(RaftMessage(TheLeaderIs, Some(leader))))
  }

  /** The join request sent to node `toNode` of cluster `toCluster`. */
  function CreateClusterJoinMessage(fromCluster: int, fromNode: int, toCluster: int, toNode: int)
    : (r: JoinMessage)
  {
    JoinMessage(fromCluster, fromNode, toCluster, toNode)
  }
}
