/**
 * A cluster of Raft nodes and the messages in flight between them.
 *
 * Messages are never removed, so any delay, reordering, repetition or loss is a run of this
 * machine. Each action is one critical section of raft/node.py.
 */
module RaftCluster {
  import opened RaftProtocol

  datatype Message =
    | VoteRequest(src: NodeId, term: nat, lastIndex: nat, lastTerm: nat)
    | VoteAnswer(src: NodeId, dst: NodeId, requestTerm: nat, voteReply: VoteReply)
    | AppendRequest(src: NodeId, dst: NodeId, term: nat, prev: nat, prevTerm: nat, entries: Log, commit: nat)
    | AppendAnswer(src: NodeId, dst: NodeId, requestTerm: nat, appendReply: AppendReply)

  datatype Cluster = Cluster(nodes: map<NodeId, NodeState>, messages: set<Message>)

  datatype Action =
    | Timeout(node: NodeId)
    | DeliverVoteRequest(node: NodeId, message: Message)
    | DeliverVoteAnswer(node: NodeId, message: Message)
    | Win(node: NodeId, grants: set<NodeId>)
    | Submit(node: NodeId, command: string)
    | Replicate(node: NodeId, peer: NodeId, commit: nat)
    | DeliverAppendRequest(node: NodeId, message: Message, code: Code)
    | DeliverAppendAnswer(node: NodeId, message: Message)
    | BeginApply(node: NodeId)
    | ApplyNext(node: NodeId)
    | EndApply(node: NodeId, code: Code)
    | Crash(node: NodeId)

  ghost predicate Initial(members: set<NodeId>, c: Cluster) {
    c == Cluster(map i | i in members :: INITIAL_NODE, {})
  }

  /**
   * When an action can happen. Win asks for at least one grant because the votes are only
   * compared with the quorum after a grant. An append answer reaches a leader only in the term
   * it was asked in: requests, answers and elections of a node all run on its one ticker thread.
   * A request may carry any earlier commit index, since the code captures it before the send.
   */
  ghost predicate Enabled(members: set<NodeId>, c: Cluster, a: Action)
  {
    a.node in members && a.node in c.nodes &&
    var s := c.nodes[a.node];
    match a
    case Timeout(_) => s.role != Leader
    case DeliverVoteRequest(_, m) => m in c.messages && m.VoteRequest? && m.src != a.node
    case DeliverVoteAnswer(_, m) => m in c.messages && m.VoteAnswer? && m.dst == a.node
    case Win(_, grants) =>
      s.role == Candidate && grants <= members - {a.node} && |grants| >= 1 &&
      |grants| + 1 >= Quorum(|members|) &&
      forall p :: p in grants ==> VoteAnswer(p, a.node, s.term, VoteReply(s.term, true)) in c.messages
    case Submit(_, _) => true
    case Replicate(_, peer, commit) =>
      s.role == Leader && peer in members && peer != a.node && commit <= s.commitIndex
    case DeliverAppendRequest(_, m, _) => m in c.messages && m.AppendRequest? && m.dst == a.node
    case DeliverAppendAnswer(_, m) =>
      m in c.messages && m.AppendAnswer? && m.dst == a.node && (s.role == Leader ==> s.term == m.requestTerm)
    case BeginApply(_) => s.loop == Idle
    case ApplyNext(_) => s.loop.Applying? && s.loop.next <= s.loop.upTo
    case EndApply(_, _) => s.loop.Applying? && s.loop.next > s.loop.upTo
    case Crash(_) => true
  }

  function AppendTo(s: NodeState, self: NodeId, peer: NodeId, commit: nat): Message {
    var next := NextIndex(s, peer);
    var prev := if next == 0 then 0 else next - 1;
    AppendRequest(self, peer, s.term, prev, TermAt(s.log, prev),
                  if prev <= |s.log| then s.log[prev..] else [], commit)
  }

  // The follower's answer to an append request.
  function AnswerTo(s: NodeState, m: Message, code: Code): AppendReply
    requires m.AppendRequest?
  {
    Answered(code, m.prev, m.entries,
             HandleAppendEntries(s, m.term, m.src, m.prev, m.prevTerm, m.entries, m.commit).1)
  }

  // The acting node's next state and the messages it sends.
  ghost function Effect(members: set<NodeId>, c: Cluster, a: Action): (NodeState, set<Message>)
    requires Enabled(members, c, a)
  {
    var i, s := a.node, c.nodes[a.node];
    match a
    case Timeout(_) =>
      var s' := StartElection(s, i);
      (s', {VoteRequest(i, s'.term, |s'.log|, LastTerm(s'.log))})
    case DeliverVoteRequest(_, m) =>
      var (s', reply) := HandleRequestVote(s, m.term, m.src, m.lastIndex, m.lastTerm);
      (s', {VoteAnswer(i, m.src, m.term, reply)})
    case DeliverVoteAnswer(_, m) => (HandleVoteReply(s, m.requestTerm, m.voteReply), {})
    case Win(_, _) => (BecomeLeader(s, i, members - {i}), {})
    case Submit(_, command) => (Propose(s, i, command).0, {})
    case Replicate(_, peer, commit) => (s, {AppendTo(s, i, peer, commit)})
    case DeliverAppendRequest(_, m, code) =>
      (HandleAppendEntries(s, m.term, m.src, m.prev, m.prevTerm, m.entries, m.commit).0,
       {AppendAnswer(i, m.src, m.term, AnswerTo(s, m, code))})
    case DeliverAppendAnswer(_, m) =>
      (HandleAppendReply(s, i, m.src, m.requestTerm, m.appendReply, Quorum(|members|)), {})
    case BeginApply(_) => (ApplyBegin(s), {})
    case ApplyNext(_) => (ApplyOne(s), {})
    case EndApply(_, code) => (EndPass(code, s), {})
    case Crash(_) => (Restart(s), {})
  }

  ghost function Step(members: set<NodeId>, c: Cluster, a: Action): Cluster
    requires Enabled(members, c, a)
  {
    var (s', sent) := Effect(members, c, a);
    Cluster(c.nodes[a.node := s'], c.messages + sent)
  }

  ghost predicate IsRun(members: set<NodeId>, run: seq<Cluster>, actions: seq<Action>) {
    |run| == |actions| + 1 && Initial(members, run[0]) &&
    forall k :: 0 <= k < |actions| ==>
      Enabled(members, run[k], actions[k]) && run[k + 1] == Step(members, run[k], actions[k])
  }

  // Cluster sizes in which two candidates cannot both win a term. Two nodes are safe because a
  // candidate asks for at least one grant; every larger even size has disjoint quorums.
  predicate ElectionSize(n: nat) {
    n % 2 == 1 || n <= 2
  }

  ghost predicate LeadsAt(run: seq<Cluster>, k: nat, i: NodeId, term: nat) {
    k < |run| && i in run[k].nodes && run[k].nodes[i].role == Leader && run[k].nodes[i].term == term
  }

  // All of the cluster runs the same code.
  ghost predicate AllRun(code: Code, actions: seq<Action>) {
    forall k :: 0 <= k < |actions| ==> Runs(code, actions[k])
  }

  predicate Runs(code: Code, a: Action) {
    a.DeliverAppendRequest? || a.EndApply? ==> a.code == code
  }

  // Some entry a request brings disagrees with the stored entry of its index.
  predicate Conflicts(log: Log, prev: nat, entries: Log) {
    exists k :: 0 <= k < |entries| && prev + k < |log| && log[prev + k].term != entries[k].term
  }

  // An entry of a term before the request's outlives the request, past the end of what it covers.
  // Entries of the request's own term there are the asking leader's, from a newer request.
  predicate StaleTail(log: Log, prev: nat, entries: Log, term: nat) {
    !Conflicts(log, prev, entries) && exists k :: prev + |entries| <= k < |log| && log[k].term < term
  }

  // A successful answer does not claim a stale tail. As meant it never does; as written it does exactly
  // when there is one (RaftReplies.AnswerIsHonestIff).
  ghost predicate HonestAnswer(c: Cluster, a: Action) {
    a.DeliverAppendRequest? && a.node in c.nodes && a.message.AppendRequest? && a.code == AsWritten ==>
      var s, m := c.nodes[a.node], a.message;
      AnswerTo(s, m, AsWritten).success ==> !StaleTail(s.log, m.prev, m.entries, m.term)
  }

  ghost predicate HonestRun(run: seq<Cluster>, actions: seq<Action>) {
    |run| > |actions| && forall k :: 0 <= k < |actions| ==> HonestAnswer(run[k], actions[k])
  }
}
