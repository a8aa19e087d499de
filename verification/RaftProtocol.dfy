/**
 * One Raft participant as a value: what each handler of raft/node.py reads and writes.
 * The class RaftNode (RaftNode.dfy) is proved against these functions, and the cluster
 * (RaftCluster.dfy) takes its steps with them.
 *
 * A log is the sequence of its entries with the snapshot base at 0 (node.py never calls
 * `snapshot`), so last_index() is the length; RaftLog.dfy proves that reading.
 */
module RaftProtocol {
  import opened Wrappers

  // Node identifiers are only ever compared for equality.
  type NodeId = nat

  datatype LogEntry = LogEntry(term: nat, index: nat, command: string)

  type Log = seq<LogEntry>

  datatype Role = Follower | Candidate | Leader

  // One call of apply_fn.
  datatype Applied = Applied(index: nat, entry: LogEntry)

  // _apply_committed runs without the node lock between its two ends:
  // `next` is the loop variable and `upTo` the commit index captured at the start.
  datatype ApplyLoop = Idle | Applying(next: nat, upTo: nat)

  datatype NodeState = NodeState(
    // Saved before any reply (raft/state.py, raft/log.py).
    term: nat,
    votedFor: Option<NodeId>,
    log: Log,
    // Lost in a restart.
    role: Role,
    leaderId: Option<NodeId>,
    commitIndex: nat,
    lastApplied: nat,
    nextIndex: map<NodeId, nat>,
    matchIndex: map<NodeId, nat>,
    loop: ApplyLoop,
    applied: seq<Applied>)

  datatype VoteReply = VoteReply(term: nat, granted: bool)

  datatype AppendReply = AppendReply(term: nat, success: bool, matchIndex: nat)

  const INITIAL_NODE: NodeState :=
    NodeState(0, None, [], Follower, None, 0, 0, map[], map[], Idle, [])

  function LastTerm(log: Log): nat {
    if |log| == 0 then 0 else log[|log| - 1].term
  }

  // RaftLog.term_at with base 0: the sentinel index 0 and any index past the end read as term 0.
  function TermAt(log: Log, index: nat): nat {
    if index == 0 || index > |log| then 0 else log[index - 1].term
  }

  // (len(peers) + 2) // 2, with len(peers) + 1 == clusterSize.
  function Quorum(clusterSize: nat): nat {
    (clusterSize + 1) / 2
  }

  function StepDown(s: NodeState, term: nat): NodeState {
    s.(term := term, votedFor := None, role := Follower)
  }

  function CheckTerm(s: NodeState, term: nat): NodeState {
    if term > s.term then StepDown(s, term) else s
  }

  // The candidate's log is at least as up to date as the voter's (Raft section 5.4.1).
  predicate UpToDate(lastIndex: nat, lastTerm: nat, log: Log) {
    lastTerm > LastTerm(log) || (lastTerm == LastTerm(log) && lastIndex >= |log|)
  }

  function HandleRequestVote(s: NodeState, term: nat, candidate: NodeId, lastIndex: nat, lastTerm: nat)
    : (NodeState, VoteReply)
  {
    var s1 := CheckTerm(s, term);
    if term < s1.term then
      (s1, VoteReply(s1.term, false))
    else if s1.votedFor != None && s1.votedFor != Some(candidate) then
      (s1, VoteReply(s1.term, false))
    else if !UpToDate(lastIndex, lastTerm, s1.log) then
      (s1, VoteReply(s1.term, false))
    else
      (s1.(votedFor := Some(candidate)), VoteReply(s1.term, true))
  }

  // The entry loop of handle_append_entries, from the i-th entry on: keep stored entries while
  // their terms agree; at the first gap or disagreement, cut there and take the rest.
  function MergeFrom(log: Log, prev: nat, entries: Log, i: nat): Log
    requires i <= |entries| && prev + i <= |log|
    decreases |entries| - i
  {
    if i == |entries| then log
    else if prev + i == |log| then log + entries[i..]
    else if log[prev + i].term != entries[i].term then log[..prev + i] + entries[i..]
    else MergeFrom(log, prev, entries, i + 1)
  }

  function HandleAppendEntries(
    s: NodeState, term: nat, leader: NodeId, prev: nat, prevTerm: nat, entries: Log, leaderCommit: nat)
    : (NodeState, AppendReply)
  {
    var s1 := CheckTerm(s, term);
    if term < s1.term then
      (s1, AppendReply(s1.term, false, 0))
    else
      var s2 := s1.(leaderId := Some(leader), role := if s1.role == Candidate then Follower else s1.role);
      if prev > 0 && |s2.log| < prev then
        (s2, AppendReply(s2.term, false, |s2.log|))
      else if prev > 0 && TermAt(s2.log, prev) != prevTerm then
        (s2.(log := s2.log[..prev - 1]), AppendReply(s2.term, false, prev - 1))
      else
        var log := MergeFrom(s2.log, prev, entries, 0);
        var commit :=
          if leaderCommit > s2.commitIndex then (if leaderCommit <= |log| then leaderCommit else |log|)
          else s2.commitIndex;
        (s2.(log := log, commitIndex := commit), AppendReply(s2.term, true, |log|))
  }

  // _start_election up to the first request.
  function StartElection(s: NodeState, self: NodeId): NodeState {
    s.(role := Candidate, term := s.term + 1, votedFor := Some(self), leaderId := None)
  }

  function BecomeLeader(s: NodeState, self: NodeId, peers: set<NodeId>): NodeState {
    s.(role := Leader, leaderId := Some(self),
       nextIndex := s.nextIndex + ForAll(peers, |s.log| + 1),
       matchIndex := (s.matchIndex + ForAll(peers, 0))[self := |s.log|])
  }

  function ForAll(peers: set<NodeId>, value: nat): map<NodeId, nat> {
    map p | p in peers :: value
  }

  function Propose(s: NodeState, self: NodeId, command: string): (NodeState, Option<nat>) {
    if s.role != Leader then (s, None)
    else
      var index := |s.log| + 1;
      (s.(log := s.log + [LogEntry(s.term, index, command)], matchIndex := s.matchIndex[self := index]),
       Some(index))
  }

  // next_idx.get(peer_id, 1)
  function NextIndex(s: NodeState, peer: NodeId): nat {
    if peer in s.nextIndex then s.nextIndex[peer] else 1
  }

  // Members of the match table that hold the log up to n.
  function Replicated(matchIndex: map<NodeId, nat>, n: nat): set<NodeId> {
    set p | p in matchIndex && matchIndex[p] >= n
  }

  predicate Committable(s: NodeState, n: nat, term: nat, quorum: nat) {
    TermAt(s.log, n) == term && |Replicated(s.matchIndex, n)| >= quorum
  }

  // The downward scan of _advance_commit from index n.
  function ScanCommit(s: NodeState, n: nat, term: nat, quorum: nat): nat {
    if n <= s.commitIndex then s.commitIndex
    else if Committable(s, n, term, quorum) then n
    else ScanCommit(s, n - 1, term, quorum)
  }

  function AdvanceCommit(s: NodeState, term: nat, quorum: nat): NodeState {
    s.(commitIndex := ScanCommit(s, |s.log|, term, quorum))
  }

  // The part of _replicate that handles one answer; `term` is the leader's term when it asked.
  function HandleAppendReply(
    s: NodeState, self: NodeId, peer: NodeId, term: nat, reply: AppendReply, quorum: nat): NodeState
  {
    if reply.term > s.term then StepDown(s, reply.term)
    else if s.role != Leader then s
    else if reply.success then
      AdvanceCommit(
        s.(matchIndex := s.matchIndex[peer := reply.matchIndex][self := |s.log|],
           nextIndex := s.nextIndex[peer := reply.matchIndex + 1]),
        term, quorum)
    else
      s.(nextIndex := s.nextIndex[peer := reply.matchIndex + 1])
  }

  // The part of _start_election that handles one answer, short of counting it.
  function HandleVoteReply(s: NodeState, term: nat, reply: VoteReply): NodeState {
    if s.term != term || s.role != Candidate then s
    else if reply.term > term then StepDown(s, reply.term)
    else s
  }

  function ApplyBegin(s: NodeState): NodeState {
    s.(loop := Applying(s.lastApplied + 1, s.commitIndex))
  }

  // One iteration of the loop of _apply_committed; a missing entry is skipped.
  function ApplyOne(s: NodeState): NodeState
    requires s.loop.Applying?
  {
    var n := s.loop.next;
    s.(applied := if 1 <= n <= |s.log| then s.applied + [Applied(n, s.log[n - 1])] else s.applied,
       loop := Applying(n + 1, s.loop.upTo))
  }

  // The end of _apply_committed: last_applied takes the commit index of this moment,
  // which need not be the one the loop ran to.
  function ApplyEnd(s: NodeState): NodeState {
    s.(lastApplied := if s.commitIndex > s.lastApplied then s.commitIndex else s.lastApplied, loop := Idle)
  }

  // ---- as the code has it, and as it is meant -------------------------------------------------

  // Two places can be taken either way: the match index of a successful answer, and the index an
  // apply pass ends at.
  datatype Code = AsWritten | AsMeant

  // As written a successful answer claims the follower's whole log; as meant (matchIndex in Figure 2
  // of the Raft paper) it claims what the request covers.
  function Answered(code: Code, prev: nat, entries: Log, reply: AppendReply): AppendReply {
    if code == AsMeant && reply.success then reply.(matchIndex := prev + |entries|) else reply
  }

  // As meant a pass ends at the commit index it captured.
  function EndPass(code: Code, s: NodeState): NodeState {
    if code == AsMeant && s.loop.Applying? then
      s.(lastApplied := if s.loop.upTo > s.lastApplied then s.loop.upTo else s.lastApplied, loop := Idle)
    else ApplyEnd(s)
  }

  // A crash keeps what was saved; the state machine behind apply_fn starts empty again.
  function Restart(s: NodeState): NodeState {
    INITIAL_NODE.(term := s.term, votedFor := s.votedFor, log := s.log)
  }
}
