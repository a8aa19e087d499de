/**
 * What each handler answers and leaves behind, in terms of the entries of the logs alone; and why the log
 * check of an election never locks everybody out.
 */
module RaftHandlers {
  import opened Wrappers
  import opened RaftProtocol
  import opened RaftCluster

  // A vote is granted if and only if the term is not over, the vote of that term is free or already the
  // candidate's, and the candidate's last entry is of a later term than the voter's, or of the same term
  // in a log at least as long. An empty log counts as ending in term 0.
  lemma VoteGrantedIff(s: NodeState, term: nat, candidate: NodeId, lastIndex: nat, lastTerm: nat)
    ensures
      var reply := HandleRequestVote(s, term, candidate, lastIndex, lastTerm).1;
      var own := if s.log == [] then 0 else s.log[|s.log| - 1].term;
      reply.granted <==>
        term >= s.term && (term == s.term ==> s.votedFor == None || s.votedFor == Some(candidate)) &&
        (lastTerm > own || (lastTerm == own && lastIndex >= |s.log|))
  {
  }

  // What a vote request leaves: a later term is taken over without a vote and as a follower, a vote
  // granted is kept, and nothing else changes.
  lemma VoteLeaves(s: NodeState, term: nat, candidate: NodeId, lastIndex: nat, lastTerm: nat)
    ensures
      var (s', reply) := HandleRequestVote(s, term, candidate, lastIndex, lastTerm);
      reply.term == s'.term == Max(s.term, term) &&
      s' == s.(term := s'.term, votedFor := s'.votedFor, role := s'.role) &&
      s'.role == (if term > s.term then Follower else s.role) &&
      s'.votedFor == (if reply.granted then Some(candidate) else if term > s.term then None else s.votedFor)
  {
  }

  // Everybody else grants this node its vote in this term.
  ghost predicate AllGrant(nodes: map<NodeId, NodeState>, i: NodeId, term: nat)
    requires i in nodes
  {
    var m := VoteRequest(i, term, |nodes[i].log|, LastTerm(nodes[i].log));
    forall j :: j in nodes && j != i ==>
      HandleRequestVote(nodes[j], m.term, m.src, m.lastIndex, m.lastTerm).1.granted
  }

  // One log is as good as another for an election.
  predicate Beats(a: Log, b: Log) {
    LastTerm(a) > LastTerm(b) || (LastTerm(a) == LastTerm(b) && |a| >= |b|)
  }

  lemma {:induction false} SomeLogBeatsAll(nodes: map<NodeId, NodeState>, among: set<NodeId>) returns (i: NodeId)
    requires among != {} && among <= nodes.Keys
    ensures i in among && forall j :: j in among ==> Beats(nodes[i].log, nodes[j].log)
  {
    var a :| a in among;
    if among == {a} {
      i := a;
    } else {
      assert among - {a} < among;
      var b := SomeLogBeatsAll(nodes, among - {a});
      i := if Beats(nodes[a].log, nodes[b].log) then a else b;
    }
  }

  // Whatever the logs of a cluster hold, some node gets every vote in any term nobody has reached yet:
  // the log check never locks everybody out.
  lemma SomebodyCanWin(nodes: map<NodeId, NodeState>) returns (i: NodeId)
    requires nodes != map[]
    ensures i in nodes
    ensures forall term: nat :: (forall j :: j in nodes ==> nodes[j].term < term) ==> AllGrant(nodes, i, term)
  {
    assert nodes.Keys != {} by { var j :| j in nodes; assert j in nodes.Keys; }
    i := SomeLogBeatsAll(nodes, nodes.Keys);
    forall term: nat | forall j :: j in nodes ==> nodes[j].term < term ensures AllGrant(nodes, i, term) {
      forall j | j in nodes && j != i
        ensures HandleRequestVote(nodes[j], term, i, |nodes[i].log|, LastTerm(nodes[i].log)).1.granted
      {
        VoteGrantedIff(nodes[j], term, i, |nodes[i].log|, LastTerm(nodes[i].log));
      }
    }
  }

  // A new leader's first request to each peer carries no entries and builds on all of its log; it counts
  // on nobody but itself yet.
  lemma FirstRequestIsEmpty(s: NodeState, i: NodeId, peers: set<NodeId>, peer: NodeId)
    requires peer in peers && i !in peers
    ensures
      var s' := BecomeLeader(s, i, peers);
      var m := AppendTo(s', i, peer, s'.commitIndex);
      s'.role == Leader && s'.log == s.log && s'.term == s.term &&
      m == AppendRequest(i, peer, s.term, |s.log|,
                         if s.log == [] then 0 else s.log[|s.log| - 1].term, [], s.commitIndex) &&
      (forall n: nat :: n > 0 && peer in Replicated(s'.matchIndex, n) ==> false) &&
      forall n: nat :: i in Replicated(s'.matchIndex, n) <==> n <= |s.log|
  {
    assert s.log[|s.log|..] == [];
  }

  // ---- elections ------------------------------------------------------------------------------------

  // A timed-out node moves to the next term, votes for itself there, and asks with the index and the term
  // of its own last entry.
  lemma TimeoutAsks(members: set<NodeId>, c: Cluster, i: NodeId)
    requires Enabled(members, c, Timeout(i))
    ensures
      var s := c.nodes[i];
      var (s', sent) := Effect(members, c, Timeout(i));
      s' == s.(term := s.term + 1, votedFor := Some(i), role := Candidate, leaderId := None) &&
      sent == {VoteRequest(i, s.term + 1, |s.log|, if s.log == [] then 0 else s.log[|s.log| - 1].term)}
  {
  }

  // An answer to a vote request sends the candidate back to a follower without a vote if it is of a later
  // term than the one still asked for, and does nothing else.
  lemma VoteAnswerTaken(s: NodeState, term: nat, reply: VoteReply)
    ensures
      HandleVoteReply(s, term, reply) ==
      if s.role == Candidate && s.term == term < reply.term
      then s.(term := reply.term, votedFor := None, role := Follower) else s
  {
  }

  lemma LeaderBegins(s: NodeState, i: NodeId, peers: set<NodeId>)
    ensures
      var s' := BecomeLeader(s, i, peers);
      s' == s.(role := Leader, leaderId := Some(i), nextIndex := s'.nextIndex, matchIndex := s'.matchIndex) &&
      (forall p :: p !in peers && p != i ==>
         (p in s'.nextIndex <==> p in s.nextIndex) && (p in s'.matchIndex <==> p in s.matchIndex))
  {
  }

  // ---- append requests ------------------------------------------------------------------------------

  // A request is taken if and only if its term is not over and the log holds an entry of the right term
  // where the request builds on one.
  lemma AppendTakenIff(
    s: NodeState, term: nat, leader: NodeId, prev: nat, prevTerm: nat, entries: Log, commit: nat)
    ensures
      HandleAppendEntries(s, term, leader, prev, prevTerm, entries, commit).1.success <==>
        term >= s.term && (prev == 0 || (prev <= |s.log| && s.log[prev - 1].term == prevTerm))
  {
  }

  // The first n entries of a request are in the log already, by their terms.
  ghost predicate Holds(log: Log, prev: nat, entries: Log, n: nat)
    requires n <= |entries|
  {
    prev + n <= |log| && forall k :: 0 <= k < n ==> log[prev + k].term == entries[k].term
  }

  // What a log is after taking entries behind prev: up to the first of them it does not hold it stays as
  // it was; from there on it is those entries and nothing else; and if it holds them all, it stays whole.
  ghost predicate Took(log: Log, prev: nat, entries: Log, log': Log) {
    prev <= |log| &&
    if Holds(log, prev, entries, |entries|) then log' == log
    else exists n :: 0 <= n < |entries| && TookFrom(log, prev, entries, n, log')
  }

  ghost predicate TookFrom(log: Log, prev: nat, entries: Log, n: nat, log': Log)
    requires n < |entries|
  {
    Holds(log, prev, entries, n) && (prev + n < |log| ==> log[prev + n].term != entries[n].term) &&
    |log'| == prev + |entries| && (forall k :: 0 <= k < prev + n ==> log'[k] == log[k]) &&
    forall k :: n <= k < |entries| ==> log'[prev + k] == entries[k]
  }

  lemma {:induction false} MergeTakes(log: Log, prev: nat, entries: Log, i: nat)
    requires i <= |entries| && Holds(log, prev, entries, i)
    ensures Took(log, prev, entries, MergeFrom(log, prev, entries, i))
    decreases |entries| - i
  {
    if i < |entries| {
      if prev + i < |log| && log[prev + i].term == entries[i].term {
        MergeTakes(log, prev, entries, i + 1);
      } else {
        assert TookFrom(log, prev, entries, i, MergeFrom(log, prev, entries, i));
      }
    }
  }

  // A request that is taken: the log takes its entries, and a commit index of the leader that is ahead is
  // followed as far as the log goes; the answer has the length of the log.
  lemma AppendTakes(
    s: NodeState, term: nat, leader: NodeId, prev: nat, prevTerm: nat, entries: Log, commit: nat)
    ensures
      var (s', reply) := HandleAppendEntries(s, term, leader, prev, prevTerm, entries, commit);
      reply.success ==>
        Took(s.log, prev, entries, s'.log) && reply == AppendReply(term, true, |s'.log|) &&
        s'.commitIndex == (if commit > s.commitIndex then Min(commit, |s'.log|) else s.commitIndex)
  {
    if prev <= |s.log| {
      MergeTakes(s.log, prev, entries, 0);
    }
    hide MergeFrom, Took;
  }

  // One that is refused: in a term that is over nothing happens; where the log is too short it says how
  // long it is; where it holds another term it gives up everything from there on.
  lemma AppendRefused(
    s: NodeState, term: nat, leader: NodeId, prev: nat, prevTerm: nat, entries: Log, commit: nat)
    ensures
      var (s', reply) := HandleAppendEntries(s, term, leader, prev, prevTerm, entries, commit);
      !reply.success ==>
        reply.term == s'.term && s'.commitIndex == s.commitIndex &&
        (term < s.term ==> s' == s && reply.matchIndex == 0) &&
        (term >= s.term && |s.log| < prev ==> s'.log == s.log && reply.matchIndex == |s.log|) &&
        (term >= s.term && |s.log| >= prev ==> prev > 0 && s'.log == s.log[..prev - 1] && reply.matchIndex == prev - 1)
  {
    hide MergeFrom;
  }

  // Taken or refused, a term that is not over makes its leader known and ends a candidacy; a later one is
  // taken over without a vote and as a follower; nothing else changes.
  lemma AppendLeaves(
    s: NodeState, term: nat, leader: NodeId, prev: nat, prevTerm: nat, entries: Log, commit: nat)
    ensures
      var s' := HandleAppendEntries(s, term, leader, prev, prevTerm, entries, commit).0;
      s'.term == Max(s.term, term) && s'.votedFor == (if term > s.term then None else s.votedFor) &&
      s'.role == (if term > s.term || (term == s.term && s.role == Candidate) then Follower else s.role) &&
      s'.leaderId == (if term >= s.term then Some(leader) else s.leaderId) &&
      s' == s.(term := s'.term, votedFor := s'.votedFor, role := s'.role, leaderId := s'.leaderId, log := s'.log,
               commitIndex := s'.commitIndex)
  {
    hide MergeFrom;
  }

  // ---- the leader's books ---------------------------------------------------------------------------

  // The answer to an append request: a later term ends the leadership; a success records how far the peer
  // is and sends what comes next; a refusal sends from just past what the peer reported. The next request
  // starts there, with all of the log that follows.
  lemma AnswerTaken(
    s: NodeState, i: NodeId, peer: NodeId, term: nat, reply: AppendReply, quorum: nat, other: NodeId)
    requires peer != i
    ensures
      var s' := HandleAppendReply(s, i, peer, term, reply, quorum);
      (reply.term > s.term ==> s' == s.(term := reply.term, votedFor := None, role := Follower)) &&
      (reply.term <= s.term && s.role != Leader ==> s' == s) &&
      (reply.term <= s.term && s.role == Leader ==>
         s' == s.(nextIndex := s'.nextIndex, matchIndex := s'.matchIndex, commitIndex := s'.commitIndex) &&
         peer in s'.nextIndex && s'.nextIndex[peer] == reply.matchIndex + 1 &&
         (other != peer ==> NextIndex(s', other) == NextIndex(s, other)) &&
         (!reply.success ==> s'.matchIndex == s.matchIndex && s'.commitIndex == s.commitIndex) &&
         (reply.success ==>
            peer in s'.matchIndex && s'.matchIndex[peer] == reply.matchIndex && i in s'.matchIndex &&
            s'.matchIndex[i] == |s.log| &&
            (other != peer && other != i ==>
               (other in s'.matchIndex <==> other in s.matchIndex) &&
               (other in s.matchIndex ==> s'.matchIndex[other] == s.matchIndex[other]))))
  {
  }

  // What a leader sends a peer builds on the entry before its next index and carries everything from
  // there on; put behind what the peer then holds, that is the leader's log again.
  lemma RequestCarriesRest(s: NodeState, i: NodeId, peer: NodeId, commit: nat)
    requires 1 <= NextIndex(s, peer) <= |s.log| + 1
    ensures
      var m := AppendTo(s, i, peer, commit);
      m.prev == NextIndex(s, peer) - 1 && m.term == s.term && m.src == i && m.dst == peer && m.commit == commit &&
      m.prevTerm == (if m.prev == 0 then 0 else s.log[m.prev - 1].term) && s.log[..m.prev] + m.entries == s.log
  {
  }

  // A command is taken by leaders only: one entry of the leader's term at the next index, which is the
  // answer, and counts as held by the leader itself.
  lemma ProposeTakes(s: NodeState, i: NodeId, command: string)
    ensures
      var (s', index) := Propose(s, i, command);
      (s.role != Leader ==> s' == s && index == None) &&
      (s.role == Leader ==>
         index == Some(|s.log| + 1) && s'.log == s.log + [LogEntry(s.term, |s.log| + 1, command)] &&
         i in s'.matchIndex && s'.matchIndex[i] == |s'.log| &&
         (forall p :: p != i ==> (p in s'.matchIndex <==> p in s.matchIndex)) &&
         (forall p :: p != i && p in s.matchIndex ==> s'.matchIndex[p] == s.matchIndex[p]) &&
         s' == s.(log := s'.log, matchIndex := s'.matchIndex))
  {
  }

  // Term, vote and log survive a crash, and nothing else does.
  lemma CrashKeeps(s: NodeState)
    ensures Restart(s) == NodeState(s.term, s.votedFor, s.log, Follower, None, 0, 0, map[], map[], Idle, [])
  {
  }

  // ---- committing and applying ------------------------------------------------------------------------

  // An index the leader may commit: its entry is of this term and a quorum holds it.
  ghost predicate MayCommit(s: NodeState, n: nat, term: nat, quorum: nat) {
    0 < n <= |s.log| && s.log[n - 1].term == term &&
    |set p | p in s.matchIndex && s.matchIndex[p] >= n| >= quorum
  }

  lemma {:induction false} ScanStops(s: NodeState, n: nat, term: nat, quorum: nat)
    requires n <= |s.log|
    ensures
      var c := ScanCommit(s, n, term, quorum);
      (c == s.commitIndex || (s.commitIndex < c <= n && MayCommit(s, c, term, quorum))) &&
      forall m :: c < m <= n && s.commitIndex < m ==> !MayCommit(s, m, term, quorum)
  {
    if n > s.commitIndex {
      assert (set p | p in s.matchIndex && s.matchIndex[p] >= n) == Replicated(s.matchIndex, n);
      if !Committable(s, n, term, quorum) {
        ScanStops(s, n - 1, term, quorum);
      }
    }
  }

  // The commit index moves to the highest index above it that may be committed, and stays if there is
  // none.
  lemma CommitsHighest(s: NodeState, term: nat, quorum: nat)
    ensures
      var s' := AdvanceCommit(s, term, quorum);
      s' == s.(commitIndex := s'.commitIndex) &&
      (s'.commitIndex == s.commitIndex ||
       (s.commitIndex < s'.commitIndex && MayCommit(s, s'.commitIndex, term, quorum))) &&
      forall m :: s'.commitIndex < m ==> !MayCommit(s, m, term, quorum)
  {
    ScanStops(s, |s.log|, term, quorum);
  }

  // The entries of an apply pass, taken one by one.
  function Looped(s: NodeState): NodeState
    requires s.loop.Applying?
    decreases if s.loop.next <= s.loop.upTo then s.loop.upTo - s.loop.next + 1 else 0
  {
    if s.loop.next > s.loop.upTo then s else Looped(ApplyOne(s))
  }

  // The entries of a log from one index to another, as calls of apply_fn.
  function Calls(log: Log, from: nat, to: nat): seq<Applied>
    requires from <= to <= |log|
  {
    seq(to - from, k requires 0 <= k < to - from => Applied(from + k + 1, log[from + k]))
  }

  lemma OneCall(s: NodeState)
    requires s.loop.Applying? && 1 <= s.loop.next <= s.loop.upTo <= |s.log|
    ensures
      var s' := ApplyOne(s);
      s' == s.(applied := s'.applied, loop := Applying(s.loop.next + 1, s.loop.upTo)) &&
      s'.applied + Calls(s.log, s.loop.next, s.loop.upTo) ==
      s.applied + Calls(s.log, s.loop.next - 1, s.loop.upTo)
  {
    assert Calls(s.log, s.loop.next - 1, s.loop.upTo) ==
           [Applied(s.loop.next, s.log[s.loop.next - 1])] + Calls(s.log, s.loop.next, s.loop.upTo);
  }

  lemma {:induction false} LoopApplies(s: NodeState)
    requires s.loop.Applying? && 1 <= s.loop.next <= s.loop.upTo + 1 && s.loop.upTo <= |s.log|
    ensures
      var done := Looped(s);
      done == s.(applied := s.applied + Calls(s.log, s.loop.next - 1, s.loop.upTo),
                 loop := Applying(s.loop.upTo + 1, s.loop.upTo))
    decreases s.loop.upTo + 1 - s.loop.next
  {
    if s.loop.next <= s.loop.upTo {
      OneCall(s);
      hide Calls;
      LoopApplies(ApplyOne(s));
    } else {
      assert s.applied + Calls(s.log, s.loop.next - 1, s.loop.upTo) == s.applied;
    }
  }

  // A pass that nothing disturbs hands over exactly the committed entries that were not applied yet, in
  // order, and leaves nothing to apply, as written and as meant.
  lemma PassApplies(s: NodeState, code: Code)
    requires s.lastApplied <= s.commitIndex <= |s.log|
    ensures
      EndPass(code, Looped(ApplyBegin(s))) ==
      s.(applied := s.applied + Calls(s.log, s.lastApplied, s.commitIndex), lastApplied := s.commitIndex, loop := Idle)
  {
    LoopApplies(ApplyBegin(s));
  }

  // The answer to a request that is taken claims the whole log as written, and what the request covers
  // as meant; a refusal is the same in both.
  lemma AnswerClaims(s: NodeState, m: Message, code: Code)
    requires m.AppendRequest?
    ensures
      var (s', reply) := HandleAppendEntries(s, m.term, m.src, m.prev, m.prevTerm, m.entries, m.commit);
      AnswerTo(s, m, code) ==
      if reply.success
      then AppendReply(m.term, true, if code == AsWritten then |s'.log| else m.prev + |m.entries|)
      else reply
  {
    AppendTakes(s, m.term, m.src, m.prev, m.prevTerm, m.entries, m.commit);
    hide Took, HandleAppendEntries;
  }
}
