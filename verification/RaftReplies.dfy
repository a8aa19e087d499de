/** Two places where the code differs from its intent, and exactly when it meets it. */
module RaftReplies {
  import opened RaftProtocol
  import opened RaftCluster
  import opened RaftHistory
  import opened RaftElection
  import opened RaftCommit
  import opened RaftSafety
  import opened RaftTheorems

  // ---- the match index of a successful answer ---------------------------------------------------

  // Something outlives the request: entries past its end, and no conflict that would cut them off.
  predicate LongerTail(log: Log, prev: nat, entries: Log) {
    |log| > prev + |entries| && !Conflicts(log, prev, entries)
  }

  lemma {:induction false} MergeLength(log: Log, prev: nat, entries: Log, i: nat)
    requires i <= |entries| && prev + i <= |log|
    requires forall k :: 0 <= k < i ==> log[prev + k].term == entries[k].term
    ensures |MergeFrom(log, prev, entries, i)| ==
            if LongerTail(log, prev, entries) then |log| else prev + |entries|
    decreases |entries| - i
  {
    if i < |entries| && prev + i < |log| && log[prev + i].term == entries[i].term {
      MergeLength(log, prev, entries, i + 1);
    }
  }

  // As written a successful answer is the last index the request covers if and only if nothing outlives
  // the request; otherwise it claims the whole log.
  lemma MatchReplyIsExactIff(
    s: NodeState, term: nat, leader: NodeId, prev: nat, prevTerm: nat, entries: Log, commit: nat)
    requires HandleAppendEntries(s, term, leader, prev, prevTerm, entries, commit).1.success
    ensures
      var reply := HandleAppendEntries(s, term, leader, prev, prevTerm, entries, commit).1;
      (reply.matchIndex == prev + |entries| <==> !LongerTail(s.log, prev, entries)) &&
      (LongerTail(s.log, prev, entries) ==> reply.matchIndex == |s.log|)
  {
    MergeLength(s.log, prev, entries, 0);
  }

  // In every run an answer as meant claims only entries the follower shares with the leader of that
  // term, and an answer as written does if and only if no stale tail outlives the request, which the
  // follower can see before it answers. A longer tail of the leader's own entries is harmless.
  lemma AnswerIsHonestIff(members: set<NodeId>, run: seq<Cluster>, actions: seq<Action>, n: nat)
    requires ElectionSize(|members|) && IsRun(members, run, actions) && n < |actions|
    requires actions[n].DeliverAppendRequest?
    requires AnswerTo(run[n].nodes[actions[n].node], actions[n].message, AsWritten).success
    ensures
      var i, m, h := actions[n].node, actions[n].message, HistoryOf(members, run, actions, n);
      var s := run[n].nodes[i];
      var after := HandleAppendEntries(s, m.term, m.src, m.prev, m.prevTerm, m.entries, m.commit).0.log;
      m.term in h.leads && Shares(after, h.leads[m.term].log, AnswerTo(s, m, AsMeant).matchIndex) &&
      (Shares(after, h.leads[m.term].log, AnswerTo(s, m, AsWritten).matchIndex) <==>
       !StaleTail(s.log, m.prev, m.entries, m.term))
  {
    assert |run| == |actions| + 1 && Enabled(members, run[n], actions[n]);
    hide IsRun, HistoryOf, HandleAppendEntries, StaleTail, Shares, HistoryBasic, NodeBasic;
    var i, m, h := actions[n].node, actions[n].message, HistoryOf(members, run, actions, n);
    var s := run[n].nodes[i];
    RunIsBasic(members, run, actions, n);
    assert NodeBasic(h, i, s) && MessageBasic(members, h, m);
    WholeLogHonestIff(members, h, i, s, m);
    AnswerIsShared(members, h, i, s, m, AsMeant);
    AppendFields(s, m);
  }

  // ---- backing off ------------------------------------------------------------------------------------

  // A follower that does not know a later term either takes a request or sends the leader at least one
  // entry further back, and at the start of the log it always takes it.
  lemma RefusalBacksOff(s: NodeState, i: NodeId, peer: NodeId, commit: nat, follower: NodeState, quorum: nat)
    requires s.role == Leader && NextIndex(s, peer) >= 1 && follower.term <= s.term
    ensures
      var m := AppendTo(s, i, peer, commit);
      var reply := HandleAppendEntries(follower, m.term, i, m.prev, m.prevTerm, m.entries, m.commit).1;
      (reply.success || NextIndex(HandleAppendReply(s, i, peer, s.term, reply, quorum), peer) < NextIndex(s, peer)) &&
      (NextIndex(s, peer) == 1 ==> reply.success)
  {
    hide MergeFrom, AdvanceCommit;
  }

  // Whether one of a number of requests in a row gets through, nothing else reaching either side.
  function GetsThrough(s: NodeState, i: NodeId, peer: NodeId, commit: nat, follower: NodeState, quorum: nat, tries: nat)
    : bool
    decreases tries
  {
    tries > 0 &&
    var m := AppendTo(s, i, peer, commit);
    var (f, reply) := HandleAppendEntries(follower, m.term, i, m.prev, m.prevTerm, m.entries, m.commit);
    reply.success ||
    GetsThrough(HandleAppendReply(s, i, peer, s.term, reply, quorum), i, peer, commit, f, quorum, tries - 1)
  }

  // As many requests as next_index are always enough.
  lemma {:induction false} RequestsGetThrough(
    s: NodeState, i: NodeId, peer: NodeId, commit: nat, follower: NodeState, quorum: nat, tries: nat)
    requires s.role == Leader && follower.term <= s.term && 1 <= NextIndex(s, peer) <= tries
    ensures GetsThrough(s, i, peer, commit, follower, quorum, tries)
    decreases tries
  {
    hide MergeFrom, AdvanceCommit;
    var m := AppendTo(s, i, peer, commit);
    var (f, reply) := HandleAppendEntries(follower, m.term, i, m.prev, m.prevTerm, m.entries, m.commit);
    RefusalBacksOff(s, i, peer, commit, follower, quorum);
    if !reply.success {
      RequestsGetThrough(HandleAppendReply(s, i, peer, s.term, reply, quorum), i, peer, commit, f, quorum, tries - 1);
    }
  }

  // ---- the end of an apply pass ---------------------------------------------------------------------

  // Every index once, in order, with the entry the log holds there.
  ghost predicate InOrder(s: NodeState) {
    |s.applied| <= |s.log| &&
    (forall k :: 0 <= k < |s.applied| ==> s.applied[k] == Applied(k + 1, s.log[k])) &&
    match s.loop
    case Idle => |s.applied| == s.lastApplied
    case Applying(next, upTo) => next == |s.applied| + 1 && next <= upTo + 1 && s.lastApplied <= upTo
  }

  // last_applied is re-read from the commit index after the loop: nothing is skipped if and only
  // if no commit landed while the loop ran.
  lemma ApplyEndIsGapFreeIff(s: NodeState)
    requires InOrder(s) && s.loop.Applying? && s.loop.next > s.loop.upTo && s.loop.upTo <= s.commitIndex
    ensures InOrder(ApplyEnd(s)) <==> s.commitIndex == s.loop.upTo
  {
    assert s.commitIndex == s.loop.upTo ==> ApplyEnd(s).lastApplied == |s.applied|;
  }

  // As meant nothing is ever skipped.
  lemma EndAsMeantIsGapFree(s: NodeState)
    requires InOrder(s) && s.loop.Applying? && s.loop.next > s.loop.upTo
    ensures InOrder(EndPass(AsMeant, s))
  {
  }

  // A pass that ends as written ends at the commit index it captured.
  ghost predicate SteadyEnd(c: Cluster, a: Action) {
    a.EndApply? && a.code == AsWritten ==>
      a.node in c.nodes && c.nodes[a.node].loop.Applying? && c.nodes[a.node].commitIndex == c.nodes[a.node].loop.upTo
  }

  ghost predicate SteadyApply(run: seq<Cluster>, actions: seq<Action>) {
    |run| > |actions| && forall k :: 0 <= k < |actions| ==> SteadyEnd(run[k], actions[k])
  }

  lemma InOrderStands(s: NodeState, s': NodeState)
    requires InOrder(s) && Stands(s, s') && |s.applied| <= s.commitIndex <= |s.log|
    requires s'.loop == s.loop && s'.applied == s.applied && s'.lastApplied == s.lastApplied
    ensures InOrder(s')
  {
    forall k | 0 <= k < |s.applied| ensures s.applied[k] == Applied(k + 1, s'.log[k]) {
      assert s'.log[k] == s'.log[..s.commitIndex][k] == s.log[..s.commitIndex][k];
    }
  }

  // Everything but the apply loop itself leaves the consumed sequence alone.
  lemma ApplyUntouched(members: set<NodeId>, c: Cluster, a: Action)
    requires Enabled(members, c, a) && !a.BeginApply? && !a.ApplyNext? && !a.EndApply? && !a.Crash?
    ensures
      var s, s' := c.nodes[a.node], Effect(members, c, a).0;
      s'.loop == s.loop && s'.applied == s.applied && s'.lastApplied == s.lastApplied
  {
    hide MergeFrom, ScanCommit;
  }

  lemma {:induction false} ApplyStepInOrder(members: set<NodeId>, c: Cluster, h: History, a: Action)
    requires Enabled(members, c, a) && NodeCommit(members, h, a.node, c.nodes[a.node]) && InOrder(c.nodes[a.node])
    requires a.BeginApply? || a.ApplyNext? || a.EndApply? || a.Crash?
    requires SteadyEnd(c, a)
    ensures InOrder(Effect(members, c, a).0)
  {
    hide HandleAppendEntries, HandleAppendReply, HandleRequestVote, HandleVoteReply, BecomeLeader;
    var s := c.nodes[a.node];
    hide NodeHoldsAcks, BooksKept, CommitJustified;
    if a.ApplyNext? {
      hide NodeCommit, Backed;
      ApplyBacked(members, h, a.node, s);
    } else if a.EndApply? {
      if a.code == AsMeant {
        EndAsMeantIsGapFree(s);
      } else {
        ApplyEndIsGapFreeIff(s);
      }
    }
  }

  // In a sound run every node has consumed a gap-free prefix of its log, as long as the passes that end
  // as written end at the commit index they started from.
  lemma {:induction false} AppliedInOrder(
    members: set<NodeId>, run: seq<Cluster>, actions: seq<Action>, n: nat, i: NodeId)
    requires SoundRun(members, run, actions) && SteadyApply(run, actions) && n <= |actions|
    requires i in members
    ensures i in run[n].nodes && InOrder(run[n].nodes[i])
  {
    if n > 0 {
      AppliedInOrder(members, run, actions, n - 1, i);
      var a, s := actions[n - 1], run[n - 1].nodes[i];
      NodeAt(members, run, actions, n - 1, i);
      hide NodeBasic, HistoryBasic, HistoryCommit, Effect, Enabled, HistoryOf, HonestAnswer, HonestRun, InOrder,
           NodeCommit;
      if a.node != i {
      } else if a.BeginApply? || a.ApplyNext? || a.EndApply? || a.Crash? {
        ApplyStepInOrder(members, run[n - 1], HistoryOf(members, run, actions, n - 1), a);
      } else {
        CommitsStand(members, run, actions, n - 1, i);
        ApplyUntouched(members, run[n - 1], a);
        AppliedCommitted(members, HistoryOf(members, run, actions, n - 1), i, s);
        InOrderStands(s, run[n].nodes[i]);
      }
    }
  }

  lemma AppliedCommitted(members: set<NodeId>, h: History, i: NodeId, s: NodeState)
    requires NodeCommit(members, h, i, s) && InOrder(s)
    ensures |s.applied| <= s.commitIndex <= |s.log|
  {
    CommitInLog(members, h, s.log, s.commitIndex, s.term);
  }

  // As the code is meant, every node at every moment of every run has consumed a gap-free prefix.
  lemma RepairedInOrder(members: set<NodeId>, run: seq<Cluster>, actions: seq<Action>, n: nat, i: NodeId)
    requires RepairedRun(members, run, actions) && n <= |actions| && i in members
    ensures i in run[n].nodes && InOrder(run[n].nodes[i])
  {
    hide IsRun;
    RepairedIsSound(members, run, actions);
    RepairedIsSteady(members, run, actions);
    AppliedInOrder(members, run, actions, n, i);
  }

  lemma RepairedIsSteady(members: set<NodeId>, run: seq<Cluster>, actions: seq<Action>)
    requires RepairedRun(members, run, actions)
    ensures SteadyApply(run, actions)
  {
    forall k | 0 <= k < |actions| ensures SteadyEnd(run[k], actions[k]) { assert Runs(AsMeant, actions[k]); }
  }
}
