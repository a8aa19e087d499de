/** Every step keeps the commit invariants; state machine safety follows. */
module RaftSafety {
  import opened Wrappers
  import opened RaftProtocol
  import opened RaftCluster
  import opened RaftHistory
  import opened RaftQuorums
  import opened RaftElection
  import opened RaftCommit

  // A node j that keeps its log, does not go back in term, has no new acknowledgement and does
  // not newly lead keeps its part.
  lemma NodeCommitCarried(
    members: set<NodeId>, h: History, h': History, i: NodeId, j: NodeId, s: NodeState, s': NodeState)
    requires Extends(h, h', i) && NodeCommit(members, h, j, s)
    requires forall a :: a in h.acks ==> AckBounded(members, h, a)
    requires forall a :: a in h'.acks && a.node == j ==> a in h.acks
    requires s'.log == s.log && s'.term >= s.term && (s'.role == Leader ==> s.role == Leader && s'.term == s.term)
    requires s'.commitIndex == s.commitIndex && s'.matchIndex == s.matchIndex && s'.nextIndex == s.nextIndex
    requires s'.lastApplied == s.lastApplied && s'.loop == s.loop && s'.applied == s.applied
    ensures NodeCommit(members, h', j, s')
  {
    forall a | a in h'.acks && a.node == j ensures a.term <= s'.term && HoldsAck(h', s'.log, a, s'.term) {
      HoldsAckStays(members, h, h', i, s.log, a, s.term, s'.term);
    }
    if s'.role == Leader {
      forall p | p in s.matchIndex && s.matchIndex[p] > 0 ensures Acked(h', p, s.term, s.matchIndex[p]) {
        AckedStays(h, h', i, p, s.term, s.matchIndex[p]);
      }
    }
    CommitStays(members, h, h', i, s.log, s.commitIndex, s.term, s'.term);
  }

  lemma ShownStays(G: Log, G': Log, m: Message)
    requires m.AppendRequest? && GrewBy(G, G', m.term) && m.prev + |m.entries| <= |G|
    ensures Shown(G', m) == Shown(G, m)
    ensures TermAt(G', m.prev) == TermAt(G, m.prev)
    ensures G'[m.prev..m.prev + |m.entries|] == G[m.prev..m.prev + |m.entries|]
  {
    var n := m.prev + |m.entries|;
    assert G'[..n] == G'[..|G|][..n];
    assert G'[m.prev..n] == G'[..n][m.prev..];
    assert G[m.prev..n] == G[..n][m.prev..];
  }

  lemma MessageCommitStays(members: set<NodeId>, h: History, h': History, i: NodeId, m: Message)
    requires Extends(h, h', i) && MessageCommit(members, h, m)
    ensures MessageCommit(members, h', m)
  {
    if m.AppendRequest? {
      ShownStays(h.leads[m.term].log, h'.leads[m.term].log, m);
      CommitStays(members, h, h', i, Shown(h.leads[m.term].log, m), m.commit, m.term, m.term);
    } else if m.AppendAnswer? && m.appendReply.success && m.appendReply.matchIndex > 0 {
      AckedStays(h, h', i, m.src, m.requestTerm, m.appendReply.matchIndex);
    }
  }

  lemma BallotHoldsStays(members: set<NodeId>, h: History, h': History, i: NodeId, v: (NodeId, nat))
    requires Extends(h, h', i) && v in h.votes && BallotHoldsAcks(h, v)
    requires forall a :: a in h.acks ==> AckBounded(members, h, a)
    requires forall a :: a in h'.acks && a !in h.acks && a.node == v.0 ==> v.1 <= a.term
    ensures BallotHoldsAcks(h', v)
  {
    if v.1 !in h'.leads || v.0 in h'.leads[v.1].voters {
      forall a | a in h'.acks && a.node == v.0 && a.term < v.1
        ensures HoldsAck(h', h'.votes[v].log, a, v.1 - 1)
      {
        HoldsAckStays(members, h, h', i, h.votes[v].log, a, v.1 - 1, v.1 - 1);
      }
    }
  }

  // The history invariants survive when what is new is justified, and a new acknowledgement
  // belongs to a term its node has not voted beyond.
  lemma HistoryCommitGrows(members: set<NodeId>, h: History, h': History, i: NodeId)
    requires Extends(h, h', i) && HistoryCommit(members, h)
    requires forall a :: a in h'.acks && a !in h.acks ==> AckBounded(members, h', a)
    requires forall a, v :: a in h'.acks && a !in h.acks && v in h.votes && a.node == v.0 ==> v.1 <= a.term
    requires forall v :: v in h'.votes && v !in h.votes ==> BallotHoldsAcks(h', v)
    requires forall r :: r in h'.applied && r !in h.applied ==> Backed(members, h', r)
    ensures HistoryCommit(members, h')
  {
    forall a | a in h'.acks ensures AckBounded(members, h', a) {
      if a in h.acks { assert AckBounded(members, h, a); }
    }
    forall v | v in h'.votes ensures BallotHoldsAcks(h', v) {
      if v in h.votes { BallotHoldsStays(members, h, h', i, v); }
    }
    forall r | r in h'.applied ensures Backed(members, h', r) {
      if r in h.applied { BackedStays(members, h, h', i, r); }
    }
  }

  lemma CommittedFromParts(
    members: set<NodeId>, c: Cluster, h: History, h': History, i: NodeId, s': NodeState, sent: set<Message>)
    requires Committed(members, c, h) && Extends(h, h', i) && i in members
    requires HistoryCommit(members, h') && NodeCommit(members, h', i, s')
    requires forall m :: m in sent ==> MessageCommit(members, h', m)
    ensures Committed(members, Cluster(c.nodes[i := s'], c.messages + sent), h')
  {
    forall j | j in members && j != i ensures NodeCommit(members, h', j, c.nodes[j]) {
      NodeCommitCarried(members, h, h', i, j, c.nodes[j], c.nodes[j]);
    }
    forall m | m in c.messages ensures MessageCommit(members, h', m) { MessageCommitStays(members, h, h', i, m); }
  }

  // No leader of `term` yet, so nothing dropped by then was dropped by it.
  lemma HoldsAckBefore(h: History, L: Log, a: Ack, last: nat, term: nat)
    requires HoldsAck(h, L, a, last) && last <= term && term !in h.leads
    ensures HoldsAck(h, L, a, term - 1)
  {
    forall k: nat | k <= a.upTo && OwnEntry(h, a.term, k)
      ensures Shares(L, h.leads[a.term].log, k) || Dropped(h, a.term, k, term - 1)
    {
      if !Shares(L, h.leads[a.term].log, k) {
        var u :| u in h.leads && a.term < u <= last && !Shares(h.leads[u].log, h.leads[a.term].log, k);
        assert u <= term - 1;
      }
    }
  }

  // A vote in a term nobody has won yet is cast by a node that holds what it acknowledged.
  lemma NewBallotHolds(members: set<NodeId>, h: History, i: NodeId, s: NodeState, term: nat, ballot: Ballot)
    requires NodeCommit(members, h, i, s) && s.term <= term && ballot.log == s.log
    requires (i, term) !in h.votes && HistoryBasic(members, h)
    requires forall a :: a in h.acks ==> AckBounded(members, h, a)
    ensures BallotHoldsAcks(h.(votes := h.votes[(i, term) := ballot]), (i, term))
  {
    var h' := h.(votes := h.votes[(i, term) := ballot]);
    NewVoteExtends(h, i, term, ballot);
    assert term in h.leads ==> LeadBasic(members, h, term);
    if term !in h.leads {
      forall a | a in h.acks && a.node == i && a.term < term ensures HoldsAck(h', s.log, a, term - 1) {
        HoldsAckBefore(h, s.log, a, s.term, term);
        HoldsAckStays(members, h, h', i, s.log, a, term - 1, term - 1);
      }
    }
  }

  lemma TimeoutCommit(members: set<NodeId>, c: Cluster, h: History, h': History, i: NodeId)
    requires Basic(members, c, h) && Committed(members, c, h) && i in members
    requires h' == h.(votes := h.votes[(i, c.nodes[i].term + 1) := Ballot(i, c.nodes[i].log)])
    requires Extends(h, h', i)
    ensures
      var s' := StartElection(c.nodes[i], i);
      var m := VoteRequest(i, s'.term, |s'.log|, LastTerm(s'.log));
      Committed(members, Cluster(c.nodes[i := s'], c.messages + {m}), h')
  {
    hide MessageBasic, BallotBasic, LeadBasic, BallotHoldsAcks, Extends, Sane, RoleJustified, NodeHoldsAcks, Backed;
    var s := c.nodes[i];
    var s' := StartElection(s, i);
    assert NodeBasic(h, i, s);
    NewBallotHolds(members, h, i, s, s.term + 1, Ballot(i, s.log));
    HistoryCommitGrows(members, h, h', i);
    NodeCommitCarried(members, h, h', i, i, s, s');
    CommittedFromParts(members, c, h, h', i, s', {VoteRequest(i, s'.term, |s'.log|, LastTerm(s'.log))});
  }

  // A follower's reply to a vote request costs it nothing it has acknowledged or committed.
  lemma VoteRequestCommit(members: set<NodeId>, c: Cluster, h: History, h': History, i: NodeId, m: Message)
    requires Basic(members, c, h) && Committed(members, c, h) && i in members
    requires m.VoteRequest?
    requires
      var granted := HandleRequestVote(c.nodes[i], m.term, m.src, m.lastIndex, m.lastTerm).1.granted;
      h' == if granted && (i, m.term) !in h.votes
            then h.(votes := h.votes[(i, m.term) := Ballot(m.src, c.nodes[i].log)]) else h
    requires Extends(h, h', i)
    ensures
      var (s', reply) := HandleRequestVote(c.nodes[i], m.term, m.src, m.lastIndex, m.lastTerm);
      Committed(members, Cluster(c.nodes[i := s'], c.messages + {VoteAnswer(i, m.src, m.term, reply)}), h')
  {
    hide MessageBasic, BallotBasic, LeadBasic, BallotHoldsAcks, Extends, Sane, RoleJustified, NodeHoldsAcks, Backed,
         UpToDate;
    var s := c.nodes[i];
    var (s', reply) := HandleRequestVote(s, m.term, m.src, m.lastIndex, m.lastTerm);
    if reply.granted && (i, m.term) !in h.votes {
      NewBallotHolds(members, h, i, s, m.term, Ballot(m.src, s.log));
    }
    HistoryCommitGrows(members, h, h', i);
    NodeCommitCarried(members, h, h', i, i, s, s');
    CommittedFromParts(members, c, h, h', i, s', {VoteAnswer(i, m.src, m.term, reply)});
  }

  // ---- elections and proposals ----------------------------------------------------------------

  // A leader holds all of its own log, so its own acknowledgement is honest.
  lemma LeaderHoldsAcks(
    members: set<NodeId>, h: History, h': History, i: NodeId, s: NodeState, s': NodeState)
    requires Extends(h, h', i) && NodeHoldsAcks(h, i, s) && HistoryCommit(members, h)
    requires GrewBy(s.log, s'.log, s.term) && s'.term == s.term
    requires s.term in h'.leads && h'.leads[s.term].log == s'.log
    requires forall a :: a in h'.acks && a !in h.acks && a.node == i ==> a == Ack(i, s.term, |s'.log|)
    ensures NodeHoldsAcks(h', i, s')
  {
    forall a | a in h'.acks && a.node == i ensures a.term <= s'.term && HoldsAck(h', s'.log, a, s'.term) {
      if a in h.acks {
        assert AckBounded(members, h, a);
        HoldsAckStays(members, h, h', i, s.log, a, s.term, s.term);
        forall k: nat | k <= a.upTo && OwnEntry(h', a.term, k) && Shares(s.log, h'.leads[a.term].log, k)
          ensures Shares(s'.log, h'.leads[a.term].log, k)
        {
          assert s'.log[..k] == s'.log[..|s.log|][..k];
        }
      }
    }
  }

  lemma CommitLonger(members: set<NodeId>, h: History, L: Log, L': Log, commit: nat, last: nat)
    requires CommitJustified(members, h, L, commit, last) && |L| <= |L'| && L == L'[..|L|]
    ensures CommitJustified(members, h, L', commit, last)
  {
    if commit > 0 {
      var t: nat, k: nat :| CommitWitness(members, h, L, commit, last, t, k);
      assert L'[..commit] == L'[..|L|][..commit];
      assert CommitWitness(members, h, L', commit, last, t, k);
    }
  }

  lemma OwnVotesBounded(h: History, i: NodeId, s: NodeState)
    requires NodeBasic(h, i, s)
    ensures forall v :: v in h.votes && v.0 == i ==> v.1 <= s.term
  {
    forall v | v in h.votes && v.0 == i ensures v.1 <= s.term {
      assert v == (i, v.1);
    }
  }

  lemma WinBooks(members: set<NodeId>, h': History, i: NodeId, s: NodeState)
    requires s.matchIndex.Keys <= members && s.nextIndex.Keys <= members - {i} && i in members
    requires Ack(i, s.term, |s.log|) in h'.acks
    ensures BooksKept(members, h', i, BecomeLeader(s, i, members - {i}))
  {
    assert Acked(h', i, s.term, |s.log|);
  }

  lemma WinNodeCommit(members: set<NodeId>, h: History, h': History, i: NodeId, s: NodeState, grants: set<NodeId>)
    requires HistoryCommit(members, h) && NodeCommit(members, h, i, s) && i in members && s.term !in h.leads
    requires h' == h.(leads := h.leads[s.term := Lead(i, grants + {i}, s.log)],
                      acks := h.acks + {Ack(i, s.term, |s.log|)})
    requires Extends(h, h', i)
    ensures NodeCommit(members, h', i, BecomeLeader(s, i, members - {i}))
  {
    hide HistoryCommit;
    var s' := BecomeLeader(s, i, members - {i});
    LeaderHoldsAcks(members, h, h', i, s, s') by { hide NodeCommit, Extends; }
    CommitStays(members, h, h', i, s.log, s.commitIndex, s.term, s.term);
    WinBooks(members, h', i, s);
  }

  lemma WinCommit(members: set<NodeId>, c: Cluster, h: History, h': History, i: NodeId, grants: set<NodeId>)
    requires Basic(members, c, h) && Committed(members, c, h) && i in members && c.nodes[i].term !in h.leads
    requires var s := c.nodes[i];
      h' == h.(leads := h.leads[s.term := Lead(i, grants + {i}, s.log)],
               acks := h.acks + {Ack(i, s.term, |s.log|)})
    requires Extends(h, h', i)
    ensures
      Committed(members, Cluster(c.nodes[i := BecomeLeader(c.nodes[i], i, members - {i})], c.messages + {}), h')
  {
    hide BecomeLeader, Extends, LeadBasic, BallotBasic, MessageCommit, HistoryCommit, NodeBasic, NodeCommit;
    var s := c.nodes[i];
    WinNodeCommit(members, h, h', i, s, grants);
    OwnVotesBounded(h, i, s);
    HistoryCommitGrows(members, h, h', i);
    CommittedFromParts(members, c, h, h', i, BecomeLeader(s, i, members - {i}), {});
  }

  lemma SubmitNodeCommit(members: set<NodeId>, h: History, h': History, i: NodeId, s: NodeState, command: string)
    requires HistoryCommit(members, h) && NodeBasic(h, i, s) && NodeCommit(members, h, i, s) && i in members
    requires s.role == Leader
    requires
      var L' := Propose(s, i, command).0.log;
      h' == h.(leads := h.leads[s.term := h.leads[s.term].(log := L')], acks := h.acks + {Ack(i, s.term, |L'|)})
    requires Extends(h, h', i)
    ensures NodeCommit(members, h', i, Propose(s, i, command).0)
  {
    var s' := Propose(s, i, command).0;
    LeaderHoldsAcks(members, h, h', i, s, s');
    CommitStays(members, h, h', i, s.log, s.commitIndex, s.term, s.term);
    CommitLonger(members, h', s.log, s'.log, s.commitIndex, s.term);
    assert Ack(i, s.term, |s'.log|) in h'.acks;
    assert Acked(h', i, s.term, |s'.log|);
    forall p | p in s'.matchIndex && s'.matchIndex[p] > 0 ensures Acked(h', p, s.term, s'.matchIndex[p]) {
      if p != i { AckedStays(h, h', i, p, s.term, s.matchIndex[p]); }
    }
  }

  lemma SubmitCommit(members: set<NodeId>, c: Cluster, h: History, h': History, i: NodeId, command: string)
    requires Basic(members, c, h) && Committed(members, c, h) && i in members && c.nodes[i].role == Leader
    requires c.nodes[i].term in h.leads
    requires
      var s, L' := c.nodes[i], Propose(c.nodes[i], i, command).0.log;
      h' == h.(leads := h.leads[s.term := h.leads[s.term].(log := L')], acks := h.acks + {Ack(i, s.term, |L'|)})
    requires Extends(h, h', i)
    ensures
      Committed(members, Cluster(c.nodes[i := Propose(c.nodes[i], i, command).0], c.messages + {}), h')
  {
    hide Extends, LeadBasic, BallotBasic, MessageCommit, HistoryCommit, NodeBasic, NodeCommit;
    var s := c.nodes[i];
    SubmitNodeCommit(members, h, h', i, s, command);
    OwnVotesBounded(h, i, s);
    HistoryCommitGrows(members, h, h', i);
    CommittedFromParts(members, c, h, h', i, Propose(s, i, command).0, {});
  }

  // ---- replication ------------------------------------------------------------------------------

  lemma CommitLess(members: set<NodeId>, h: History, L: Log, commit: nat, less: nat, last: nat)
    requires CommitJustified(members, h, L, commit, last) && less <= commit
    ensures CommitJustified(members, h, L, less, last)
  {
    if less > 0 {
      var t: nat, k: nat :| CommitWitness(members, h, L, commit, last, t, k);
      SharesShorter(L, h.leads[t].log, less, commit);
      assert CommitWitness(members, h, L, less, last, t, k);
    }
  }

  // The commit index a leader sends is covered by what the request shows.
  lemma RequestCommit(members: set<NodeId>, h: History, i: NodeId, s: NodeState, peer: NodeId, commit: nat)
    requires NodeBasic(h, i, s) && NodeCommit(members, h, i, s) && s.role == Leader
    requires commit <= s.commitIndex && peer != i
    ensures MessageCommit(members, h, AppendTo(s, i, peer, commit))
  {
    hide NodeHoldsAcks, ApplyBounded;
    var m := AppendTo(s, i, peer, commit);
    RequestCarriesLog(h, i, s, peer, commit);
    assert m.prev + |m.entries| == |s.log|;
    assert Shown(s.log, m) == s.log;
    assert m.entries == s.log[m.prev..m.prev + |m.entries|];
    CommitLess(members, h, s.log, s.commitIndex, commit, s.term);
  }

  lemma ReplicateCommit(members: set<NodeId>, c: Cluster, h: History, i: NodeId, peer: NodeId, commit: nat)
    requires Basic(members, c, h) && Committed(members, c, h) && i in members && c.nodes[i].role == Leader
    requires commit <= c.nodes[i].commitIndex && peer in members && peer != i
    ensures MessageCommit(members, h, AppendTo(c.nodes[i], i, peer, commit))
    ensures
      Committed(members, Cluster(c.nodes[i := c.nodes[i]], c.messages + {AppendTo(c.nodes[i], i, peer, commit)}), h)
  {
    hide LeadBasic, BallotBasic, MessageCommit, HistoryCommit, NodeBasic, NodeCommit, AppendTo;
    var s, m := c.nodes[i], AppendTo(c.nodes[i], i, peer, commit);
    RequestCommit(members, h, i, s, peer, commit);
    CommittedFromParts(members, c, h, h, i, s, {m});
  }

  lemma SharedTerms(L: Log, M: Log, X: Log, k: nat)
    requires Shares(L, X, k)
    requires Shares(M, X, k) || (|M| <= k && M == X[..|M|])
    ensures forall n :: 1 <= n <= k && n <= |M| ==> TermAt(L, n) == TermAt(M, n)
  {
    forall n | 1 <= n <= k && n <= |M| ensures TermAt(L, n) == TermAt(M, n) {
      assert L[n - 1] == L[..k][n - 1] == X[..k][n - 1];
      assert M[n - 1] == X[n - 1] by {
        if Shares(M, X, k) { assert M[..k][n - 1] == X[..k][n - 1]; }
      }
    }
  }

  // A follower's log keeps whatever it shares with X, when the leader's log M shares it too or is
  // itself an earlier piece of X.
  lemma OutcomeKeeps(L: Log, M: Log, m: Message, L': Log, success: bool, X: Log, k: nat)
    requires m.AppendRequest? && AppendOutcome(L, M, m, L', success)
    requires m.prev <= |M| && m.prevTerm == TermAt(M, m.prev)
    requires Shares(L, X, k)
    requires Shares(M, X, k) || (|M| <= k && M == X[..|M|])
    ensures Shares(L', X, k)
  {
    if success {
      if |M| <= k && M == X[..|M|] {
        assert L[..|M|] == L[..k][..|M|] == X[..k][..|M|] == M;
      }
    } else if L' != L {
      SharedTerms(L, M, X, k);
      assert L'[..k] == L[..k];
    }
  }

  // The log a request shows has t's first k entries if the leader's log does, for any earlier t.
  lemma ShownShares(G: Log, m: Message, X: Log, t: nat, k: nat)
    requires m.AppendRequest? && m.prev + |m.entries| <= |G| && t != m.term
    requires forall n :: m.prev + |m.entries| <= n < |G| ==> G[n].term == m.term
    requires 1 <= k <= |X| && X[k - 1].term == t && Shares(G, X, k)
    ensures Shares(Shown(G, m), X, k)
  {
    assert G[k - 1] == G[..k][k - 1] == X[..k][k - 1];
    assert Shown(G, m)[..k] == G[..k];
  }

  ghost predicate Shows(members: set<NodeId>, h: History, m: Message) {
    m.AppendRequest? && MessageBasic(members, h, m) && MessageCommit(members, h, m)
  }

  lemma OutcomeHoldsAck(members: set<NodeId>, h: History, L: Log, m: Message, L': Log, success: bool, a: Ack, last: nat)
    requires Shows(members, h, m) && AckBounded(members, h, a)
    requires AppendOutcome(L, Shown(h.leads[m.term].log, m), m, L', success)
    requires HoldsAck(h, L, a, last) && a.term <= last <= m.term
    ensures HoldsAck(h, L', a, m.term)
  {
    var G := h.leads[m.term].log;
    var M := Shown(G, m);
    forall k: nat | k <= a.upTo && OwnEntry(h, a.term, k)
      ensures Shares(L', h.leads[a.term].log, k) || Dropped(h, a.term, k, m.term)
    {
      var X := h.leads[a.term].log;
      if Shares(L, X, k) {
        if a.term == m.term {
          if k <= |M| { assert M[..k] == G[..k]; }
          OutcomeKeeps(L, M, m, L', success, X, k);
        } else if Shares(G, X, k) {
          ShownShares(G, m, X, a.term, k);
          OutcomeKeeps(L, M, m, L', success, X, k);
        } else {
          assert Dropped(h, a.term, k, m.term);
        }
      } else {
        var u :| u in h.leads && a.term < u <= last && !Shares(h.leads[u].log, X, k);
        assert u <= m.term;
      }
    }
  }

  lemma OutcomeKeepsChosen(
    members: set<NodeId>, h: History, L: Log, m: Message, L': Log, success: bool, commit: nat, t: nat, k: nat)
    requires Shows(members, h, m) && t <= m.term && OwnEntry(h, t, k)
    requires AppendOutcome(L, Shown(h.leads[m.term].log, m), m, L', success)
    requires commit <= k && Shares(L, h.leads[t].log, commit)
    requires t < m.term ==> Shares(h.leads[m.term].log, h.leads[t].log, k)
    ensures Shares(L', h.leads[t].log, commit)
  {
    var G, X := h.leads[m.term].log, h.leads[t].log;
    var M := Shown(G, m);
    if t < m.term {
      ShownShares(G, m, X, t, k);
      SharesShorter(M, X, commit, k);
    } else if commit <= |M| {
      assert M[..commit] == G[..commit];
    }
    OutcomeKeeps(L, M, m, L', success, X, commit);
  }

  // Committed entries survive a request: same entries, same places.
  lemma OutcomeKeepsCommit(
    members: set<NodeId>, h: History, L: Log, m: Message, L': Log, success: bool, commit: nat, last: nat)
    requires ElectionSize(|members|) && HistoryBasic(members, h) && HistoryCommit(members, h)
    requires Shows(members, h, m) && last <= m.term
    requires AppendOutcome(L, Shown(h.leads[m.term].log, m), m, L', success)
    requires CommitJustified(members, h, L, commit, last)
    ensures CommitJustified(members, h, L', commit, m.term)
    ensures commit <= |L| && commit <= |L'| && L'[..commit] == L[..commit]
  {
    hide HistoryBasic, HistoryCommit, AppendOutcome, Shown, MessageBasic;
    if commit > 0 {
      var t: nat, k: nat :| CommitWitness(members, h, L, commit, last, t, k);
      if t < m.term {
        LeaderCompleteness(members, h, t, k, m.term) by { assert m.term in h.leads; }
      }
      OutcomeKeepsChosen(members, h, L, m, L', success, commit, t, k);
      assert CommitWitness(members, h, L', commit, m.term, t, k);
    }
  }

  // ---- the append handler -------------------------------------------------------------------------

  // The parts of the reply and of the new state that commits depend on, when the answer is exact.
  lemma AppendFields(s: NodeState, m: Message)
    requires m.AppendRequest?
    ensures
      var (s', reply) := HandleAppendEntries(s, m.term, m.src, m.prev, m.prevTerm, m.entries, m.commit);
      s'.matchIndex == s.matchIndex && s'.nextIndex == s.nextIndex && s'.lastApplied == s.lastApplied &&
      s'.loop == s.loop && s'.applied == s.applied &&
      (!reply.success ==> s'.commitIndex == s.commitIndex && reply.matchIndex <= m.prev) &&
      (reply.success ==> reply.matchIndex == |s'.log|) &&
      (reply.success ==>
        s'.commitIndex == if m.commit > s.commitIndex then Min(m.commit, |s'.log|) else s.commitIndex) &&
      (m.term < s.term ==> s' == s && !reply.success)
  {
  }

  // The leader's log as shown is the start of the follower's.
  lemma SuccessHolds(L: Log, G: Log, m: Message, L': Log)
    requires m.AppendRequest? && m.prev + |m.entries| <= |G| && AppendOutcome(L, Shown(G, m), m, L', true)
    ensures m.prev + |m.entries| <= |L'| && Shown(G, m) == L'[..m.prev + |m.entries|]
  {
  }

  // An acknowledgement of entries shared with the leader is held.
  lemma SharedHolds(h: History, i: NodeId, L: Log, term: nat, upTo: nat)
    requires term in h.leads && Shares(L, h.leads[term].log, upTo)
    ensures HoldsAck(h, L, Ack(i, term, upTo), term)
  {
    forall k: nat | k <= upTo && OwnEntry(h, term, k) ensures Shares(L, h.leads[term].log, k) {
      SharesShorter(L, h.leads[term].log, k, upTo);
    }
  }

  // One acknowledgement after a request: an earlier one, or the one just given.
  lemma AppendHoldsAck(
    members: set<NodeId>, h: History, i: NodeId, s: NodeState, m: Message, s': NodeState, success: bool, upTo: nat,
    a: Ack)
    requires Shows(members, h, m) && NodeHoldsAcks(h, i, s) && a.node == i
    requires AppendOutcome(s.log, Shown(h.leads[m.term].log, m), m, s'.log, success)
    requires s'.term == Max(s.term, m.term) && (success ==> m.term == s'.term)
    requires success ==> Shares(s'.log, h.leads[m.term].log, upTo)
    requires m.term < s.term ==> s' == s
    requires (a in h.acks && AckBounded(members, h, a)) || (success && a == Ack(i, m.term, upTo))
    ensures a.term <= s'.term && HoldsAck(h, s'.log, a, s'.term)
  {
    hide AppendOutcome, Shown, MessageBasic, HoldsAck, AckBounded, Shares;
    if a in h.acks && AckBounded(members, h, a) {
      if m.term >= s.term {
        OutcomeHoldsAck(members, h, s.log, m, s'.log, success, a, s.term);
      }
    } else {
      SharedHolds(h, i, s'.log, m.term, upTo);
    }
  }

  lemma AppendHoldsAcks(
    members: set<NodeId>, h: History, h': History, i: NodeId, s: NodeState, m: Message, upTo: nat)
    requires HistoryBasic(members, h) && HistoryCommit(members, h) && Shows(members, h, m)
    requires Sane(h, s.log) && NodeHoldsAcks(h, i, s)
    requires
      var (s', reply) := HandleAppendEntries(s, m.term, m.src, m.prev, m.prevTerm, m.entries, m.commit);
      h' == (if reply.success then h.(acks := h.acks + {Ack(i, m.term, upTo)}) else h) &&
      (reply.success ==> Shares(s'.log, h.leads[m.term].log, upTo))
    ensures
      NodeHoldsAcks(h', i, HandleAppendEntries(s, m.term, m.src, m.prev, m.prevTerm, m.entries, m.commit).0)
  {
    hide HandleAppendEntries, AppendOutcome, Shown, MessageBasic, MessageCommit, HistoryBasic, HoldsAck, Sane,
         AckBounded, BallotHoldsAcks, Backed, Shares;
    var (s', reply) := HandleAppendEntries(s, m.term, m.src, m.prev, m.prevTerm, m.entries, m.commit);
    AppendMeaning(members, h, s, m);
    AppendFields(s, m);
    forall a | a in h'.acks && a.node == i ensures a.term <= s'.term && HoldsAck(h', s'.log, a, s'.term) {
      AppendHoldsAck(members, h, i, s, m, s', reply.success, upTo, a);
      HoldsAckSame(h, h', s'.log, a, s'.term);
    }
  }

  lemma HoldsAckSame(h: History, h': History, L: Log, a: Ack, last: nat)
    requires h'.leads == h.leads && HoldsAck(h, L, a, last)
    ensures HoldsAck(h', L, a, last)
  {
    forall k: nat | k <= a.upTo && OwnEntry(h', a.term, k)
      ensures Shares(L, h'.leads[a.term].log, k) || Dropped(h', a.term, k, last)
    {
      assert OwnEntry(h, a.term, k);
      if !Shares(L, h.leads[a.term].log, k) {
        var u :| u in h.leads && a.term < u <= last && !Shares(h.leads[u].log, h.leads[a.term].log, k);
        assert u in h'.leads;
      }
    }
  }

  // A follower only commits what its leader has committed, and never goes back.
  lemma AppendCommits(members: set<NodeId>, h: History, s: NodeState, m: Message)
    requires ElectionSize(|members|) && HistoryBasic(members, h) && HistoryCommit(members, h)
    requires Shows(members, h, m) && Sane(h, s.log)
    requires CommitJustified(members, h, s.log, s.commitIndex, s.term)
    ensures
      var s' := HandleAppendEntries(s, m.term, m.src, m.prev, m.prevTerm, m.entries, m.commit).0;
      CommitJustified(members, h, s'.log, s'.commitIndex, s'.term) &&
      s.commitIndex <= s'.commitIndex <= |s'.log| && s.commitIndex <= |s.log| &&
      s'.log[..s.commitIndex] == s.log[..s.commitIndex]
  {
    hide HandleAppendEntries, Shown, MessageBasic, MessageCommit, HistoryBasic, HistoryCommit, Sane, CommitJustified,
         AppendOutcome;
    var (s', reply) := HandleAppendEntries(s, m.term, m.src, m.prev, m.prevTerm, m.entries, m.commit);
    AppendMeaning(members, h, s, m);
    AppendFields(s, m);
    CommitInLog(members, h, s.log, s.commitIndex, s.term);
    if m.term >= s.term {
      OutcomeKeepsCommit(members, h, s.log, m, s'.log, reply.success, s.commitIndex, s.term);
      if reply.success {
        SuccessCommits(members, h, s.log, m, s'.log);
      }
    }
  }

  // What a request announces as committed is committed in the log it leaves.
  lemma SuccessCommits(members: set<NodeId>, h: History, L: Log, m: Message, L': Log)
    requires Shows(members, h, m) && AppendOutcome(L, Shown(h.leads[m.term].log, m), m, L', true)
    ensures m.commit <= |L'| && CommitJustified(members, h, L', m.commit, m.term)
  {
    hide AppendOutcome, Shown, MessageBasic, CommitJustified;
    var M := Shown(h.leads[m.term].log, m);
    SuccessHolds(L, h.leads[m.term].log, m, L');
    CommitInLog(members, h, M, m.commit, m.term);
    CommitLonger(members, h, M, L', m.commit, m.term);
  }

  lemma CommitInLog(members: set<NodeId>, h: History, L: Log, commit: nat, last: nat)
    requires CommitJustified(members, h, L, commit, last)
    ensures commit <= |L|
  {
  }

  lemma AppendAnswerCommit(
    members: set<NodeId>, h: History, h': History, i: NodeId, s: NodeState, m: Message, answer: AppendReply)
    requires Shows(members, h, m) && m.dst == i && i in members
    requires
      var (s', reply) := HandleAppendEntries(s, m.term, m.src, m.prev, m.prevTerm, m.entries, m.commit);
      answer == reply.(matchIndex := answer.matchIndex) &&
      (!answer.success ==> answer.matchIndex == reply.matchIndex) &&
      h' == (if answer.success then h.(acks := h.acks + {Ack(i, m.term, answer.matchIndex)}) else h) &&
      (answer.success ==> Shares(s'.log, h.leads[m.term].log, answer.matchIndex))
    ensures MessageCommit(members, h', AppendAnswer(i, m.src, m.term, answer))
    ensures forall a :: a in h'.acks && a !in h.acks ==> AckBounded(members, h', a)
  {
    hide HandleAppendEntries;
    AppendFields(s, m);
    assert answer.success ==> Ack(i, m.term, answer.matchIndex) in h'.acks;
  }

  lemma AppendBooks(members: set<NodeId>, h: History, h': History, i: NodeId, s: NodeState, m: Message)
    requires NodeBasic(h, i, s) && NodeCommit(members, h, i, s) && Extends(h, h', i)
    requires m.AppendRequest? && m.dst == i && m.src != i && m.term in h.leads && h.leads[m.term].leader == m.src
    requires
      s.commitIndex <= HandleAppendEntries(s, m.term, m.src, m.prev, m.prevTerm, m.entries, m.commit).0.commitIndex
    ensures
      var s' := HandleAppendEntries(s, m.term, m.src, m.prev, m.prevTerm, m.entries, m.commit).0;
      BooksKept(members, h', i, s') && ApplyBounded(h', s')
  {
    var s' := HandleAppendEntries(s, m.term, m.src, m.prev, m.prevTerm, m.entries, m.commit).0;
    AppendFields(s, m);
    AppendRole(h, i, s, m);
    hide HandleAppendEntries, CommitJustified, NodeHoldsAcks, NodeBasic;
    if s'.role == Leader {
      forall p | p in s.matchIndex && s.matchIndex[p] > 0 ensures Acked(h', p, s.term, s.matchIndex[p]) {
        AckedStays(h, h', i, p, s.term, s.matchIndex[p]);
      }
    }
  }

  lemma AppendNodeCommit(
    members: set<NodeId>, h: History, h': History, i: NodeId, s: NodeState, m: Message, upTo: nat)
    requires ElectionSize(|members|) && HistoryBasic(members, h) && HistoryCommit(members, h)
    requires NodeBasic(h, i, s) && NodeCommit(members, h, i, s) && Shows(members, h, m) && m.dst == i
    requires
      var (s', reply) := HandleAppendEntries(s, m.term, m.src, m.prev, m.prevTerm, m.entries, m.commit);
      h' == (if reply.success then h.(acks := h.acks + {Ack(i, m.term, upTo)}) else h) &&
      (reply.success ==> Shares(s'.log, h.leads[m.term].log, upTo))
    requires Extends(h, h', i)
    ensures
      NodeCommit(members, h', i, HandleAppendEntries(s, m.term, m.src, m.prev, m.prevTerm, m.entries, m.commit).0)
  {
    hide HandleAppendEntries, CommitJustified, NodeHoldsAcks, HistoryBasic, HistoryCommit, BooksKept, ApplyBounded;
    var (s', reply) := HandleAppendEntries(s, m.term, m.src, m.prev, m.prevTerm, m.entries, m.commit);
    AppendHoldsAcks(members, h, h', i, s, m, upTo);
    AppendCommits(members, h, s, m);
    AppendBooks(members, h, h', i, s, m);
    hide Shows, NodeBasic;
    CommitStays(members, h, h', i, s'.log, s'.commitIndex, s'.term, s'.term);
  }

  lemma AppendRequestCommit(
    members: set<NodeId>, c: Cluster, h: History, h': History, i: NodeId, m: Message, code: Code)
    requires ElectionSize(|members|) && Basic(members, c, h) && Committed(members, c, h)
    requires i in members && m in c.messages && m.AppendRequest? && m.dst == i
    requires
      var answer := AnswerTo(c.nodes[i], m, code);
      h' == (if answer.success then h.(acks := h.acks + {Ack(i, m.term, answer.matchIndex)}) else h) &&
      (answer.success && code == AsWritten ==> !StaleTail(c.nodes[i].log, m.prev, m.entries, m.term))
    requires Extends(h, h', i)
    ensures
      var s' := HandleAppendEntries(c.nodes[i], m.term, m.src, m.prev, m.prevTerm, m.entries, m.commit).0;
      var sent := AppendAnswer(i, m.src, m.term, AnswerTo(c.nodes[i], m, code));
      Committed(members, Cluster(c.nodes[i := s'], c.messages + {sent}), h')
  {
    hide HandleAppendEntries, Extends, HistoryBasic, HistoryCommit, NodeBasic, NodeCommit, MessageBasic, MessageCommit,
         MergeFrom, StaleTail;
    var s := c.nodes[i];
    var s' := HandleAppendEntries(s, m.term, m.src, m.prev, m.prevTerm, m.entries, m.commit).0;
    var answer := AnswerTo(s, m, code);
    assert Shows(members, h, m);
    if answer.success {
      AnswerIsShared(members, h, i, s, m, code);
    }
    AppendLog(s, m);
    OwnVotesBounded(h, i, s);
    hide Shares;
    AppendNodeCommit(members, h, h', i, s, m, answer.matchIndex);
    AppendAnswerCommit(members, h, h', i, s, m, answer);
    hide AnswerTo;
    HistoryCommitGrows(members, h, h', i);
    CommittedFromParts(members, c, h, h', i, s', {AppendAnswer(i, m.src, m.term, answer)});
  }

  // ---- the commit scan ------------------------------------------------------------------------------

  // The scan ends at the highest committable index above the old one, or where it was.
  lemma {:induction false} ScanFinds(s: NodeState, n: nat, term: nat, quorum: nat)
    ensures
      var r := ScanCommit(s, n, term, quorum);
      r >= s.commitIndex && (r == s.commitIndex || (r <= n && Committable(s, r, term, quorum))) &&
      (forall k :: r < k <= n ==> !Committable(s, k, term, quorum))
  {
    if n > s.commitIndex && !Committable(s, n, term, quorum) {
      ScanFinds(s, n - 1, term, quorum);
    }
  }

  // A count of table entries at the quorum is a choice: each entry is backed by an acknowledgement.
  lemma CountedIsChosen(members: set<NodeId>, h: History, i: NodeId, s: NodeState, n: nat)
    requires i in members && s.role == Leader && RoleJustified(h, i, s) && BooksKept(members, h, i, s)
    requires 1 <= n && s.term >= 1 && Committable(s, n, s.term, Quorum(|members|))
    ensures Chosen(members, h, s.term, n) && n <= |s.log|
  {
    forall p | p in Replicated(s.matchIndex, n) ensures p in AckedBy(members, h, s.term, n) {
      assert Acked(h, p, s.term, s.matchIndex[p]);
    }
    SubsetSize(Replicated(s.matchIndex, n), AckedBy(members, h, s.term, n));
  }

  lemma AnswerBooks(members: set<NodeId>, h: History, i: NodeId, s: NodeState, m: Message)
    requires i in members && BooksKept(members, h, i, s) && RoleJustified(h, i, s) && MessageCommit(members, h, m)
    requires m.AppendAnswer? && m.dst == i && (s.role == Leader ==> s.term == m.requestTerm)
    ensures
      s.role == Leader && m.appendReply.success ==>
      BooksKept(members, h, i, s.(matchIndex := s.matchIndex[m.src := m.appendReply.matchIndex][i := |s.log|],
                                  nextIndex := s.nextIndex[m.src := m.appendReply.matchIndex + 1]))
    ensures s.role == Leader ==>
      BooksKept(members, h, i, s.(nextIndex := s.nextIndex[m.src := m.appendReply.matchIndex + 1]))
  {
    assert s.role == Leader ==> Acked(h, i, s.term, |s.log|);
  }

  lemma SuccessNodeCommit(members: set<NodeId>, h: History, i: NodeId, s: NodeState)
    requires NodeHoldsAcks(h, i, s) && BooksKept(members, h, i, s) && ApplyBounded(h, s)
    requires CommitJustified(members, h, s.log, s.commitIndex, s.term)
    requires i in members && s.role == Leader && s.term >= 1 && RoleJustified(h, i, s)
    ensures NodeCommit(members, h, i, AdvanceCommit(s, s.term, Quorum(|members|)))
  {
    var s' := AdvanceCommit(s, s.term, Quorum(|members|));
    ScanFinds(s, |s.log|, s.term, Quorum(|members|));
    if s'.commitIndex > s.commitIndex {
      CountedIsChosen(members, h, i, s, s'.commitIndex);
      assert CommitWitness(members, h, s.log, s'.commitIndex, s.term, s.term, s'.commitIndex);
    }
  }

  // Only the leader's tables change.
  lemma TablesOnly(members: set<NodeId>, h: History, i: NodeId, s: NodeState, s': NodeState)
    requires NodeCommit(members, h, i, s) && BooksKept(members, h, i, s')
    requires s' == s.(matchIndex := s'.matchIndex, nextIndex := s'.nextIndex)
    ensures NodeCommit(members, h, i, s')
  {
    hide BooksKept, CommitJustified, HoldsAck;
  }

  lemma AnswerNodeCommit(members: set<NodeId>, h: History, i: NodeId, s: NodeState, m: Message)
    requires HistoryBasic(members, h) && NodeBasic(h, i, s) && NodeCommit(members, h, i, s) && i in members
    requires forall a :: a in h.acks ==> AckBounded(members, h, a)
    requires m.AppendAnswer? && m.dst == i && MessageCommit(members, h, m)
    requires s.role == Leader ==> s.term == m.requestTerm
    ensures NodeCommit(members, h, i, HandleAppendReply(s, i, m.src, m.requestTerm, m.appendReply, Quorum(|members|)))
  {
    hide NodeHoldsAcks, BooksKept, CommitJustified, ApplyBounded, MessageCommit, Sane, AdvanceCommit,
         VotesKept, TermsAtMost, AckBounded, Extends;
    var r, s' := m.appendReply, HandleAppendReply(s, i, m.src, m.requestTerm, m.appendReply, Quorum(|members|));
    var s1 := s.(matchIndex := s.matchIndex[m.src := r.matchIndex][i := |s.log|],
                 nextIndex := s.nextIndex[m.src := r.matchIndex + 1]);
    assert s.role == Leader ==> s.term >= 1 by { assert s.role == Leader ==> LeadBasic(members, h, s.term); }
    AnswerBooks(members, h, i, s, m);
    hide HistoryBasic;
    if r.term > s.term {
      NodeCommitCarried(members, h, h, i, i, s, s') by { SelfExtends(h, i); }
    } else if s.role == Leader && r.success {
      TablesOnly(members, h, i, s, s1);
      SuccessNodeCommit(members, h, i, s1);
    } else if s.role == Leader {
      TablesOnly(members, h, i, s, s');
    }
  }

  // ---- the remaining steps ------------------------------------------------------------------------

  lemma AnswerCommit(members: set<NodeId>, c: Cluster, h: History, i: NodeId, m: Message)
    requires Basic(members, c, h) && Committed(members, c, h)
    requires i in members && m in c.messages && m.AppendAnswer? && m.dst == i
    requires c.nodes[i].role == Leader ==> c.nodes[i].term == m.requestTerm
    ensures
      var s' := HandleAppendReply(c.nodes[i], i, m.src, m.requestTerm, m.appendReply, Quorum(|members|));
      Committed(members, Cluster(c.nodes[i := s'], c.messages + {}), h)
  {
    hide HandleAppendReply, NodeBasic, NodeCommit, MessageBasic, MessageCommit, HistoryBasic, Extends;
    var s' := HandleAppendReply(c.nodes[i], i, m.src, m.requestTerm, m.appendReply, Quorum(|members|));
    AnswerNodeCommit(members, h, i, c.nodes[i], m);
    SelfExtends(h, i);
    CommittedFromParts(members, c, h, h, i, s', {});
  }

  lemma SelfExtends(h: History, i: NodeId)
    ensures Extends(h, h, i)
  {
  }

  lemma VoteAnswerCommit(members: set<NodeId>, c: Cluster, h: History, i: NodeId, term: nat, reply: VoteReply)
    requires Committed(members, c, h) && i in members
    ensures Committed(members, Cluster(c.nodes[i := HandleVoteReply(c.nodes[i], term, reply)], c.messages + {}), h)
  {
    var s := c.nodes[i];
    SelfExtends(h, i);
    hide Extends, MessageCommit;
    NodeCommitCarried(members, h, h, i, i, s, HandleVoteReply(s, term, reply));
    CommittedFromParts(members, c, h, h, i, HandleVoteReply(s, term, reply), {});
  }

  // The start and the end of an apply pass, and a crash, leave the log and the acknowledgements.
  lemma PassiveNode(members: set<NodeId>, h: History, i: NodeId, s: NodeState, s': NodeState)
    requires NodeCommit(members, h, i, s)
    requires s' == ApplyBegin(s) || s' == EndPass(AsWritten, s) || s' == EndPass(AsMeant, s) || s' == Restart(s)
    ensures NodeCommit(members, h, i, s')
  {
    hide HoldsAck;
    if s' == Restart(s) {
    } else {
      hide CommitJustified;
    }
  }

  lemma PassiveCommit(members: set<NodeId>, c: Cluster, h: History, i: NodeId, s': NodeState)
    requires Committed(members, c, h) && i in members
    requires
      var s := c.nodes[i];
      s' == ApplyBegin(s) || s' == EndPass(AsWritten, s) || s' == EndPass(AsMeant, s) || s' == Restart(s)
    ensures Committed(members, Cluster(c.nodes[i := s'], c.messages + {}), h)
  {
    PassiveNode(members, h, i, c.nodes[i], s');
    SelfExtends(h, i);
    hide Extends, MessageCommit, NodeCommit, ApplyBegin, EndPass, Restart;
    CommittedFromParts(members, c, h, h, i, s', {});
  }

  // A consumed entry was committed, and is found: no committed index is ever missing.
  lemma ApplyBacked(members: set<NodeId>, h: History, i: NodeId, s: NodeState)
    requires NodeCommit(members, h, i, s)
    requires s.loop.Applying? && s.loop.next <= s.loop.upTo
    ensures s.loop.next <= |s.log|
    ensures ApplyOne(s).applied == s.applied + [Applied(s.loop.next, s.log[s.loop.next - 1])]
    ensures Backed(members, h, Applied(s.loop.next, s.log[s.loop.next - 1]))
  {
    var n := s.loop.next;
    var t: nat, k: nat :| CommitWitness(members, h, s.log, s.commitIndex, s.term, t, k);
    assert s.log[n - 1] == s.log[..s.commitIndex][n - 1] == h.leads[t].log[..s.commitIndex][n - 1];
    assert Backs(members, h, Applied(n, s.log[n - 1]), t, k);
  }

  lemma ApplyHistory(members: set<NodeId>, h: History, h': History, i: NodeId, r: Applied)
    requires HistoryCommit(members, h) && Backed(members, h, r) && Extends(h, h', i)
    requires h'.leads == h.leads && h'.votes == h.votes && h'.acks == h.acks
    requires forall q :: q in h'.applied ==> q in h.applied || q == r
    ensures HistoryCommit(members, h')
  {
    BackedStays(members, h, h', i, r);
    HistoryCommitGrows(members, h, h', i);
  }

  lemma ApplyCommit(members: set<NodeId>, c: Cluster, h: History, h': History, i: NodeId)
    requires Committed(members, c, h) && i in members
    requires c.nodes[i].loop.Applying? && c.nodes[i].loop.next <= c.nodes[i].loop.upTo
    requires h' == h.(applied := h.applied + set r | r in ApplyOne(c.nodes[i]).applied)
    requires Extends(h, h', i)
    ensures Committed(members, Cluster(c.nodes[i := ApplyOne(c.nodes[i])], c.messages + {}), h')
  {
    hide HistoryCommit, CommitJustified, NodeHoldsAcks, BooksKept, Backed, Extends, AckBounded, MessageCommit;
    var s, s' := c.nodes[i], ApplyOne(c.nodes[i]);
    ApplyBacked(members, h, i, s);
    ApplyHistory(members, h, h', i, Applied(s.loop.next, s.log[s.loop.next - 1]));
    NodeCommitCarried(members, h, h', i, i, s, s) by { assert HistoryCommit(members, h); AllBounded(members, h); }
    ApplyNode(members, h', i, s, s');
    hide ApplyOne, NodeCommit;
    CommittedFromParts(members, c, h, h', i, s', {});
  }

  lemma AllBounded(members: set<NodeId>, h: History)
    requires HistoryCommit(members, h)
    ensures forall a :: a in h.acks ==> AckBounded(members, h, a)
  {
  }

  lemma ApplyNode(members: set<NodeId>, h': History, i: NodeId, s: NodeState, s': NodeState)
    requires NodeCommit(members, h', i, s) && s.loop.Applying?
    requires s' == s.(loop := Applying(s.loop.next + 1, s.loop.upTo), applied := s'.applied)
    requires forall r :: r in s'.applied ==> r in h'.applied
    ensures NodeCommit(members, h', i, s')
  {
    hide HoldsAck, CommitJustified;
  }

  // ---- every step -------------------------------------------------------------------------------

  lemma ElectionStep(members: set<NodeId>, c: Cluster, h: History, a: Action)
    requires ElectionSize(|members|)
    requires Basic(members, c, h) && Committed(members, c, h) && Enabled(members, c, a)
    requires a.Timeout? || a.DeliverVoteRequest? || a.DeliverVoteAnswer? || a.Win?
    requires Extends(h, Record(members, c, h, a), a.node)
    ensures Committed(members, Step(members, c, a), Record(members, c, h, a))
  {
    hide Basic, Committed, Extends, HandleAppendEntries, HandleAppendReply, HandleRequestVote, HandleVoteReply,
         BecomeLeader, AppendTo, ApplyOne, Restart;
    var i, h' := a.node, Record(members, c, h, a);
    match a
    case Timeout(_) => TimeoutCommit(members, c, h, h', i);
    case DeliverVoteRequest(_, m) => VoteRequestCommit(members, c, h, h', i, m);
    case DeliverVoteAnswer(_, m) => VoteAnswerCommit(members, c, h, i, m.requestTerm, m.voteReply);
    case Win(_, grants) =>
      WinIsFirst(members, c, h, a);
      WinCommit(members, c, h, h', i, grants);
  }

  lemma LogStep(members: set<NodeId>, c: Cluster, h: History, a: Action)
    requires ElectionSize(|members|)
    requires Basic(members, c, h) && Committed(members, c, h) && Enabled(members, c, a)
    requires a.Replicate? || a.DeliverAppendRequest? || a.DeliverAppendAnswer?
    requires HonestAnswer(c, a)
    requires Extends(h, Record(members, c, h, a), a.node)
    ensures Committed(members, Step(members, c, a), Record(members, c, h, a))
  {
    hide Basic, Committed, Extends, HandleAppendEntries, HandleAppendReply, HandleRequestVote, HandleVoteReply,
         BecomeLeader, AppendTo, ApplyOne, Restart, StartElection;
    var i, h' := a.node, Record(members, c, h, a);
    match a
    case Replicate(_, peer, commit) => ReplicateCommit(members, c, h, i, peer, commit);
    case DeliverAppendRequest(_, m, code) => AppendRequestCommit(members, c, h, h', i, m, code);
    case DeliverAppendAnswer(_, m) => AnswerCommit(members, c, h, i, m);
  }

  lemma SubmitStep(members: set<NodeId>, c: Cluster, h: History, a: Action)
    requires Basic(members, c, h) && Committed(members, c, h) && Enabled(members, c, a) && a.Submit?
    requires Extends(h, Record(members, c, h, a), a.node)
    ensures Committed(members, Step(members, c, a), Record(members, c, h, a))
  {
    hide HandleAppendEntries, HandleAppendReply, HandleRequestVote, HandleVoteReply, Extends, Committed;
    var i, h' := a.node, Record(members, c, h, a);
    assert NodeBasic(h, i, c.nodes[i]);
    if c.nodes[i].role == Leader {
      SubmitCommit(members, c, h, h', i, a.command);
    } else {
      assert Step(members, c, a) == c;
    }
  }

  lemma ApplyStep(members: set<NodeId>, c: Cluster, h: History, a: Action)
    requires Committed(members, c, h) && Enabled(members, c, a)
    requires a.BeginApply? || a.ApplyNext? || a.EndApply? || a.Crash?
    requires Extends(h, Record(members, c, h, a), a.node)
    ensures Committed(members, Step(members, c, a), Record(members, c, h, a))
  {
    hide Committed, Extends, HandleAppendEntries, HandleAppendReply, HandleRequestVote, HandleVoteReply,
         BecomeLeader, AppendTo, StartElection, ApplyOne, ApplyBegin, EndPass, Restart;
    if a.ApplyNext? {
      ApplyCommit(members, c, h, Record(members, c, h, a), a.node);
    } else {
      assert a.EndApply? ==> a.code == AsWritten || a.code == AsMeant;
      PassiveCommit(members, c, h, a.node, Effect(members, c, a).0);
    }
  }

  lemma StepKeepsCommitted(members: set<NodeId>, c: Cluster, h: History, a: Action)
    requires ElectionSize(|members|)
    requires Basic(members, c, h) && Committed(members, c, h) && Enabled(members, c, a)
    requires HonestAnswer(c, a)
    ensures Committed(members, Step(members, c, a), Record(members, c, h, a))
  {
    hide Basic, Committed, Extends, Effect, Record, Step, Enabled, HonestAnswer;
    StepKeepsBasic(members, c, h, a);
    match a
    case Timeout(_) => ElectionStep(members, c, h, a);
    case DeliverVoteRequest(_, _) => ElectionStep(members, c, h, a);
    case DeliverVoteAnswer(_, _) => ElectionStep(members, c, h, a);
    case Win(_, _) => ElectionStep(members, c, h, a);
    case Submit(_, _) => SubmitStep(members, c, h, a);
    case Replicate(_, _, _) => LogStep(members, c, h, a);
    case DeliverAppendRequest(_, _, _) => LogStep(members, c, h, a);
    case DeliverAppendAnswer(_, _) => LogStep(members, c, h, a);
    case _ => ApplyStep(members, c, h, a);
  }
}
