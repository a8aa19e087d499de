/**
 * Leader completeness: what a commit by the current-term quorum rule means for every later
 * leader. The invariants here hold in clusters of odd size or of two nodes at most, as long as the
 * answers to append requests are exact.
 */
module RaftCommit {
  import opened RaftProtocol
  import opened RaftCluster
  import opened RaftHistory
  import opened RaftQuorums
  import opened RaftElection

  ghost predicate Acked(h: History, p: NodeId, t: nat, k: nat) {
    exists a :: a in h.acks && a.node == p && a.term == t && a.upTo >= k
  }

  ghost function AckedBy(members: set<NodeId>, h: History, t: nat, k: nat): set<NodeId> {
    set p | p in members && Acked(h, p, t, k)
  }

  // Index k of term t's leader log carries an entry of that very term.
  ghost predicate OwnEntry(h: History, t: nat, k: nat) {
    t in h.leads && 1 <= k <= |h.leads[t].log| && h.leads[t].log[k - 1].term == t
  }

  // The commit rule of _advance_commit, seen from the history.
  ghost predicate Chosen(members: set<NodeId>, h: History, t: nat, k: nat) {
    OwnEntry(h, t, k) && |AckedBy(members, h, t, k)| >= Quorum(|members|)
  }

  // Some leader after t, up to term `last`, does not have t's first k entries.
  ghost predicate Dropped(h: History, t: nat, k: nat, last: int)
    requires t in h.leads
  {
    exists u :: u in h.leads && t < u <= last && !Shares(h.leads[u].log, h.leads[t].log, k)
  }

  // An acknowledged entry is still in the log, unless a leader without it has come since.
  ghost predicate HoldsAck(h: History, L: Log, a: Ack, last: int) {
    forall k: nat :: k <= a.upTo && OwnEntry(h, a.term, k) ==>
      Shares(L, h.leads[a.term].log, k) || Dropped(h, a.term, k, last)
  }

  ghost predicate CommitWitness(members: set<NodeId>, h: History, L: Log, commit: nat, last: nat, t: nat, k: nat) {
    Chosen(members, h, t, k) && commit <= k && t <= last && Shares(L, h.leads[t].log, commit)
  }

  ghost predicate CommitJustified(members: set<NodeId>, h: History, L: Log, commit: nat, last: nat) {
    commit == 0 || exists t, k :: CommitWitness(members, h, L, commit, last, t, k)
  }

  ghost predicate Backs(members: set<NodeId>, h: History, r: Applied, t: nat, k: nat) {
    Chosen(members, h, t, k) && t in h.leads && 1 <= r.index <= k <= |h.leads[t].log| &&
    h.leads[t].log[r.index - 1] == r.entry
  }

  ghost predicate Backed(members: set<NodeId>, h: History, r: Applied) {
    exists t, k :: Backs(members, h, r, t, k)
  }

  ghost predicate NodeHoldsAcks(h: History, i: NodeId, s: NodeState) {
    forall a :: a in h.acks && a.node == i ==> a.term <= s.term && HoldsAck(h, s.log, a, s.term)
  }

  // The leader's two tables.
  ghost predicate BooksKept(members: set<NodeId>, h: History, i: NodeId, s: NodeState) {
    s.matchIndex.Keys <= members && s.nextIndex.Keys <= members - {i} &&
    (s.role == Leader ==>
      Ack(i, s.term, |s.log|) in h.acks &&
      (forall p :: p in s.matchIndex && s.matchIndex[p] > 0 ==> Acked(h, p, s.term, s.matchIndex[p])) &&
      (forall p :: p in s.nextIndex ==> 1 <= s.nextIndex[p] <= |s.log| + 1))
  }

  ghost predicate ApplyBounded(h: History, s: NodeState) {
    s.lastApplied <= s.commitIndex && (s.loop.Applying? ==> s.loop.next >= 1 && s.loop.upTo <= s.commitIndex) &&
    forall r :: r in s.applied ==> r in h.applied
  }

  ghost predicate NodeCommit(members: set<NodeId>, h: History, i: NodeId, s: NodeState) {
    NodeHoldsAcks(h, i, s) && BooksKept(members, h, i, s) &&
    CommitJustified(members, h, s.log, s.commitIndex, s.term) && ApplyBounded(h, s)
  }

  ghost predicate MessageCommit(members: set<NodeId>, h: History, m: Message) {
    (m.AppendRequest? ==>
      m.term in h.leads && m.prev + |m.entries| <= |h.leads[m.term].log| &&
      m.prevTerm == TermAt(h.leads[m.term].log, m.prev) &&
      m.entries == h.leads[m.term].log[m.prev..m.prev + |m.entries|] &&
      (forall k :: m.prev + |m.entries| <= k < |h.leads[m.term].log| ==> h.leads[m.term].log[k].term == m.term) &&
      CommitJustified(members, h, Shown(h.leads[m.term].log, m), m.commit, m.term)) &&
    (m.AppendAnswer? ==>
      m.src in members && m.src != m.dst && m.requestTerm in h.leads &&
      m.appendReply.matchIndex <= |h.leads[m.requestTerm].log| &&
      (m.appendReply.success && m.appendReply.matchIndex > 0 ==>
        Acked(h, m.src, m.requestTerm, m.appendReply.matchIndex)))
  }

  ghost predicate AckBounded(members: set<NodeId>, h: History, a: Ack) {
    a.node in members && a.term in h.leads && a.upTo <= |h.leads[a.term].log|
  }

  // At a vote that still counts, the voter held what it had acknowledged before.
  ghost predicate BallotHoldsAcks(h: History, v: (NodeId, nat))
    requires v in h.votes
  {
    v.1 !in h.leads || v.0 in h.leads[v.1].voters ==>
      forall a :: a in h.acks && a.node == v.0 && a.term < v.1 ==> HoldsAck(h, h.votes[v].log, a, v.1 - 1)
  }

  ghost predicate HistoryCommit(members: set<NodeId>, h: History) {
    (forall a :: a in h.acks ==> AckBounded(members, h, a)) &&
    (forall v :: v in h.votes ==> BallotHoldsAcks(h, v)) &&
    (forall r :: r in h.applied ==> Backed(members, h, r))
  }

  ghost predicate Committed(members: set<NodeId>, c: Cluster, h: History) {
    c.nodes.Keys == members &&
    (forall i :: i in members ==> NodeCommit(members, h, i, c.nodes[i])) &&
    (forall m :: m in c.messages ==> MessageCommit(members, h, m)) &&
    HistoryCommit(members, h)
  }

  // ---- leader completeness --------------------------------------------------------------------

  // The voter's log ends in the term of the entry or later.
  lemma VoterEndsLater(members: set<NodeId>, h: History, V: Log, t: nat, k: nat)
    requires HistoryBasic(members, h) && Sane(h, V) && OwnEntry(h, t, k) && Shares(V, h.leads[t].log, k)
    ensures k <= |V| && LastTerm(V) >= t && LastTerm(V) in h.leads
    ensures V[..|V|] == V && Shares(V, h.leads[LastTerm(V)].log, |V|)
  {
    var G := h.leads[t].log;
    assert V[k - 1] == V[..k][k - 1] == G[..k][k - 1];
    assert NoLater(V, k - 1, |V| - 1);
    assert EntrySane(h, V, |V| - 1);
  }

  lemma LaterTermsLater(h: History, L: Log, i: nat, j: nat)
    requires Sane(h, L) && i < |L| && j < |L|
    ensures L[i].term > L[j].term ==> i > j
  {
    assert i <= j ==> NoLater(L, i, j);
  }

  // A candidate's log ending in a later term ends like that term's leader, who kept the entry.
  lemma LaterLeaderShares(members: set<NodeId>, h: History, C: Log, t: nat, k: nat)
    requires HistoryBasic(members, h) && Sane(h, C) && C != [] && OwnEntry(h, t, k) && LastTerm(C) > t
    requires LastTerm(C) in h.leads ==> Shares(h.leads[LastTerm(C)].log, h.leads[t].log, k)
    ensures Shares(C, h.leads[t].log, k)
  {
    var G, last := h.leads[t].log, LastTerm(C);
    assert EntrySane(h, C, |C| - 1);
    assert LeadBasic(members, h, last);
    var S := h.leads[last].log;
    assert Sane(h, S);
    hide LeadBasic, HistoryBasic;
    assert S[k - 1] == S[..k][k - 1] == G[..k][k - 1];
    assert S[|C| - 1] == S[..|C|][|C| - 1] == C[|C| - 1];
    LaterTermsLater(h, S, |C| - 1, k - 1);
    hide Sane;
    assert C[..k] == C[..|C|][..k] == S[..|C|][..k] == S[..k];
  }

  // A candidate's log that is up to date with a voter's, in the sense of the vote check, has
  // every entry of the voter's up to one whose term all leaders in between kept.
  lemma UpToDateShares(members: set<NodeId>, h: History, V: Log, C: Log, t: nat, k: nat, T: nat)
    requires HistoryBasic(members, h) && Sane(h, V) && Sane(h, C)
    requires OwnEntry(h, t, k) && Shares(V, h.leads[t].log, k)
    requires UpToDate(|C|, LastTerm(C), V)
    requires forall n :: 0 <= n < |C| ==> C[n].term < T
    requires forall u :: u in h.leads && t < u < T ==> Shares(h.leads[u].log, h.leads[t].log, k)
    ensures Shares(C, h.leads[t].log, k)
  {
    VoterEndsLater(members, h, V, t, k);
    assert |C| > 0;
    if LastTerm(C) == LastTerm(V) {
      assert EntrySane(h, C, |C| - 1);
      hide HistoryBasic, Sane;
      assert C[..|V|] == C[..|C|][..|V|] == V;
      assert C[..k] == C[..|V|][..k] == V[..k];
    } else {
      assert C[|C| - 1].term < T;
      hide HistoryBasic, Sane;
      LaterLeaderShares(members, h, C, t, k);
    }
  }

  // What the votes of a leader's election show.
  lemma ElectionFacts(members: set<NodeId>, h: History, T: nat, v: NodeId)
    requires HistoryBasic(members, h) && T in h.leads && v in h.leads[T].voters
    ensures (v, T) in h.votes && (h.leads[T].leader, T) in h.votes
    ensures
      var V, C := h.votes[(v, T)].log, h.votes[(h.leads[T].leader, T)].log;
      Sane(h, V) && Sane(h, C) && UpToDate(|C|, LastTerm(C), V) && (forall n :: 0 <= n < |C| ==> C[n].term < T) &&
      GrewBy(C, h.leads[T].log, T)
  {
    hide Sane, UpToDate;
    assert LeadBasic(members, h, T);
    assert BallotBasic(h, (v, T));
    assert BallotBasic(h, (h.leads[T].leader, T));
  }

  // A voter that acknowledged an entry still has it when it votes, if every leader in between kept it.
  lemma VoterKeeps(members: set<NodeId>, h: History, t: nat, k: nat, T: nat, v: NodeId)
    requires HistoryCommit(members, h) && OwnEntry(h, t, k) && Acked(h, v, t, k)
    requires T in h.leads && t < T && v in h.leads[T].voters && (v, T) in h.votes
    requires forall u :: u in h.leads && t < u < T ==> Shares(h.leads[u].log, h.leads[t].log, k)
    ensures Shares(h.votes[(v, T)].log, h.leads[t].log, k)
  {
    hide Shares, Sane;
    var a :| a in h.acks && a.node == v && a.term == t && a.upTo >= k;
    assert BallotHoldsAcks(h, (v, T));
  }

  // Every leader of a later term has every entry chosen in an earlier one.
  lemma {:induction false} LeaderCompleteness(members: set<NodeId>, h: History, t: nat, k: nat, T: nat)
    requires ElectionSize(|members|)
    requires HistoryBasic(members, h) && HistoryCommit(members, h)
    requires Chosen(members, h, t, k) && T in h.leads && t < T
    ensures Shares(h.leads[T].log, h.leads[t].log, k)
    decreases T
  {
    var lead := h.leads[T];
    var v := CommitMeetsElection(members, h, t, k, T);
    hide HistoryBasic, HistoryCommit, Sane, Acked, AckedBy, UpToDate;
    forall u | u in h.leads && t < u < T ensures Shares(h.leads[u].log, h.leads[t].log, k) {
      LeaderCompleteness(members, h, t, k, u);
    }
    ElectionFacts(members, h, T, v);
    VoterKeeps(members, h, t, k, T, v);
    var V, C := h.votes[(v, T)].log, h.votes[(lead.leader, T)].log;
    UpToDateShares(members, h, V, C, t, k, T);
    assert lead.log[..k] == lead.log[..|C|][..k];
  }

  // Whoever acknowledged a chosen entry and whoever elected a later leader share a member.
  lemma CommitMeetsElection(members: set<NodeId>, h: History, t: nat, k: nat, T: nat) returns (v: NodeId)
    requires ElectionSize(|members|) && HistoryBasic(members, h) && Chosen(members, h, t, k) && T in h.leads
    ensures v in h.leads[T].voters && Acked(h, v, t, k)
  {
    assert LeadBasic(members, h, T);
    v := MembersShared(members, AckedBy(members, h, t, k), h.leads[T].voters);
  }

  lemma ChosenAgree(members: set<NodeId>, h: History, t1: nat, k1: nat, t2: nat, k2: nat, n: nat)
    requires ElectionSize(|members|)
    requires HistoryBasic(members, h) && HistoryCommit(members, h)
    requires Chosen(members, h, t1, k1) && Chosen(members, h, t2, k2) && t1 <= t2
    requires 1 <= n <= k1 && n <= k2
    ensures h.leads[t1].log[n - 1] == h.leads[t2].log[n - 1]
  {
    if t1 < t2 {
      LeaderCompleteness(members, h, t1, k1, t2) by { hide HistoryBasic, HistoryCommit, Chosen; }
      hide HistoryBasic, HistoryCommit, AckedBy;
      assert h.leads[t1].log[..k1][n - 1] == h.leads[t2].log[..k1][n - 1];
    }
  }

  // Two entries consumed at one index are the same entry.
  lemma BackedAgree(members: set<NodeId>, h: History, r1: Applied, r2: Applied)
    requires ElectionSize(|members|)
    requires HistoryBasic(members, h) && HistoryCommit(members, h)
    requires Backed(members, h, r1) && Backed(members, h, r2) && r1.index == r2.index
    ensures r1 == r2
  {
    hide HistoryBasic, HistoryCommit, Chosen;
    var t1, k1 :| Backs(members, h, r1, t1, k1);
    var t2, k2 :| Backs(members, h, r2, t2, k2);
    assert t1 in h.leads && t2 in h.leads;
    if t1 <= t2 {
      ChosenAgree(members, h, t1, k1, t2, k2, r1.index);
    } else {
      ChosenAgree(members, h, t2, k2, t1, k1, r1.index);
    }
  }

  // ---- what a growing history keeps -------------------------------------------------------------

  lemma SharesGrown(L: Log, G: Log, G': Log, k: nat, term: nat)
    requires GrewBy(G, G', term) && k <= |G|
    ensures Shares(L, G', k) <==> Shares(L, G, k)
  {
    assert G'[..k] == G'[..|G|][..k];
  }

  lemma OwnEntryStays(h: History, h': History, i: NodeId, t: nat, k: nat)
    requires Extends(h, h', i) && OwnEntry(h, t, k)
    ensures OwnEntry(h', t, k)
  {
    assert h'.leads[t].log[..|h.leads[t].log|][k - 1] == h.leads[t].log[k - 1];
  }

  lemma DroppedStays(h: History, h': History, i: NodeId, t: nat, k: nat, last: int)
    requires Extends(h, h', i) && OwnEntry(h, t, k) && Dropped(h, t, k, last)
    ensures t in h'.leads && Dropped(h', t, k, last)
  {
    var u :| u in h.leads && t < u <= last && !Shares(h.leads[u].log, h.leads[t].log, k);
    var G, U, G', U' := h.leads[t].log, h.leads[u].log, h'.leads[t].log, h'.leads[u].log;
    OwnEntryStays(h, h', i, t, k);
    SharesGrown(U', G, G', k, t);
    if k <= |U| {
      assert U'[..k] == U'[..|U|][..k];
    } else if k <= |U'| {
      assert U'[..k][k - 1] != G'[..k][k - 1];
    }
    assert !Shares(U', G', k);
  }

  lemma HoldsAckStays(members: set<NodeId>, h: History, h': History, i: NodeId, L: Log, a: Ack, last: int, last': int)
    requires Extends(h, h', i) && AckBounded(members, h, a) && HoldsAck(h, L, a, last) && last <= last'
    ensures HoldsAck(h', L, a, last')
  {
    forall k: nat | k <= a.upTo && OwnEntry(h', a.term, k)
      ensures Shares(L, h'.leads[a.term].log, k) || Dropped(h', a.term, k, last')
    {
      var G, G' := h.leads[a.term].log, h'.leads[a.term].log;
      assert k <= |G|;
      assert G'[..|G|][k - 1] == G[k - 1];
      assert OwnEntry(h, a.term, k);
      SharesGrown(L, G, G', k, a.term);
      if !Shares(L, G, k) {
        DroppedStays(h, h', i, a.term, k, last);
        var u :| u in h'.leads && a.term < u <= last && !Shares(h'.leads[u].log, G', k);
      }
    }
  }

  lemma AckedStays(h: History, h': History, i: NodeId, p: NodeId, t: nat, k: nat)
    requires Extends(h, h', i) && Acked(h, p, t, k)
    ensures Acked(h', p, t, k)
  {
  }

  lemma ChosenStays(members: set<NodeId>, h: History, h': History, i: NodeId, t: nat, k: nat)
    requires Extends(h, h', i) && Chosen(members, h, t, k)
    ensures Chosen(members, h', t, k)
  {
    OwnEntryStays(h, h', i, t, k);
    forall p | p in AckedBy(members, h, t, k) ensures p in AckedBy(members, h', t, k) {
      AckedStays(h, h', i, p, t, k);
    }
    SubsetSize(AckedBy(members, h, t, k), AckedBy(members, h', t, k));
  }

  lemma CommitStays(
    members: set<NodeId>, h: History, h': History, i: NodeId, L: Log, commit: nat, last: nat, last': nat)
    requires Extends(h, h', i) && CommitJustified(members, h, L, commit, last) && last <= last'
    ensures CommitJustified(members, h', L, commit, last')
  {
    if commit > 0 {
      var t, k :| CommitWitness(members, h, L, commit, last, t, k);
      ChosenStays(members, h, h', i, t, k);
      SharesGrown(L, h.leads[t].log, h'.leads[t].log, commit, t);
      assert CommitWitness(members, h', L, commit, last', t, k);
    }
  }

  lemma BackedStays(members: set<NodeId>, h: History, h': History, i: NodeId, r: Applied)
    requires Extends(h, h', i) && Backed(members, h, r)
    ensures Backed(members, h', r)
  {
    var t, k :| Backs(members, h, r, t, k);
    ChosenStays(members, h, h', i, t, k);
    assert h'.leads[t].log[..|h.leads[t].log|][r.index - 1] == r.entry;
    assert Backs(members, h', r, t, k);
  }
}
