/**
 * What a proof about a run has to remember: each term's leader and its log so far, every vote
 * together with the voter's log when it was given, and every entry a follower has acknowledged
 * or a state machine has consumed. No step reads any of it.
 */
module RaftHistory {
  import opened Wrappers
  import opened RaftProtocol
  import opened RaftCluster

  datatype Ballot = Ballot(candidate: NodeId, log: Log)

  datatype Lead = Lead(leader: NodeId, voters: set<NodeId>, log: Log)

  // In `term`, `node` held the leader's first `upTo` entries.
  datatype Ack = Ack(node: NodeId, term: nat, upTo: nat)

  datatype History = History(
    leads: map<nat, Lead>,
    votes: map<(NodeId, nat), Ballot>,
    acks: set<Ack>,
    applied: set<Applied>)

  const EMPTY_HISTORY: History := History(map[], map[], {}, {})

  ghost function Record(members: set<NodeId>, c: Cluster, h: History, a: Action): History
    requires Enabled(members, c, a)
  {
    var i, s := a.node, c.nodes[a.node];
    var s' := Effect(members, c, a).0;
    match a
    case Timeout(_) => h.(votes := h.votes[(i, s'.term) := Ballot(i, s.log)])
    case DeliverVoteRequest(_, m) =>
      var granted := HandleRequestVote(s, m.term, m.src, m.lastIndex, m.lastTerm).1.granted;
      if granted && (i, m.term) !in h.votes then h.(votes := h.votes[(i, m.term) := Ballot(m.src, s.log)]) else h
    case Win(_, grants) =>
      h.(leads := h.leads[s.term := Lead(i, grants + {i}, s.log)],
         acks := h.acks + {Ack(i, s.term, |s.log|)})
    case Submit(_, _) =>
      if s.role == Leader && s.term in h.leads then
        h.(leads := h.leads[s.term := h.leads[s.term].(log := s'.log)],
           acks := h.acks + {Ack(i, s.term, |s'.log|)})
      else h
    case DeliverAppendRequest(_, m, code) =>
      var answer := AnswerTo(s, m, code);
      if answer.success then h.(acks := h.acks + {Ack(i, m.term, answer.matchIndex)}) else h
    case ApplyNext(_) => h.(applied := h.applied + set r | r in s'.applied)
    case _ => h
  }

  // ---- growth -----------------------------------------------------------------------------

  // A log grew only by entries of one term.
  ghost predicate GrewBy(before: Log, after: Log, term: nat) {
    |before| <= |after| && before == after[..|before|] &&
    forall k :: |before| <= k < |after| ==> after[k].term == term
  }

  // h' extends h; the new terms, votes and acknowledgements are all node i's.
  ghost predicate Extends(h: History, h': History, i: NodeId) {
    (forall t :: t in h.leads ==>
      t in h'.leads && h'.leads[t].leader == h.leads[t].leader && h'.leads[t].voters == h.leads[t].voters &&
      GrewBy(h.leads[t].log, h'.leads[t].log, t) &&
      (h.leads[t].leader != i ==> h'.leads[t].log == h.leads[t].log)) &&
    (forall t :: t in h'.leads && t !in h.leads ==> h'.leads[t].leader == i) &&
    (forall v :: v in h.votes ==> v in h'.votes && h'.votes[v] == h.votes[v]) &&
    (forall v :: v in h'.votes && v.0 != i ==> v in h.votes) &&
    (forall a :: a in h.acks ==> a in h'.acks) &&
    (forall a :: a in h'.acks && a.node != i ==> a in h.acks) &&
    (forall r :: r in h.applied ==> r in h'.applied)
  }

  // ---- logs -------------------------------------------------------------------------------

  // L and G agree on their first k entries and both have them.
  predicate Shares(L: Log, G: Log, k: nat) {
    k <= |L| && k <= |G| && L[..k] == G[..k]
  }

  // Up to each of its entries, a log is what the leader of that entry's term had.
  ghost predicate EntrySane(h: History, L: Log, k: nat)
    requires k < |L|
  {
    L[k].index == k + 1 && L[k].term in h.leads && Shares(L, h.leads[L[k].term].log, k + 1)
  }

  predicate NoLater(L: Log, j: nat, k: nat)
    requires j <= k < |L|
  {
    L[j].term <= L[k].term
  }

  predicate Ascending(L: Log) {
    forall j, k :: 0 <= j <= k < |L| ==> NoLater(L, j, k)
  }

  ghost predicate Sane(h: History, L: Log) {
    (forall k :: 0 <= k < |L| ==> EntrySane(h, L, k)) && Ascending(L)
  }

  predicate TermsAtMost(L: Log, term: nat) {
    forall k :: 0 <= k < |L| ==> L[k].term <= term
  }

  lemma SanePrefix(h: History, L: Log, n: nat)
    requires Sane(h, L) && n <= |L|
    ensures Sane(h, L[..n])
  {
    forall k | 0 <= k < n
      ensures EntrySane(h, L[..n], k)
    {
      assert EntrySane(h, L, k);
      assert L[..n][..k + 1] == L[..k + 1];
    }
    forall j, k | 0 <= j <= k < n ensures NoLater(L[..n], j, k) {
      assert NoLater(L, j, k);
    }
  }

  lemma SaneExtends(h: History, h': History, i: NodeId, L: Log)
    requires Extends(h, h', i) && Sane(h, L)
    ensures Sane(h', L)
  {
    forall k | 0 <= k < |L|
      ensures EntrySane(h', L, k)
    {
      var t := L[k].term;
      assert EntrySane(h, L, k);
      assert GrewBy(h.leads[t].log, h'.leads[t].log, t);
      assert h'.leads[t].log[..k + 1] == h.leads[t].log[..k + 1];
    }
  }

  // Log matching for any two sane logs.
  lemma SaneAgree(h: History, L: Log, M: Log, n: nat)
    requires Sane(h, L) && Sane(h, M) && 1 <= n <= |L| && n <= |M| && L[n - 1].term == M[n - 1].term
    ensures L[..n] == M[..n]
  {
    assert EntrySane(h, L, n - 1) && EntrySane(h, M, n - 1);
  }

  lemma SharesShorter(L: Log, G: Log, k: nat, n: nat)
    requires Shares(L, G, n) && k <= n
    ensures Shares(L, G, k)
  {
    assert L[..k] == L[..n][..k] && G[..k] == G[..n][..k];
  }

  // ---- invariants that hold in every run ---------------------------------------------------

  // The votes node i has given: never for a term above its own, and on stable storage.
  ghost predicate VotesKept(h: History, i: NodeId, s: NodeState) {
    forall t :: (i, t) in h.votes ==>
      t <= s.term && (t == s.term ==> s.votedFor == Some(h.votes[(i, t)].candidate))
  }

  ghost predicate RoleJustified(h: History, i: NodeId, s: NodeState) {
    (s.role == Candidate ==>
      (i, s.term) in h.votes && h.votes[(i, s.term)] == Ballot(i, s.log) &&
      !(s.term in h.leads && h.leads[s.term].leader == i)) &&
    (s.role == Leader ==>
      s.term in h.leads && h.leads[s.term].leader == i && h.leads[s.term].log == s.log)
  }

  ghost predicate NodeBasic(h: History, i: NodeId, s: NodeState) {
    VotesKept(h, i, s) && RoleJustified(h, i, s) && Sane(h, s.log) && TermsAtMost(s.log, s.term)
  }

  // The slice of the leader's log a request carries: the whole rest of it at that moment,
  // or nothing when next_index overshot the log.
  ghost predicate CarriesLog(G: Log, m: Message)
    requires m.AppendRequest?
  {
    (m.prev <= |G| && m.prev + |m.entries| <= |G| && m.entries == G[m.prev..m.prev + |m.entries|] &&
     m.prevTerm == TermAt(G, m.prev) &&
     forall k :: m.prev + |m.entries| <= k < |G| ==> G[k].term == m.term)
    || (m.prev > 0 && m.prevTerm == 0 && m.entries == [])
  }

  ghost predicate MessageBasic(members: set<NodeId>, h: History, m: Message) {
    match m
    case VoteRequest(src, term, lastIndex, lastTerm) =>
      (src, term) in h.votes && h.votes[(src, term)].candidate == src &&
      lastIndex == |h.votes[(src, term)].log| && lastTerm == LastTerm(h.votes[(src, term)].log)
    case VoteAnswer(src, dst, requestTerm, reply) =>
      reply.granted ==>
        reply.term == requestTerm && (src, requestTerm) in h.votes && h.votes[(src, requestTerm)].candidate == dst
    case AppendRequest(src, dst, term, _, _, _, _) =>
      src != dst && term in h.leads && h.leads[term].leader == src && CarriesLog(h.leads[term].log, m)
    case AppendAnswer(_, _, requestTerm, reply) =>
      requestTerm in h.leads
  }

  // A leader was elected by at least ElectionQuorum votes, its own included.
  function ElectionQuorum(n: nat): nat {
    if Quorum(n) < 2 then 2 else Quorum(n)
  }

  ghost predicate LeadBasic(members: set<NodeId>, h: History, t: nat)
    requires t in h.leads
  {
    var lead := h.leads[t];
    t >= 1 && lead.leader in lead.voters && lead.voters <= members &&
    |lead.voters| >= ElectionQuorum(|members|) &&
    (forall v :: v in lead.voters ==> (v, t) in h.votes && h.votes[(v, t)].candidate == lead.leader) &&
    Sane(h, lead.log) && TermsAtMost(lead.log, t) && GrewBy(h.votes[(lead.leader, t)].log, lead.log, t)
  }

  // A vote was given on the strength of the candidate's own log.
  ghost predicate BallotBasic(h: History, v: (NodeId, nat))
    requires v in h.votes
  {
    var ballot := h.votes[v];
    v.1 >= 1 && Sane(h, ballot.log) &&
    (ballot.candidate, v.1) in h.votes && h.votes[(ballot.candidate, v.1)].candidate == ballot.candidate &&
    (v.0 == ballot.candidate ==> forall k :: 0 <= k < |ballot.log| ==> ballot.log[k].term < v.1) &&
    (var asked := h.votes[(ballot.candidate, v.1)].log; UpToDate(|asked|, LastTerm(asked), ballot.log))
  }

  ghost predicate HistoryBasic(members: set<NodeId>, h: History) {
    (forall t :: t in h.leads ==> LeadBasic(members, h, t)) &&
    (forall v :: v in h.votes ==> BallotBasic(h, v))
  }

  ghost predicate Basic(members: set<NodeId>, c: Cluster, h: History) {
    c.nodes.Keys == members &&
    (forall i :: i in members ==> NodeBasic(h, i, c.nodes[i])) &&
    (forall m :: m in c.messages ==> MessageBasic(members, h, m)) &&
    HistoryBasic(members, h)
  }
}
