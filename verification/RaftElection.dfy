/** Election safety and log matching: what every step of every run keeps. */
module RaftElection {
  import opened Wrappers
  import opened RaftProtocol
  import opened RaftCluster
  import opened RaftHistory
  import opened RaftQuorums

  // ---- what a growing history keeps ---------------------------------------------------------

  lemma NodeStays(h: History, h': History, i: NodeId, j: NodeId, s: NodeState)
    requires Extends(h, h', i) && i != j && NodeBasic(h, j, s)
    ensures NodeBasic(h', j, s)
  {
    SaneExtends(h, h', i, s.log);
    forall t | (j, t) in h'.votes
      ensures t <= s.term && (t == s.term ==> s.votedFor == Some(h'.votes[(j, t)].candidate))
    {
      assert (j, t) in h.votes;
    }
  }

  lemma CarriesLogStays(G: Log, G': Log, m: Message)
    requires m.AppendRequest? && CarriesLog(G, m) && GrewBy(G, G', m.term)
    ensures CarriesLog(G', m)
  {
    if m.prev <= |G| && m.prev + |m.entries| <= |G| && m.entries == G[m.prev..m.prev + |m.entries|] {
      assert G'[..|G|][m.prev..m.prev + |m.entries|] == G'[m.prev..m.prev + |m.entries|];
    }
  }

  lemma MessageStays(members: set<NodeId>, h: History, h': History, i: NodeId, m: Message)
    requires Extends(h, h', i) && MessageBasic(members, h, m)
    ensures MessageBasic(members, h', m)
  {
    if m.AppendRequest? {
      CarriesLogStays(h.leads[m.term].log, h'.leads[m.term].log, m);
    }
  }

  lemma LeadStays(members: set<NodeId>, h: History, h': History, i: NodeId, t: nat)
    requires Extends(h, h', i) && t in h.leads && LeadBasic(members, h, t) && h'.leads[t].log == h.leads[t].log
    ensures LeadBasic(members, h', t)
  {
    SaneExtends(h, h', i, h.leads[t].log);
  }

  lemma BallotStays(h: History, h': History, i: NodeId, v: (NodeId, nat))
    requires Extends(h, h', i) && v in h.votes && BallotBasic(h, v)
    ensures BallotBasic(h', v)
  {
    SaneExtends(h, h', i, h.votes[v].log);
  }

  // A step keeps Basic when what it adds is justified in the grown history.
  lemma BasicFromParts(
    members: set<NodeId>, c: Cluster, h: History, h': History, i: NodeId, s': NodeState, sent: set<Message>)
    requires Basic(members, c, h) && Extends(h, h', i) && i in members && NodeBasic(h', i, s')
    requires forall m :: m in sent ==> MessageBasic(members, h', m)
    requires forall t :: t in h'.leads ==>
               (t in h.leads && h'.leads[t].log == h.leads[t].log) || LeadBasic(members, h', t)
    requires forall v :: v in h'.votes ==> v in h.votes || BallotBasic(h', v)
    ensures Basic(members, Cluster(c.nodes[i := s'], c.messages + sent), h')
  {
    forall j | j in members && j != i ensures NodeBasic(h', j, c.nodes[j]) { NodeStays(h, h', i, j, c.nodes[j]); }
    forall m | m in c.messages ensures MessageBasic(members, h', m) { MessageStays(members, h, h', i, m); }
    forall t | t in h'.leads ensures LeadBasic(members, h', t) {
      if t in h.leads && h'.leads[t].log == h.leads[t].log { LeadStays(members, h, h', i, t); }
    }
    forall v | v in h'.votes ensures BallotBasic(h', v) {
      if v in h.votes { BallotStays(h, h', i, v); }
    }
  }

  // A new vote by i, for a term in which it had none.
  lemma NewVoteExtends(h: History, i: NodeId, term: nat, ballot: Ballot)
    requires (i, term) !in h.votes
    ensures Extends(h, h.(votes := h.votes[(i, term) := ballot]), i)
  {
  }

  // Node i's own log for one term starts or grows.
  lemma NewLeadExtends(h: History, i: NodeId, term: nat, lead: Lead, ack: Ack)
    requires lead.leader == i && ack.node == i
    requires term in h.leads ==>
      h.leads[term].leader == i && h.leads[term].voters == lead.voters && GrewBy(h.leads[term].log, lead.log, term)
    ensures Extends(h, h.(leads := h.leads[term := lead], acks := h.acks + {ack}), i)
  {
    forall t | t in h.leads && t != term ensures GrewBy(h.leads[t].log, h.leads[t].log, t) {
    }
  }

  // ---- one lemma per kind of step -----------------------------------------------------------

  lemma TimeoutKeeps(members: set<NodeId>, c: Cluster, h: History, a: Action)
    requires Basic(members, c, h) && Enabled(members, c, a) && a.Timeout?
    ensures Extends(h, Record(members, c, h, a), a.node)
    ensures Basic(members, Step(members, c, a), Record(members, c, h, a))
  {
    hide HandleAppendEntries, HandleAppendReply, HandleRequestVote, HandleVoteReply;
    var h', i, s := Record(members, c, h, a), a.node, c.nodes[a.node];
    var T := s.term + 1;
    assert NodeBasic(h, i, s);
    NewVoteExtends(h, i, T, Ballot(i, s.log));
    SaneExtends(h, h', i, s.log);
    assert T in h.leads ==> h.leads[T].leader != i by {
      assert T in h.leads ==> LeadBasic(members, h, T);
    }
    assert NodeBasic(h', i, StartElection(s, i));
    assert BallotBasic(h', (i, T));
    var (s', sent) := Effect(members, c, a);
    BasicFromParts(members, c, h, h', i, s', sent);
  }

  lemma VoteRequestNode(members: set<NodeId>, h: History, h': History, i: NodeId, s: NodeState, m: Message)
    requires HistoryBasic(members, h) && NodeBasic(h, i, s) && m.VoteRequest? && MessageBasic(members, h, m)
    requires i != m.src
    requires
      var granted := HandleRequestVote(s, m.term, m.src, m.lastIndex, m.lastTerm).1.granted;
      h' == if granted && (i, m.term) !in h.votes then h.(votes := h.votes[(i, m.term) := Ballot(m.src, s.log)]) else h
    ensures Extends(h, h', i)
    ensures
      var (s', reply) := HandleRequestVote(s, m.term, m.src, m.lastIndex, m.lastTerm);
      NodeBasic(h', i, s') && MessageBasic(members, h', VoteAnswer(i, m.src, m.term, reply))
    ensures forall v :: v in h'.votes ==> v in h.votes || BallotBasic(h', v)
  {
    var (s', reply) := HandleRequestVote(s, m.term, m.src, m.lastIndex, m.lastTerm);
    if reply.granted && (i, m.term) !in h.votes {
      NewVoteExtends(h, i, m.term, Ballot(m.src, s.log));
      SaneExtends(h, h', i, s.log);
      assert BallotBasic(h, (m.src, m.term));
      assert BallotBasic(h', (i, m.term));
    }
  }

  lemma VoteRequestKeeps(members: set<NodeId>, c: Cluster, h: History, a: Action)
    requires Basic(members, c, h) && Enabled(members, c, a) && a.DeliverVoteRequest?
    ensures Extends(h, Record(members, c, h, a), a.node)
    ensures Basic(members, Step(members, c, a), Record(members, c, h, a))
  {
    hide HandleAppendEntries, HandleAppendReply, HandleRequestVote, HandleVoteReply, BallotBasic;
    var h', i := Record(members, c, h, a), a.node;
    VoteRequestNode(members, h, h', i, c.nodes[i], a.message);
    var (s', sent) := Effect(members, c, a);
    BasicFromParts(members, c, h, h', i, s', sent);
  }

  // No second leader in a term: its voters and the first leader's share a node, which voted once.
  lemma WinIsFirst(members: set<NodeId>, c: Cluster, h: History, a: Action)
    requires ElectionSize(|members|)
    requires Basic(members, c, h) && Enabled(members, c, a) && a.Win?
    ensures c.nodes[a.node].term !in h.leads
    ensures |a.grants + {a.node}| >= ElectionQuorum(|members|)
    ensures forall v :: v in a.grants + {a.node} ==>
      (v, c.nodes[a.node].term) in h.votes && h.votes[(v, c.nodes[a.node].term)].candidate == a.node
  {
    hide BallotBasic, HandleAppendEntries, HandleAppendReply, HandleRequestVote, HandleVoteReply;
    var i, s := a.node, c.nodes[a.node];
    var voters := a.grants + {i};
    assert NodeBasic(h, i, s);
    forall v | v in voters
      ensures (v, s.term) in h.votes && h.votes[(v, s.term)].candidate == i
    {
      if v in a.grants {
        assert MessageBasic(members, h, VoteAnswer(v, i, s.term, VoteReply(s.term, true)));
      }
    }
    assert s.term !in h.leads by {
      if s.term in h.leads {
        assert LeadBasic(members, h, s.term);
        var v := VotersMeet(members, voters, h.leads[s.term].voters);
        assert false;
      }
    }
  }

  lemma WinNode(members: set<NodeId>, h: History, h': History, i: NodeId, s: NodeState, grants: set<NodeId>)
    requires HistoryBasic(members, h) && NodeBasic(h, i, s) && s.role == Candidate && s.term !in h.leads
    requires grants + {i} <= members && |grants + {i}| >= ElectionQuorum(|members|)
    requires forall v :: v in grants + {i} ==> (v, s.term) in h.votes && h.votes[(v, s.term)].candidate == i
    requires h' == h.(leads := h.leads[s.term := Lead(i, grants + {i}, s.log)],
                      acks := h.acks + {Ack(i, s.term, |s.log|)})
    ensures Extends(h, h', i)
    ensures NodeBasic(h', i, BecomeLeader(s, i, members - {i}))
    ensures LeadBasic(members, h', s.term)
  {
    NewLeadExtends(h, i, s.term, h'.leads[s.term], Ack(i, s.term, |s.log|));
    SaneExtends(h, h', i, s.log);
    assert BallotBasic(h, (i, s.term));
  }

  lemma WinKeeps(members: set<NodeId>, c: Cluster, h: History, a: Action)
    requires ElectionSize(|members|)
    requires Basic(members, c, h) && Enabled(members, c, a) && a.Win?
    ensures Extends(h, Record(members, c, h, a), a.node)
    ensures Basic(members, Step(members, c, a), Record(members, c, h, a))
  {
    hide BallotBasic, MessageBasic, HandleAppendEntries, HandleAppendReply, HandleRequestVote, HandleVoteReply,
         BecomeLeader, LeadBasic;
    var h', i := Record(members, c, h, a), a.node;
    WinIsFirst(members, c, h, a);
    WinNode(members, h, h', i, c.nodes[i], a.grants);
    var (s', sent) := Effect(members, c, a);
    BasicFromParts(members, c, h, h', i, s', sent);
  }

  // A leader's history when it appends an entry of its own.
  ghost function Submitted(h: History, i: NodeId, s: NodeState, command: string): History
    requires s.term in h.leads
  {
    var L' := s.log + [LogEntry(s.term, |s.log| + 1, command)];
    h.(leads := h.leads[s.term := h.leads[s.term].(log := L')], acks := h.acks + {Ack(i, s.term, |L'|)})
  }

  lemma SubmitSane(members: set<NodeId>, h: History, i: NodeId, s: NodeState, command: string)
    requires HistoryBasic(members, h) && NodeBasic(h, i, s) && s.role == Leader
    ensures
      var h', L' := Submitted(h, i, s, command), s.log + [LogEntry(s.term, |s.log| + 1, command)];
      Extends(h, h', i) && Sane(h', L') && GrewBy(s.log, L', s.term) && TermsAtMost(L', s.term)
  {
    var L, h' := s.log, Submitted(h, i, s, command);
    var L' := L + [LogEntry(s.term, |L| + 1, command)];
    assert LeadBasic(members, h, s.term);
    hide HistoryBasic, LeadBasic;
    assert L == L'[..|L|];
    NewLeadExtends(h, i, s.term, h'.leads[s.term], Ack(i, s.term, |L'|));
    SaneExtends(h, h', i, L);
    SaneAppend(h', L, L');
    hide Sane, Extends;
  }

  lemma SubmitNode(members: set<NodeId>, h: History, h': History, i: NodeId, s: NodeState, command: string)
    requires HistoryBasic(members, h) && NodeBasic(h, i, s) && s.role == Leader
    requires h' == Submitted(h, i, s, command)
    ensures Extends(h, h', i)
    ensures NodeBasic(h', i, Propose(s, i, command).0)
    ensures LeadBasic(members, h', s.term)
  {
    hide Sane, Extends, GrewBy, LeadBasic, TermsAtMost;
    SubmitSane(members, h, i, s, command);
    assert LeadBasic(members, h, s.term);
    hide HistoryBasic;
    SubmitLead(members, h, i, s, command);
  }

  lemma SubmitLead(members: set<NodeId>, h: History, i: NodeId, s: NodeState, command: string)
    requires s.term in h.leads && LeadBasic(members, h, s.term) && h.leads[s.term].log == s.log
    requires
      var h' := Submitted(h, i, s, command);
      Sane(h', h'.leads[s.term].log) && GrewBy(s.log, h'.leads[s.term].log, s.term) &&
      TermsAtMost(h'.leads[s.term].log, s.term)
    ensures LeadBasic(members, Submitted(h, i, s, command), s.term)
  {
    hide Sane, TermsAtMost;
    var h' := Submitted(h, i, s, command);
    GrewTwice(h.votes[(h.leads[s.term].leader, s.term)].log, s.log, h'.leads[s.term].log, s.term);
    hide GrewBy;
  }

  // A leader's log stays sane when it appends an entry of its own term.
  lemma SaneAppend(h: History, L: Log, L': Log)
    requires Sane(h, L) && |L'| == |L| + 1 && L == L'[..|L|] && L'[|L|].index == |L'|
    requires TermsAtMost(L, L'[|L|].term) && L'[|L|].term in h.leads && h.leads[L'[|L|].term].log == L'
    ensures Sane(h, L')
  {
    forall k | 0 <= k < |L'| ensures EntrySane(h, L', k) {
      if k < |L| {
        assert EntrySane(h, L, k);
        assert L'[..k + 1] == L[..k + 1];
      }
    }
    forall j, k | 0 <= j <= k < |L'| ensures NoLater(L', j, k) {
      if k < |L| { assert NoLater(L, j, k); }
    }
  }

  lemma SubmitKeeps(members: set<NodeId>, c: Cluster, h: History, a: Action)
    requires Basic(members, c, h) && Enabled(members, c, a) && a.Submit?
    ensures Extends(h, Record(members, c, h, a), a.node)
    ensures Basic(members, Step(members, c, a), Record(members, c, h, a))
  {
    hide MessageBasic, LeadBasic, BallotBasic, HandleAppendEntries, HandleAppendReply, HandleRequestVote,
         HandleVoteReply;
    var h', i := Record(members, c, h, a), a.node;
    assert NodeBasic(h, i, c.nodes[i]);
    if c.nodes[i].role == Leader {
      SubmitNode(members, h, h', i, c.nodes[i], a.command);
    }
    var (s', sent) := Effect(members, c, a);
    BasicFromParts(members, c, h, h', i, s', sent);
  }

  lemma RequestCarriesLog(h: History, i: NodeId, s: NodeState, peer: NodeId, commit: nat)
    requires NodeBasic(h, i, s) && s.role == Leader && peer != i
    ensures CarriesLog(s.log, AppendTo(s, i, peer, commit))
  {
    var m := AppendTo(s, i, peer, commit);
    if m.prev <= |s.log| {
      assert s.log[m.prev..m.prev + |m.entries|] == s.log[m.prev..];
    }
  }

  lemma RequestBasic(members: set<NodeId>, h: History, i: NodeId, s: NodeState, peer: NodeId, commit: nat)
    requires NodeBasic(h, i, s) && s.role == Leader && peer != i
    ensures MessageBasic(members, h, AppendTo(s, i, peer, commit))
  {
    RequestCarriesLog(h, i, s, peer, commit);
    hide CarriesLog, Sane;
  }

  lemma ReplicateKeeps(members: set<NodeId>, c: Cluster, h: History, a: Action)
    requires Basic(members, c, h) && Enabled(members, c, a) && a.Replicate?
    ensures Extends(h, Record(members, c, h, a), a.node)
    ensures Basic(members, Step(members, c, a), Record(members, c, h, a))
  {
    hide LeadBasic, BallotBasic, HandleAppendEntries, HandleAppendReply, HandleRequestVote, HandleVoteReply,
         CarriesLog, AppendTo;
    var i, s := a.node, c.nodes[a.node];
    assert NodeBasic(h, i, s);
    RequestBasic(members, h, i, s, a.peer, a.commit);
    hide NodeBasic, MessageBasic;
    var (s', sent) := Effect(members, c, a);
    BasicFromParts(members, c, h, h, i, s', sent);
  }

  // What a request leaves in a sane log: the log itself, or exactly the leader's log as sent.
  lemma MergeResult(h: History, L: Log, M: Log, prev: nat, entries: Log, i: nat)
    requires Sane(h, L) && Sane(h, M)
    requires i <= |entries| && prev + |entries| == |M| && entries == M[prev..]
    requires prev + i <= |L| && L[..prev + i] == M[..prev + i]
    ensures MergeFrom(L, prev, entries, i) == (if |M| <= |L| && M == L[..|M|] then L else M)
    decreases |entries| - i
  {
    if i == |entries| {
      assert M[..prev + i] == M;
    } else if prev + i == |L| {
      assert L == M[..|L|] && entries[i..] == M[|L|..];
    } else if L[prev + i].term != entries[i].term {
      assert M[prev + i] == entries[i];
      assert entries[i..] == M[prev + i..];
      assert |M| <= |L| ==> L[..|M|][prev + i] != M[prev + i];
    } else {
      SaneAgree(h, L, M, prev + i + 1);
      MergeResult(h, L, M, prev, entries, i + 1);
    }
  }

  // The leader's log as a request shows it.
  function Shown(G: Log, m: Message): Log
    requires m.AppendRequest?
  {
    if m.prev + |m.entries| <= |G| then G[..m.prev + |m.entries|] else []
  }

  // The follower's log after a request: with a success, its own log when it already holds the
  // leader's, else exactly the leader's; with a refusal, untouched or cut before a disagreement.
  ghost predicate AppendOutcome(L: Log, M: Log, m: Message, L': Log, success: bool)
    requires m.AppendRequest?
  {
    if success then
      |M| == m.prev + |m.entries| && L' == (if |M| <= |L| && M == L[..|M|] then L else M)
    else
      L' == L || (1 <= m.prev <= |L| && L' == L[..m.prev - 1] && TermAt(L, m.prev) != m.prevTerm)
  }

  lemma SaneTermsPositive(members: set<NodeId>, h: History, L: Log)
    requires HistoryBasic(members, h) && Sane(h, L)
    ensures forall k :: 0 <= k < |L| ==> L[k].term >= 1
  {
    forall k | 0 <= k < |L| ensures L[k].term >= 1 {
      assert EntrySane(h, L, k);
      assert LeadBasic(members, h, L[k].term);
    }
  }

  // What the handler does to the log, without the rest of the state.
  lemma AppendLog(s: NodeState, m: Message)
    requires m.AppendRequest?
    ensures
      var (s', reply) := HandleAppendEntries(s, m.term, m.src, m.prev, m.prevTerm, m.entries, m.commit);
      s'.term == Max(s.term, m.term) &&
      (reply.success ==>
        m.term >= s.term && m.prev <= |s.log| && (m.prev > 0 ==> TermAt(s.log, m.prev) == m.prevTerm) &&
        s'.log == MergeFrom(s.log, m.prev, m.entries, 0)) &&
      (!reply.success ==>
        s'.log == s.log ||
        (1 <= m.prev <= |s.log| && s'.log == s.log[..m.prev - 1] && TermAt(s.log, m.prev) != m.prevTerm))
  {
  }

  // A success is only ever given to a request that shows a piece of the leader's log.
  lemma SuccessShowsLog(members: set<NodeId>, h: History, L: Log, G: Log, m: Message)
    requires HistoryBasic(members, h) && Sane(h, L) && Sane(h, G)
    requires m.AppendRequest? && CarriesLog(G, m)
    requires m.prev <= |L| && (m.prev > 0 ==> TermAt(L, m.prev) == m.prevTerm)
    ensures m.prev + |m.entries| <= |G|
    ensures
      var M := Shown(G, m);
      MergeFrom(L, m.prev, m.entries, 0) == (if |M| <= |L| && M == L[..|M|] then L else M)
  {
    SaneTermsPositive(members, h, L);
    var M := Shown(G, m);
    if m.prev > 0 {
      SaneAgree(h, L, G, m.prev);
    }
    assert M[..m.prev] == G[..m.prev];
    assert M[m.prev..] == m.entries;
    SanePrefix(h, G, |M|);
    MergeResult(h, L, M, m.prev, m.entries, 0);
  }

  lemma AppendMeaning(members: set<NodeId>, h: History, s: NodeState, m: Message)
    requires HistoryBasic(members, h) && Sane(h, s.log)
    requires m.AppendRequest? && MessageBasic(members, h, m)
    ensures
      var (s', reply) := HandleAppendEntries(s, m.term, m.src, m.prev, m.prevTerm, m.entries, m.commit);
      s'.term == Max(s.term, m.term) && (reply.success ==> m.term == s'.term) &&
      AppendOutcome(s.log, Shown(h.leads[m.term].log, m), m, s'.log, reply.success)
  {
    assert LeadBasic(members, h, m.term);
    AppendLog(s, m);
    if HandleAppendEntries(s, m.term, m.src, m.prev, m.prevTerm, m.entries, m.commit).1.success {
      SuccessShowsLog(members, h, s.log, h.leads[m.term].log, m);
    }
  }

  // ---- what a successful answer may claim -------------------------------------------------------

  // Without a conflict a log longer than the request stays as it is.
  lemma {:induction false} MergeKeepsTail(log: Log, prev: nat, entries: Log, i: nat)
    requires i <= |entries| && prev + |entries| <= |log| && !Conflicts(log, prev, entries)
    ensures MergeFrom(log, prev, entries, i) == log
    decreases |entries| - i
  {
    if i < |entries| {
      assert prev + i < |log| ==> log[prev + i].term == entries[i].term;
      MergeKeepsTail(log, prev, entries, i + 1);
    }
  }

  // A log that keeps a tail past the shown entries without an entry of an older term is the leader's.
  lemma FreshTailIsLeaders(members: set<NodeId>, h: History, L: Log, m: Message)
    requires m.AppendRequest? && HistoryBasic(members, h) && Sane(h, L) && TermsAtMost(L, m.term)
    requires m.term in h.leads && m.prev + |m.entries| <= |h.leads[m.term].log|
    requires m.prev + |m.entries| <= |L| && Shown(h.leads[m.term].log, m) == L[..m.prev + |m.entries|]
    requires forall k :: m.prev + |m.entries| <= k < |L| ==> L[k].term >= m.term
    ensures Shares(L, h.leads[m.term].log, |L|)
  {
    hide HistoryBasic;
    if |L| > m.prev + |m.entries| {
      assert L[|L| - 1].term == m.term;
      assert EntrySane(h, L, |L| - 1);
      hide Sane;
    }
  }

  lemma ShownTermsFinal(G: Log, m: Message, k: nat)
    requires m.AppendRequest? && CarriesLog(G, m) && m.prev + |m.entries| <= k < |G|
    requires !(m.prev > 0 && m.prevTerm == 0)
    ensures G[k].term == m.term
  {
  }

  lemma StaleTailDiffers(L: Log, G: Log, m: Message)
    requires m.AppendRequest? && CarriesLog(G, m) && !(m.prev > 0 && m.prevTerm == 0)
    requires StaleTail(L, m.prev, m.entries, m.term)
    ensures !Shares(L, G, |L|)
  {
    var k: nat :| m.prev + |m.entries| <= k < |L| && L[k].term < m.term;
    if Shares(L, G, |L|) {
      assert G[..|L|][k] == L[k];
      ShownTermsFinal(G, m, k);
    }
  }

  // After a success the follower's whole log is the start of the leader's, if and only if no entry of
  // an older term outlived the request.
  lemma WholeLogHonestIff(members: set<NodeId>, h: History, i: NodeId, s: NodeState, m: Message)
    requires HistoryBasic(members, h) && NodeBasic(h, i, s)
    requires m.AppendRequest? && MessageBasic(members, h, m)
    requires HandleAppendEntries(s, m.term, m.src, m.prev, m.prevTerm, m.entries, m.commit).1.success
    ensures
      var L' := HandleAppendEntries(s, m.term, m.src, m.prev, m.prevTerm, m.entries, m.commit).0.log;
      Shares(L', h.leads[m.term].log, |L'|) <==> !StaleTail(s.log, m.prev, m.entries, m.term)
  {
    hide HandleAppendEntries, VotesKept, RoleJustified, LeadBasic, BallotBasic;
    var L, G, L' := s.log, h.leads[m.term].log,
      HandleAppendEntries(s, m.term, m.src, m.prev, m.prevTerm, m.entries, m.commit).0.log;
    var covered := m.prev + |m.entries|;
    AppendLog(s, m);
    AppendMeaning(members, h, s, m);
    SaneTermsPositive(members, h, L);
    assert !(m.prev > 0 && m.prevTerm == 0);
    hide HistoryBasic, Sane, MergeFrom;
    if StaleTail(L, m.prev, m.entries, m.term) {
      MergeKeepsTail(L, m.prev, m.entries, 0);
      StaleTailDiffers(L, G, m);
    } else if L' == L && covered <= |L| && Shown(G, m) == L[..covered] {
      NoConflictWhenShown(L, G, m);
      FreshTailIsLeaders(members, h, L, m);
    }
  }

  lemma NoConflictWhenShown(L: Log, G: Log, m: Message)
    requires m.AppendRequest? && CarriesLog(G, m) && !(m.prev > 0 && m.prevTerm == 0)
    requires m.prev + |m.entries| <= |L| && Shown(G, m) == L[..m.prev + |m.entries|]
    ensures !Conflicts(L, m.prev, m.entries)
  {
    forall k | 0 <= k < |m.entries| ensures L[m.prev + k] == m.entries[k] {
      assert m.entries[k] == G[m.prev + k] == Shown(G, m)[m.prev + k] == L[..m.prev + |m.entries|][m.prev + k];
    }
  }

  // The shown part itself is always the start of both logs.
  lemma CoveredIsShared(L: Log, G: Log, m: Message, L': Log)
    requires m.AppendRequest? && m.prev + |m.entries| <= |G| && AppendOutcome(L, Shown(G, m), m, L', true)
    ensures Shares(L', G, m.prev + |m.entries|)
  {
  }

  // An honest answer claims entries the follower shares with the leader.
  lemma AnswerIsShared(members: set<NodeId>, h: History, i: NodeId, s: NodeState, m: Message, code: Code)
    requires HistoryBasic(members, h) && NodeBasic(h, i, s)
    requires m.AppendRequest? && MessageBasic(members, h, m) && AnswerTo(s, m, code).success
    requires code == AsWritten ==> !StaleTail(s.log, m.prev, m.entries, m.term)
    ensures
      var L' := HandleAppendEntries(s, m.term, m.src, m.prev, m.prevTerm, m.entries, m.commit).0.log;
      Shares(L', h.leads[m.term].log, AnswerTo(s, m, code).matchIndex)
  {
    var L' := HandleAppendEntries(s, m.term, m.src, m.prev, m.prevTerm, m.entries, m.commit).0.log;
    if code == AsWritten {
      WholeLogHonestIff(members, h, i, s, m);
    } else {
      hide HandleAppendEntries;
      AppendMeaning(members, h, s, m);
      assert LeadBasic(members, h, m.term);
      AppendLog(s, m);
      SuccessShowsLog(members, h, s.log, h.leads[m.term].log, m);
      CoveredIsShared(s.log, h.leads[m.term].log, m, L');
    }
  }

  // The resulting log is sane and holds no entry of a later term.
  lemma OutcomeSane(members: set<NodeId>, h: History, L: Log, m: Message, L': Log, success: bool, term: nat)
    requires HistoryBasic(members, h) && Sane(h, L) && TermsAtMost(L, term)
    requires m.AppendRequest? && m.term in h.leads
    requires AppendOutcome(L, Shown(h.leads[m.term].log, m), m, L', success)
    requires m.term <= term || !success
    ensures Sane(h, L') && TermsAtMost(L', term)
  {
    assert LeadBasic(members, h, m.term);
    SanePrefix(h, h.leads[m.term].log, |Shown(h.leads[m.term].log, m)|);
    if 1 <= m.prev <= |L| { SanePrefix(h, L, m.prev - 1); }
  }

  lemma NewAckExtends(h: History, ack: Ack)
    ensures Extends(h, h.(acks := h.acks + {ack}), ack.node)
  {
  }

  // What remains of a node's standing when its log and stored vote survive.
  ghost predicate Quiet(s: NodeState, s': NodeState) {
    s'.log == s.log && s'.term >= s.term &&
    (s'.term == s.term ==> s'.votedFor == s.votedFor && (s'.role == s.role || s'.role == Follower)) &&
    (s'.term > s.term ==> s'.role == Follower)
  }

  lemma QuietNode(h: History, i: NodeId, s: NodeState, s': NodeState)
    requires NodeBasic(h, i, s) && Quiet(s, s')
    ensures NodeBasic(h, i, s')
  {
  }

  // A leader is never handed a request of its own term.
  lemma AppendRole(h: History, i: NodeId, s: NodeState, m: Message)
    requires NodeBasic(h, i, s) && m.AppendRequest? && m.dst == i && m.src != i
    requires m.term in h.leads && h.leads[m.term].leader == m.src
    ensures
      var (s', reply) := HandleAppendEntries(s, m.term, m.src, m.prev, m.prevTerm, m.entries, m.commit);
      (reply.success ==> s'.role == Follower) &&
      (s'.role != Follower ==> Quiet(s, s')) &&
      (s'.term == s.term ==> s'.votedFor == s.votedFor)
  {
  }

  lemma AppendNode(members: set<NodeId>, h: History, i: NodeId, s: NodeState, m: Message)
    requires HistoryBasic(members, h) && NodeBasic(h, i, s)
    requires m.AppendRequest? && m.dst == i && MessageBasic(members, h, m)
    ensures
      var s' := HandleAppendEntries(s, m.term, m.src, m.prev, m.prevTerm, m.entries, m.commit).0;
      NodeBasic(h, i, s')
  {
    var (s', reply) := HandleAppendEntries(s, m.term, m.src, m.prev, m.prevTerm, m.entries, m.commit);
    AppendMeaning(members, h, s, m);
    AppendRole(h, i, s, m);
    OutcomeSane(members, h, s.log, m, s'.log, reply.success, s'.term);
  }

  lemma AppendRequestKeeps(
    members: set<NodeId>, c: Cluster, h: History, h': History, i: NodeId, m: Message, code: Code)
    requires Basic(members, c, h) && i in members && m in c.messages && m.AppendRequest? && m.dst == i
    requires
      var answer := AnswerTo(c.nodes[i], m, code);
      h' == if answer.success then h.(acks := h.acks + {Ack(i, m.term, answer.matchIndex)}) else h
    ensures Extends(h, h', i)
    ensures
      var s' := HandleAppendEntries(c.nodes[i], m.term, m.src, m.prev, m.prevTerm, m.entries, m.commit).0;
      var sent := AppendAnswer(i, m.src, m.term, AnswerTo(c.nodes[i], m, code));
      Basic(members, Cluster(c.nodes[i := s'], c.messages + {sent}), h')
  {
    hide LeadBasic, BallotBasic, HandleAppendEntries;
    var s' := HandleAppendEntries(c.nodes[i], m.term, m.src, m.prev, m.prevTerm, m.entries, m.commit).0;
    var answer := AnswerTo(c.nodes[i], m, code);
    hide AnswerTo;
    AppendNode(members, h, i, c.nodes[i], m);
    NewAckExtends(h, Ack(i, m.term, answer.matchIndex));
    SaneExtends(h, h', i, s'.log);
    assert NodeBasic(h', i, s');
    BasicFromParts(members, c, h, h', i, s', {AppendAnswer(i, m.src, m.term, answer)});
  }

  // Steps that touch neither a log, a vote nor an acknowledgement.
  lemma OtherKeeps(members: set<NodeId>, c: Cluster, h: History, h': History, i: NodeId, s': NodeState)
    requires Basic(members, c, h) && i in members && Quiet(c.nodes[i], s')
    requires h'.leads == h.leads && h'.votes == h.votes && h'.acks == h.acks && h.applied <= h'.applied
    ensures Extends(h, h', i)
    ensures Basic(members, Cluster(c.nodes[i := s'], c.messages + {}), h')
  {
    hide LeadBasic, BallotBasic, MessageBasic;
    QuietNode(h, i, c.nodes[i], s');
    SaneExtends(h, h', i, s'.log);
    BasicFromParts(members, c, h, h', i, s', {});
  }

  predicate Light(a: Action) {
    a.DeliverVoteAnswer? || a.DeliverAppendAnswer? || a.BeginApply? || a.ApplyNext? || a.EndApply? || a.Crash?
  }

  lemma LightStep(members: set<NodeId>, c: Cluster, h: History, a: Action)
    requires Enabled(members, c, a) && Light(a)
    ensures Quiet(c.nodes[a.node], Effect(members, c, a).0) && Effect(members, c, a).1 == {}
    ensures
      var h' := Record(members, c, h, a);
      h'.leads == h.leads && h'.votes == h.votes && h'.acks == h.acks && h.applied <= h'.applied
  {
  }

  lemma AppendStepKeeps(members: set<NodeId>, c: Cluster, h: History, a: Action)
    requires Basic(members, c, h) && Enabled(members, c, a) && a.DeliverAppendRequest?
    ensures Extends(h, Record(members, c, h, a), a.node)
    ensures Basic(members, Step(members, c, a), Record(members, c, h, a))
  {
    hide HandleAppendEntries, HandleAppendReply, HandleRequestVote, HandleVoteReply, Basic, Extends;
    AppendRequestKeeps(members, c, h, Record(members, c, h, a), a.node, a.message, a.code);
  }

  lemma LightStepKeeps(members: set<NodeId>, c: Cluster, h: History, a: Action)
    requires Basic(members, c, h) && Enabled(members, c, a) && Light(a)
    ensures Extends(h, Record(members, c, h, a), a.node)
    ensures Basic(members, Step(members, c, a), Record(members, c, h, a))
  {
    hide HandleAppendEntries, HandleAppendReply, HandleRequestVote, HandleVoteReply, Basic, Extends;
    LightStep(members, c, h, a);
    OtherKeeps(members, c, h, Record(members, c, h, a), a.node, Effect(members, c, a).0);
  }

  lemma StepKeepsBasic(members: set<NodeId>, c: Cluster, h: History, a: Action)
    requires ElectionSize(|members|)
    requires Basic(members, c, h) && Enabled(members, c, a)
    ensures Extends(h, Record(members, c, h, a), a.node)
    ensures Basic(members, Step(members, c, a), Record(members, c, h, a))
  {
    hide HandleAppendEntries, HandleAppendReply, HandleRequestVote, HandleVoteReply, Basic, Extends, Effect, Record;
    match a
    case Timeout(_) => TimeoutKeeps(members, c, h, a);
    case DeliverVoteRequest(_, _) => VoteRequestKeeps(members, c, h, a);
    case Win(_, _) => WinKeeps(members, c, h, a);
    case Submit(_, _) => SubmitKeeps(members, c, h, a);
    case Replicate(_, _, _) => ReplicateKeeps(members, c, h, a);
    case DeliverAppendRequest(_, _, _) => AppendStepKeeps(members, c, h, a);
    case _ => LightStepKeeps(members, c, h, a);
  }

  // ---- whole runs ---------------------------------------------------------------------------

  // The history of the first n steps of a run.
  ghost function HistoryOf(members: set<NodeId>, run: seq<Cluster>, actions: seq<Action>, n: nat): History
    requires IsRun(members, run, actions) && n <= |actions|
  {
    if n == 0 then EMPTY_HISTORY
    else Record(members, run[n - 1], HistoryOf(members, run, actions, n - 1), actions[n - 1])
  }

  lemma {:induction false} RunIsBasic(members: set<NodeId>, run: seq<Cluster>, actions: seq<Action>, n: nat)
    requires ElectionSize(|members|) && IsRun(members, run, actions) && n <= |actions|
    ensures Basic(members, run[n], HistoryOf(members, run, actions, n))
  {
    if n == 0 {
    } else {
      RunIsBasic(members, run, actions, n - 1);
      StepKeepsBasic(members, run[n - 1], HistoryOf(members, run, actions, n - 1), actions[n - 1]);
    }
  }

  lemma HistoryGrows(members: set<NodeId>, run: seq<Cluster>, actions: seq<Action>, n: nat)
    requires ElectionSize(|members|) && IsRun(members, run, actions) && n < |actions|
    ensures Extends(HistoryOf(members, run, actions, n), HistoryOf(members, run, actions, n + 1), actions[n].node)
  {
    hide Basic, Effect, Record, Step, Enabled, Extends;
    RunIsBasic(members, run, actions, n);
    StepKeepsBasic(members, run[n], HistoryOf(members, run, actions, n), actions[n]);
  }

  // A term has one leader, whose log only grows, for the rest of the run.
  lemma {:induction false} LeadsPersist(
    members: set<NodeId>, run: seq<Cluster>, actions: seq<Action>, n: nat, n': nat, t: nat)
    requires ElectionSize(|members|) && IsRun(members, run, actions) && n <= n' <= |actions|
    requires t in HistoryOf(members, run, actions, n).leads
    ensures t in HistoryOf(members, run, actions, n').leads
    ensures
      var before, after := HistoryOf(members, run, actions, n).leads[t], HistoryOf(members, run, actions, n').leads[t];
      before.leader == after.leader && GrewBy(before.log, after.log, t)
    decreases n'
  {
    hide IsRun, HistoryOf, GrewBy, Extends;
    if n < n' {
      LeadsPersist(members, run, actions, n, n' - 1, t);
      HistoryGrows(members, run, actions, n' - 1);
      var h, h1, h2 := HistoryOf(members, run, actions, n), HistoryOf(members, run, actions, n' - 1),
                        HistoryOf(members, run, actions, n');
      LeadExtends(h1, h2, actions[n' - 1].node, t);
      GrewTwice(h.leads[t].log, h1.leads[t].log, h2.leads[t].log, t);
    } else {
      GrewNot(HistoryOf(members, run, actions, n).leads[t].log, t);
    }
  }

  lemma LeadExtends(h: History, h': History, i: NodeId, t: nat)
    requires Extends(h, h', i) && t in h.leads
    ensures t in h'.leads && h'.leads[t].leader == h.leads[t].leader && GrewBy(h.leads[t].log, h'.leads[t].log, t)
  {
    hide GrewBy;
  }

  lemma GrewNot(a: Log, term: nat)
    ensures GrewBy(a, a, term)
  {
  }

  lemma GrewTwice(a: Log, b: Log, c: Log, term: nat)
    requires GrewBy(a, b, term) && GrewBy(b, c, term)
    ensures GrewBy(a, c, term)
  {
    assert c[..|a|] == c[..|b|][..|a|];
    forall k | |a| <= k < |c| ensures c[k].term == term {
      if k < |b| { assert b[k] == c[..|b|][k]; }
    }
  }

  // Two nodes that lead in one term, at any two moments of a run, are the same node.
  lemma ElectionSafety(
    members: set<NodeId>, run: seq<Cluster>, actions: seq<Action>, n: nat, n': nat, i: NodeId, j: NodeId, t: nat)
    requires ElectionSize(|members|) && IsRun(members, run, actions) && n <= n'
    requires LeadsAt(run, n, i, t) && LeadsAt(run, n', j, t)
    ensures i == j
  {
    RunIsBasic(members, run, actions, n);
    RunIsBasic(members, run, actions, n');
    assert NodeBasic(HistoryOf(members, run, actions, n), i, run[n].nodes[i]);
    assert NodeBasic(HistoryOf(members, run, actions, n'), j, run[n'].nodes[j]);
    LeadsPersist(members, run, actions, n, n', t);
  }

  // As long as a node leads in a term it only appends to its log.
  lemma LeaderAppendOnly(
    members: set<NodeId>, run: seq<Cluster>, actions: seq<Action>, n: nat, n': nat, i: NodeId, t: nat)
    requires ElectionSize(|members|) && IsRun(members, run, actions) && n <= n'
    requires LeadsAt(run, n, i, t) && LeadsAt(run, n', i, t)
    ensures GrewBy(run[n].nodes[i].log, run[n'].nodes[i].log, t)
  {
    RunIsBasic(members, run, actions, n);
    RunIsBasic(members, run, actions, n');
    assert NodeBasic(HistoryOf(members, run, actions, n), i, run[n].nodes[i]);
    assert NodeBasic(HistoryOf(members, run, actions, n'), i, run[n'].nodes[i]);
    LeadsPersist(members, run, actions, n, n', t);
  }

  // A log that was sane stays sane as the history grows, however many steps later.
  lemma {:induction false} SaneLater(
    members: set<NodeId>, run: seq<Cluster>, actions: seq<Action>, n: nat, n': nat, L: Log)
    requires ElectionSize(|members|) && IsRun(members, run, actions) && n <= n' <= |actions|
    requires Sane(HistoryOf(members, run, actions, n), L)
    ensures Sane(HistoryOf(members, run, actions, n'), L)
    decreases n'
  {
    if n < n' {
      hide IsRun, Record, Sane, Extends;
      SaneLater(members, run, actions, n, n' - 1, L);
      HistoryGrows(members, run, actions, n' - 1);
      SaneExtends(HistoryOf(members, run, actions, n' - 1), HistoryOf(members, run, actions, n'),
                  actions[n' - 1].node, L);
    }
  }

  // Two logs, of any nodes at any moments of a run, that hold an entry of the same index and term
  // agree on everything up to it.
  lemma LogMatching(
    members: set<NodeId>, run: seq<Cluster>, actions: seq<Action>, n: nat, n': nat, i: NodeId, j: NodeId, k: nat)
    requires ElectionSize(|members|) && IsRun(members, run, actions) && n <= n' <= |actions|
    requires i in run[n].nodes && j in run[n'].nodes
    requires k < |run[n].nodes[i].log| && k < |run[n'].nodes[j].log|
    requires run[n].nodes[i].log[k].term == run[n'].nodes[j].log[k].term
    ensures run[n].nodes[i].log[..k + 1] == run[n'].nodes[j].log[..k + 1]
  {
    RunIsBasic(members, run, actions, n);
    RunIsBasic(members, run, actions, n');
    assert NodeBasic(HistoryOf(members, run, actions, n), i, run[n].nodes[i]);
    assert NodeBasic(HistoryOf(members, run, actions, n'), j, run[n'].nodes[j]);
    SaneLater(members, run, actions, n, n', run[n].nodes[i].log);
    SaneAgree(HistoryOf(members, run, actions, n'), run[n].nodes[i].log, run[n'].nodes[j].log, k + 1);
  }
}
