/**
 * Clusters of at most two nodes: every election takes both, so the logs never part and no answer ever
 * claims a stale tail, even as the code is written.
 */
module RaftPairs {
  import opened RaftProtocol
  import opened RaftCluster
  import opened RaftHistory
  import opened RaftElection
  import opened RaftCommit
  import opened RaftSafety
  import opened RaftTheorems

  // Nobody has an entry a leader, or a candidate with its vote, does not have; what a leader had it
  // still has; and a log holds nothing beyond the log of the leader of its node's term.
  ghost predicate PairKept(members: set<NodeId>, nodes: map<NodeId, NodeState>, h: History) {
    nodes.Keys == members &&
    (forall i, j :: i in members && j in members ==> Comparable(nodes[i].log, nodes[j].log)) &&
    (forall i, j :: i in members && j in members ==> Follows(h, i, nodes[i], j, nodes[j])) &&
    (forall t :: t in h.leads ==> LeaderKeeps(members, nodes, h, t)) &&
    (forall i :: i in members ==> WithinTerm(h, nodes[i]))
  }

  predicate Comparable(a: Log, b: Log) {
    a <= b || b <= a
  }

  ghost predicate Follows(h: History, i: NodeId, s: NodeState, j: NodeId, o: NodeState) {
    (s.role == Leader ==> o.log <= s.log) &&
    (s.role == Candidate && i != j && (j, s.term) in h.votes && h.votes[(j, s.term)].candidate == i ==> o.log <= s.log)
  }

  ghost predicate LeaderKeeps(members: set<NodeId>, nodes: map<NodeId, NodeState>, h: History, t: nat)
    requires t in h.leads
  {
    h.leads[t].leader in nodes && h.leads[t].log <= nodes[h.leads[t].leader].log
  }

  ghost predicate WithinTerm(h: History, s: NodeState) {
    s.term in h.leads ==> s.log <= h.leads[s.term].log
  }

  // Every term that has a leader was voted in by everybody.
  lemma AllVoted(members: set<NodeId>, h: History, t: nat)
    requires |members| <= 2 && HistoryBasic(members, h) && t in h.leads
    ensures h.leads[t].voters == members
    ensures forall i :: i in members ==> (i, t) in h.votes && h.votes[(i, t)].candidate == h.leads[t].leader
  {
    assert LeadBasic(members, h, t);
    var rest := members - h.leads[t].voters;
    assert members == h.leads[t].voters + rest;
    assert |rest| == 0;
  }

  lemma TermCaughtUp(members: set<NodeId>, h: History, i: NodeId, s: NodeState, t: nat)
    requires |members| <= 2 && HistoryBasic(members, h) && t in h.leads && i in members && VotesKept(h, i, s)
    ensures t <= s.term
  {
    AllVoted(members, h, t);
  }

  lemma LastTermsOrdered(h: History, C: Log, V: Log)
    requires Sane(h, V) && C <= V && C != []
    ensures LastTerm(C) <= LastTerm(V)
  {
    assert NoLater(V, |C| - 1, |V| - 1);
  }

  // Of two comparable logs the one that is up to date is the longer one.
  lemma UpToDateIsLonger(h: History, C: Log, V: Log)
    requires Sane(h, C) && Sane(h, V) && Comparable(C, V) && UpToDate(|C|, LastTerm(C), V)
    ensures V <= C
  {
    if C != [] && C <= V {
      LastTermsOrdered(h, C, V);
    }
  }

  // ---- steps that leave the logs alone -----------------------------------------------------------

  // A vote node i has just given in h' goes to a candidate whose log is at least as long.
  ghost predicate NewVoteFollows(h: History, h': History, i: NodeId, s: NodeState, a: NodeId, o: NodeState) {
    o.role == Candidate && (i, o.term) in h'.votes && (i, o.term) !in h.votes &&
    h'.votes[(i, o.term)].candidate == a ==>
      s.log <= o.log
  }

  // Role and term move on without a new claim to leadership, or a new candidacy begins.
  ghost predicate MovesOn(s: NodeState, s': NodeState) {
    s'.log == s.log && s'.term >= s.term &&
    (s'.role == Follower || (s'.role == s.role && s'.term == s.term) || (s'.role == Candidate && s'.term > s.term))
  }

  // Nobody votes for a candidacy before it begins.
  lemma NoVotesAhead(h: History, i: NodeId, s: NodeState, j: NodeId, term: nat)
    requires VotesKept(h, i, s) && term > s.term && forall v :: v in h.votes ==> BallotBasic(h, v)
    ensures !((j, term) in h.votes && h.votes[(j, term)].candidate == i)
  {
    assert (j, term) in h.votes ==> BallotBasic(h, (j, term));
  }

  lemma FollowsKept(
    members: set<NodeId>, nodes: map<NodeId, NodeState>, h: History, h': History, i: NodeId, s': NodeState,
    a: NodeId, b: NodeId)
    requires nodes.Keys == members && i in members && a in members && b in members
    requires VotesKept(h, i, nodes[i]) && HistoryBasic(members, h)
    requires Follows(h, a, nodes[a], b, nodes[b]) && Extends(h, h', i) && MovesOn(nodes[i], s')
    requires a != i ==> NewVoteFollows(h, h', i, nodes[i], a, nodes[a])
    ensures
      var nodes' := nodes[i := s'];
      Follows(h', a, nodes'[a], b, nodes'[b])
  {
    hide LeadBasic, BallotBasic, GrewBy;
    if a == i && s'.term > nodes[i].term {
      NoVotesAhead(h, i, nodes[i], b, s'.term);
    }
  }

  lemma SameLogsKept(
    members: set<NodeId>, nodes: map<NodeId, NodeState>, h: History, h': History, i: NodeId, s': NodeState)
    requires |members| <= 2 && HistoryBasic(members, h) && PairKept(members, nodes, h) && i in members
    requires VotesKept(h, i, nodes[i]) && MovesOn(nodes[i], s') && Extends(h, h', i) && h'.leads == h.leads
    requires forall a :: a in members && a != i ==> NewVoteFollows(h, h', i, nodes[i], a, nodes[a])
    ensures PairKept(members, nodes[i := s'], h')
  {
    var nodes' := nodes[i := s'];
    hide HistoryBasic, Extends, VotesKept, NewVoteFollows, Follows, WithinTerm;
    forall t | t in h'.leads ensures LeaderKeeps(members, nodes', h', t) { assert LeaderKeeps(members, nodes, h, t); }
    forall a, b | a in members && b in members ensures Comparable(nodes'[a].log, nodes'[b].log) {
      assert Comparable(nodes[a].log, nodes[b].log);
    }
    forall a, b | a in members && b in members ensures Follows(h', a, nodes'[a], b, nodes'[b]) {
      assert Follows(h, a, nodes[a], b, nodes[b]);
      FollowsKept(members, nodes, h, h', i, s', a, b);
    }
    forall a | a in members ensures WithinTerm(h', nodes'[a]) {
      assert WithinTerm(h, nodes[a]);
      WithinTermMoves(members, h, h', a, nodes[a], nodes'[a]) by { assert a != i ==> nodes'[a] == nodes[a]; }
    }
  }

  lemma WithinTermMoves(members: set<NodeId>, h: History, h': History, i: NodeId, s: NodeState, s': NodeState)
    requires |members| <= 2 && HistoryBasic(members, h) && i in members && h'.leads == h.leads
    requires s' == s || (VotesKept(h, i, s) && MovesOn(s, s'))
    requires WithinTerm(h, s)
    ensures WithinTerm(h', s')
  {
    if s' != s && s'.term in h.leads {
      TermCaughtUp(members, h, i, s, s'.term);
    }
  }

  predicate KeepsLogs(a: Action) {
    !a.Win? && !a.Submit? && !a.DeliverAppendRequest?
  }

  lemma OtherActionsMoveOn(members: set<NodeId>, c: Cluster, h: History, a: Action)
    requires Enabled(members, c, a) && KeepsLogs(a)
    ensures MovesOn(c.nodes[a.node], Effect(members, c, a).0) && Record(members, c, h, a).leads == h.leads
  {
    hide HandleAppendEntries, MergeFrom, ScanCommit;
  }

  // A vote is given to the longer log.
  lemma VotesFollow(members: set<NodeId>, c: Cluster, h: History, a: Action, o: NodeId)
    requires Basic(members, c, h) && PairKept(members, c.nodes, h) && Enabled(members, c, a) && KeepsLogs(a)
    requires o in members && o != a.node
    ensures NewVoteFollows(h, Record(members, c, h, a), a.node, c.nodes[a.node], o, c.nodes[o])
  {
    hide HandleAppendEntries, HandleAppendReply, HandleVoteReply, Sane, LeadBasic, BallotBasic, LeaderKeeps, WithinTerm;
    var i, s, other := a.node, c.nodes[a.node], c.nodes[o];
    assert NodeBasic(h, i, s) && NodeBasic(h, o, other) && Comparable(other.log, s.log);
    if a.DeliverVoteRequest? && a.message.src == o && other.role == Candidate && other.term == a.message.term {
      assert MessageBasic(members, h, a.message);
      if HandleRequestVote(s, a.message.term, o, a.message.lastIndex, a.message.lastTerm).1.granted {
        UpToDateIsLonger(h, other.log, s.log);
      }
    }
  }

  lemma OtherStepKept(members: set<NodeId>, c: Cluster, h: History, a: Action)
    requires |members| <= 2 && Basic(members, c, h) && PairKept(members, c.nodes, h)
    requires Enabled(members, c, a) && KeepsLogs(a)
    ensures PairKept(members, Step(members, c, a).nodes, Record(members, c, h, a))
  {
    hide PairKept, Record, Effect, Extends, HistoryBasic, MessageBasic, NewVoteFollows;
    var i := a.node;
    assert NodeBasic(h, i, c.nodes[i]) && HistoryBasic(members, h);
    hide NodeBasic, VotesKept;
    StepKeepsBasic(members, c, h, a);
    OtherActionsMoveOn(members, c, h, a);
    forall o | o in members && o != i
      ensures NewVoteFollows(h, Record(members, c, h, a), i, c.nodes[i], o, c.nodes[o])
    {
      VotesFollow(members, c, h, a, o);
    }
    assert VotesKept(h, i, c.nodes[i]) by { assert NodeBasic(h, i, c.nodes[i]); }
    SameLogsKept(members, c.nodes, h, Record(members, c, h, a), i, Effect(members, c, a).0);
  }

  // ---- a new leader ---------------------------------------------------------------------------------

  // Whoever is not the winner has granted its vote, and so has no more than the winner.
  lemma EveryoneGranted(members: set<NodeId>, c: Cluster, h: History, a: Action, j: NodeId)
    requires |members| <= 2 && Basic(members, c, h) && PairKept(members, c.nodes, h)
    requires Enabled(members, c, a) && a.Win? && j in members
    ensures c.nodes[j].log <= c.nodes[a.node].log
  {
    hide Basic, LeaderKeeps, WithinTerm, Comparable, HandleAppendEntries, HandleAppendReply, HandleRequestVote,
         HandleVoteReply, BecomeLeader, AppendTo, StartElection;
    WinIsFirst(members, c, h, a);
    GrantedFollows(members, c, h, a, j);
  }

  lemma GrantedFollows(members: set<NodeId>, c: Cluster, h: History, a: Action, j: NodeId)
    requires |members| <= 2 && PairKept(members, c.nodes, h) && a.Win? && a.node in members && j in members
    requires c.nodes[a.node].role == Candidate && a.grants <= members && |a.grants + {a.node}| >= 2
    requires forall v :: v in a.grants + {a.node} ==>
      (v, c.nodes[a.node].term) in h.votes && h.votes[(v, c.nodes[a.node].term)].candidate == a.node
    ensures c.nodes[j].log <= c.nodes[a.node].log
  {
    hide LeaderKeeps, WithinTerm, Comparable;
    var voters, rest := a.grants + {a.node}, members - (a.grants + {a.node});
    assert members == voters + rest && |members| == |voters| + |rest|;
    assert rest == {};
    assert Follows(h, a.node, c.nodes[a.node], j, c.nodes[j]);
  }

  lemma LeadingKept(
    members: set<NodeId>, nodes: map<NodeId, NodeState>, h: History, h': History, i: NodeId, s': NodeState, lead: Lead)
    requires PairKept(members, nodes, h) && i in members
    requires s'.log == nodes[i].log && s'.term == nodes[i].term && s'.role == Leader
    requires lead.leader == i && lead.log == s'.log && s'.term !in h.leads
    requires h'.leads == h.leads[s'.term := lead] && h'.votes == h.votes
    requires forall j :: j in members ==> nodes[j].log <= s'.log
    ensures PairKept(members, nodes[i := s'], h')
  {
    hide Comparable, WithinTerm;
    var nodes' := nodes[i := s'];
    forall t | t in h'.leads ensures LeaderKeeps(members, nodes', h', t) {
      assert t in h.leads ==> LeaderKeeps(members, nodes, h, t);
    }
    hide LeaderKeeps;
    forall x, y | x in members && y in members ensures Comparable(nodes'[x].log, nodes'[y].log) {
      assert Comparable(nodes[x].log, nodes[y].log);
    }
    forall x, y | x in members && y in members ensures Follows(h', x, nodes'[x], y, nodes'[y]) {
      assert Follows(h, x, nodes[x], y, nodes[y]);
    }
    hide Follows;
    forall x | x in members ensures WithinTerm(h', nodes'[x]) {
      WithinNewTerm(h, h', nodes[x], nodes'[x], s'.term, lead);
    }
  }

  lemma WithinNewTerm(h: History, h': History, s: NodeState, s': NodeState, term: nat, lead: Lead)
    requires WithinTerm(h, s) && s'.log == s.log && s'.term == s.term && s.log <= lead.log
    requires h'.leads == h.leads[term := lead]
    ensures WithinTerm(h', s')
  {
  }

  lemma WinKept(members: set<NodeId>, c: Cluster, h: History, a: Action)
    requires |members| <= 2 && Basic(members, c, h) && PairKept(members, c.nodes, h)
    requires Enabled(members, c, a) && a.Win?
    ensures PairKept(members, Step(members, c, a).nodes, Record(members, c, h, a))
  {
    hide PairKept, Basic, HandleAppendEntries, HandleAppendReply, HandleRequestVote, HandleVoteReply;
    var i, s := a.node, c.nodes[a.node];
    WinIsFirst(members, c, h, a);
    assert c.nodes.Keys == members by { BasicNodes(members, c, h); }
    forall j | j in members ensures c.nodes[j].log <= s.log {
      EveryoneGranted(members, c, h, a, j);
    }
    LeadingKept(members, c.nodes, h, Record(members, c, h, a), i, Effect(members, c, a).0,
                Lead(i, a.grants + {i}, s.log));
  }

  lemma BasicNodes(members: set<NodeId>, c: Cluster, h: History)
    requires Basic(members, c, h)
    ensures c.nodes.Keys == members && HistoryBasic(members, h)
    ensures forall i :: i in members ==> NodeBasic(h, i, c.nodes[i])
  {
  }

  // ---- a leader's own entry -------------------------------------------------------------------------

  // No two leaders, and no candidate with a leader's vote, at one time.
  lemma LeaderAlone(members: set<NodeId>, c: Cluster, h: History, i: NodeId, j: NodeId)
    requires |members| <= 2 && Basic(members, c, h) && i in members && j in members && i != j
    requires c.nodes[i].role == Leader
    ensures c.nodes[j].role != Leader
    ensures c.nodes[j].role == Candidate ==>
              !((i, c.nodes[j].term) in h.votes && h.votes[(i, c.nodes[j].term)].candidate == j)
  {
    BasicNodes(members, c, h);
    hide Basic, HistoryBasic, Sane, TermsAtMost;
    var s, o := c.nodes[i], c.nodes[j];
    assert NodeBasic(h, i, s) && NodeBasic(h, j, o);
    TermCaughtUp(members, h, j, o, s.term);
    AllVoted(members, h, s.term);
    if o.role == Leader {
      TermCaughtUp(members, h, i, s, o.term);
    }
  }

  // Histories that differ in the log of one leader's term only, which grew.
  ghost predicate LeadsGrow(h: History, h': History, i: NodeId, L: Log) {
    h'.leads.Keys == h.leads.Keys && h'.votes == h.votes &&
    (forall t :: t in h.leads ==> h'.leads[t].leader == h.leads[t].leader && h.leads[t].log <= h'.leads[t].log) &&
    forall t :: t in h.leads && h'.leads[t].log != h.leads[t].log ==> h.leads[t].leader == i && h'.leads[t].log == L
  }

  lemma LeaderKeepsMore(
    members: set<NodeId>, nodes: map<NodeId, NodeState>, h: History, h': History, i: NodeId, s': NodeState, t: nat)
    requires i in nodes && t in h.leads && LeaderKeeps(members, nodes, h, t)
    requires LeadsGrow(h, h', i, s'.log) && nodes[i].log <= s'.log
    ensures LeaderKeeps(members, nodes[i := s'], h', t)
  {
  }

  lemma WithinTermMore(h: History, h': History, i: NodeId, L: Log, s: NodeState)
    requires LeadsGrow(h, h', i, L) && WithinTerm(h, s)
    ensures WithinTerm(h', s)
  {
  }

  lemma SelfFollows(h: History, i: NodeId, s: NodeState)
    ensures Follows(h, i, s, i, s) && Comparable(s.log, s.log)
  {
  }

  lemma SameVotesFollow(h: History, h': History, i: NodeId, s: NodeState, j: NodeId, o: NodeState)
    requires Follows(h, i, s, j, o) && h'.votes == h.votes
    ensures Follows(h', i, s, j, o)
  {
  }

  // Node i's log grows, and with it the log of the term it leads, if it leads one.
  lemma GrowthKept(
    members: set<NodeId>, nodes: map<NodeId, NodeState>, h: History, h': History, i: NodeId, s': NodeState)
    requires PairKept(members, nodes, h) && i in members && nodes[i].log <= s'.log && LeadsGrow(h, h', i, s'.log)
    requires forall j :: j in members && j != i ==>
      Comparable(s'.log, nodes[j].log) && Comparable(nodes[j].log, s'.log) &&
      Follows(h', i, s', j, nodes[j]) && Follows(h', j, nodes[j], i, s')
    requires WithinTerm(h', s')
    ensures PairKept(members, nodes[i := s'], h')
  {
    hide LeaderKeeps, Comparable, Follows, WithinTerm;
    var nodes' := nodes[i := s'];
    SelfFollows(h', i, s');
    forall t | t in h'.leads ensures LeaderKeeps(members, nodes', h', t) {
      LeaderKeepsMore(members, nodes, h, h', i, s', t);
    }
    forall x, y | x in members && y in members
      ensures Comparable(nodes'[x].log, nodes'[y].log) && Follows(h', x, nodes'[x], y, nodes'[y])
    {
      if x != i && y != i {
        SameVotesFollow(h, h', x, nodes[x], y, nodes[y]);
      }
    }
    forall x | x in members ensures WithinTerm(h', nodes'[x]) {
      if x != i {
        WithinTermMore(h, h', i, s'.log, nodes[x]);
      }
    }
  }

  lemma SubmitGrows(members: set<NodeId>, c: Cluster, h: History, a: Action)
    requires Enabled(members, c, a) && a.Submit? && RoleJustified(h, a.node, c.nodes[a.node])
    requires c.nodes[a.node].role == Leader && WithinTerm(h, c.nodes[a.node])
    ensures
      var s, s', h' := c.nodes[a.node], Effect(members, c, a).0, Record(members, c, h, a);
      s.log <= s'.log && s'.role == s.role && s'.term == s.term && LeadsGrow(h, h', a.node, s'.log) &&
      WithinTerm(h', s')
  {
    hide HandleAppendEntries, HandleAppendReply, HandleRequestVote, HandleVoteReply;
  }

  lemma FollowsLonger(h: History, h': History, i: NodeId, s: NodeState, s': NodeState, j: NodeId, o: NodeState)
    requires Follows(h, i, s, j, o) && s.role == Leader && o.role != Leader && s.log <= s'.log && h'.votes == h.votes
    requires s'.role == Leader && s'.term == s.term
    requires o.role == Candidate ==> !((i, o.term) in h.votes && h.votes[(i, o.term)].candidate == j)
    ensures Follows(h', i, s', j, o) && Follows(h', j, o, i, s')
    ensures Comparable(s'.log, o.log) && Comparable(o.log, s'.log)
  {
  }

  lemma SubmitKept(members: set<NodeId>, c: Cluster, h: History, a: Action)
    requires |members| <= 2 && Basic(members, c, h) && PairKept(members, c.nodes, h)
    requires Enabled(members, c, a) && a.Submit?
    ensures PairKept(members, Step(members, c, a).nodes, Record(members, c, h, a))
  {
    hide HandleAppendEntries, HandleAppendReply, HandleRequestVote, HandleVoteReply, Basic;
    BasicNodes(members, c, h);
    var i, s := a.node, c.nodes[a.node];
    if s.role != Leader {
      assert Effect(members, c, a).0 == s && c.nodes[i := s] == c.nodes;
    } else {
      var s', h' := Effect(members, c, a).0, Record(members, c, h, a);
      assert NodeBasic(h, i, s) && WithinTerm(h, s);
      hide HistoryBasic, Effect, Record, Follows, Comparable, LeaderKeeps, WithinTerm, LeadsGrow, RoleJustified;
      SubmitGrows(members, c, h, a);
      forall j | j in members && j != i
        ensures Follows(h', i, s', j, c.nodes[j]) && Follows(h', j, c.nodes[j], i, s')
        ensures Comparable(s'.log, c.nodes[j].log) && Comparable(c.nodes[j].log, s'.log)
      {
        LeaderAlone(members, c, h, i, j);
        assert h'.votes == h.votes by { SubmitVotes(members, c, h, a); }
        FollowsLonger(h, h', i, s, s', j, c.nodes[j]);
      }
      hide PairKept;
      GrowthKept(members, c.nodes, h, h', i, s');
    }
  }

  lemma SubmitVotes(members: set<NodeId>, c: Cluster, h: History, a: Action)
    requires Enabled(members, c, a) && a.Submit?
    ensures Record(members, c, h, a).votes == h.votes
  {
  }

  // ---- a request arrives ----------------------------------------------------------------------------

  lemma TermAtShared(L: Log, G: Log, n: nat)
    requires L <= G && 1 <= n <= |L|
    ensures TermAt(L, n) == TermAt(G, n)
  {
  }

  // Between two starts of the leader's log a request leaves the longer one.
  lemma OutcomeGrows(L: Log, G: Log, m: Message, L': Log, success: bool)
    requires m.AppendRequest? && L <= G && m.prevTerm == TermAt(G, m.prev)
    requires AppendOutcome(L, Shown(G, m), m, L', success)
    ensures L <= L' <= G
  {
    if 1 <= m.prev <= |L| {
      TermAtShared(L, G, m.prev);
    }
  }

  // A request that is not refused for its term comes from the other node, leader of the follower's own
  // term, and only lengthens the follower's log.
  lemma PairAppend(members: set<NodeId>, h: History, i: NodeId, s: NodeState, m: Message)
    requires |members| <= 2 && HistoryBasic(members, h) && NodeBasic(h, i, s) && WithinTerm(h, s) && i in members
    requires m.AppendRequest? && m.dst == i && m.term >= s.term
    requires MessageBasic(members, h, m) && MessageCommit(members, h, m)
    ensures
      var s' := HandleAppendEntries(s, m.term, m.src, m.prev, m.prevTerm, m.entries, m.commit).0;
      m.term == s.term == s'.term && s'.role == Follower && s.log <= s'.log <= h.leads[m.term].log
  {
    hide MergeFrom, Sane, TermsAtMost, LeadBasic, BallotBasic, CommitJustified, CarriesLog;
    var (s', reply) := HandleAppendEntries(s, m.term, m.src, m.prev, m.prevTerm, m.entries, m.commit);
    TermCaughtUp(members, h, i, s, m.term);
    AllVoted(members, h, m.term);
    AppendMeaning(members, h, s, m);
    hide AppendOutcome, Shown;
    OutcomeGrows(s.log, h.leads[m.term].log, m, s'.log, reply.success);
  }

  // As written or as meant, the answer of a pair claims no stale tail.
  lemma PairAnswersHonestly(members: set<NodeId>, c: Cluster, h: History, a: Action)
    requires |members| <= 2 && Basic(members, c, h) && Committed(members, c, h) && PairKept(members, c.nodes, h)
    requires Enabled(members, c, a)
    ensures HonestAnswer(c, a)
  {
    if a.DeliverAppendRequest? && AnswerTo(c.nodes[a.node], a.message, AsWritten).success {
      hide HistoryBasic, NodeBasic, HandleAppendEntries, StaleTail, Comparable, Follows, LeaderKeeps, WithinTerm,
           NodeCommit, HistoryCommit;
      var i, s, m := a.node, c.nodes[a.node], a.message;
      assert NodeBasic(h, i, s) && WithinTerm(h, s) && MessageBasic(members, h, m) && MessageCommit(members, h, m);
      hide Basic, Committed, PairKept, MessageCommit;
      AppendFields(s, m);
      PairAppend(members, h, i, s, m);
      WholeLogHonestIff(members, h, i, s, m);
    }
  }

  lemma FollowsBoth(h: History, i: NodeId, s: NodeState, j: NodeId, o: NodeState)
    requires s.role == Follower && s.log <= o.log
    ensures Follows(h, i, s, j, o) && Follows(h, j, o, i, s) && Comparable(s.log, o.log) && Comparable(o.log, s.log)
  {
  }

  lemma OnlyTwo(members: set<NodeId>, i: NodeId, j: NodeId, k: NodeId)
    requires |members| <= 2 && i in members && j in members && k in members && i != j && i != k
    ensures j == k
  {
    var rest := members - {i, j};
    assert members == {i, j} + rest;
    assert |rest| == 0;
    assert k !in rest;
  }

  lemma AppendKept(members: set<NodeId>, c: Cluster, h: History, a: Action)
    requires |members| <= 2 && Basic(members, c, h) && Committed(members, c, h) && PairKept(members, c.nodes, h)
    requires Enabled(members, c, a) && a.DeliverAppendRequest?
    ensures PairKept(members, Step(members, c, a).nodes, Record(members, c, h, a))
  {
    hide HistoryBasic, NodeBasic, HandleAppendEntries, Comparable, Follows, WithinTerm, NodeCommit, HistoryCommit,
         AnswerTo;
    var i, s, m, h' := a.node, c.nodes[a.node], a.message, Record(members, c, h, a);
    var s' := HandleAppendEntries(s, m.term, m.src, m.prev, m.prevTerm, m.entries, m.commit).0;
    assert NodeBasic(h, i, s) && WithinTerm(h, s) && MessageBasic(members, h, m) && MessageCommit(members, h, m);
    assert h'.leads == h.leads && h'.votes == h.votes && Effect(members, c, a).0 == s';
    hide Basic, Committed, MessageCommit, Record, Effect;
    AppendFields(s, m);
    if m.term < s.term {
      assert c.nodes[i := s'] == c.nodes;
      SameHistoryKept(members, c.nodes, h, h');
    } else {
      PairAppend(members, h, i, s, m);
      AllVoted(members, h, m.term) by { assert HistoryBasic(members, h) by { BasicNodes(members, c, h); } }
      var l, G := m.src, h.leads[m.term].log;
      assert l in members by { assert LeaderKeeps(members, c.nodes, h, m.term); }
      assert G <= c.nodes[l].log by { assert LeaderKeeps(members, c.nodes, h, m.term); }
      forall j | j in members && j != i
        ensures Comparable(s'.log, c.nodes[j].log) && Comparable(c.nodes[j].log, s'.log)
        ensures Follows(h', i, s', j, c.nodes[j]) && Follows(h', j, c.nodes[j], i, s')
      {
        OnlyTwo(members, i, j, l);
        FollowsBoth(h', i, s', j, c.nodes[j]);
      }
      assert WithinTerm(h', s') by { WithinItsTerm(h', s', m.term); }
      hide LeaderKeeps;
      GrowthKept(members, c.nodes, h, h', i, s');
    }
  }

  lemma WithinItsTerm(h: History, s: NodeState, t: nat)
    requires t in h.leads && s.term == t && s.log <= h.leads[t].log
    ensures WithinTerm(h, s)
  {
  }

  lemma SameHistoryKept(members: set<NodeId>, nodes: map<NodeId, NodeState>, h: History, h': History)
    requires PairKept(members, nodes, h) && h'.leads == h.leads && h'.votes == h.votes
    ensures PairKept(members, nodes, h')
  {
    hide Comparable;
    forall t | t in h'.leads ensures LeaderKeeps(members, nodes, h', t) { assert LeaderKeeps(members, nodes, h, t); }
    forall x, y | x in members && y in members ensures Follows(h', x, nodes[x], y, nodes[y]) {
      assert Follows(h, x, nodes[x], y, nodes[y]);
    }
    forall x | x in members ensures WithinTerm(h', nodes[x]) { assert WithinTerm(h, nodes[x]); }
  }

  // ---- every run ------------------------------------------------------------------------------------

  lemma PairStepKept(members: set<NodeId>, c: Cluster, h: History, a: Action)
    requires |members| <= 2 && Basic(members, c, h) && Committed(members, c, h) && PairKept(members, c.nodes, h)
    requires Enabled(members, c, a)
    ensures PairKept(members, Step(members, c, a).nodes, Record(members, c, h, a))
  {
    hide Basic, Committed, PairKept, Step, Record, Enabled;
    if a.Win? {
      WinKept(members, c, h, a);
    } else if a.Submit? {
      SubmitKept(members, c, h, a);
    } else if a.DeliverAppendRequest? {
      AppendKept(members, c, h, a);
    } else {
      OtherStepKept(members, c, h, a);
    }
  }

  lemma PairBegins(members: set<NodeId>, c: Cluster)
    requires Initial(members, c)
    ensures PairKept(members, c.nodes, EMPTY_HISTORY)
  {
  }

  lemma {:induction false} PairRunKept(members: set<NodeId>, run: seq<Cluster>, actions: seq<Action>, n: nat)
    requires |members| <= 2 && IsRun(members, run, actions) && n <= |actions|
    ensures
      var h := HistoryOf(members, run, actions, n);
      Basic(members, run[n], h) && Committed(members, run[n], h) && PairKept(members, run[n].nodes, h)
    ensures forall k :: 0 <= k < n ==> HonestAnswer(run[k], actions[k])
  {
    hide Basic, Committed, PairKept, Effect, Record, Step, Enabled, HonestAnswer;
    RunIsBasic(members, run, actions, n);
    if n == 0 {
      BeginsCommitted(members, run[0]);
      PairBegins(members, run[0]);
    } else {
      PairRunKept(members, run, actions, n - 1);
      var h := HistoryOf(members, run, actions, n - 1);
      PairAnswersHonestly(members, run[n - 1], h, actions[n - 1]);
      StepKeepsCommitted(members, run[n - 1], h, actions[n - 1]);
      PairStepKept(members, run[n - 1], h, actions[n - 1]);
    }
  }

  // Every run of at most two nodes is sound, whichever code it runs.
  lemma PairsAreSound(members: set<NodeId>, run: seq<Cluster>, actions: seq<Action>)
    requires |members| <= 2 && IsRun(members, run, actions)
    ensures SoundRun(members, run, actions)
  {
    hide Basic, Committed, PairKept, HistoryOf, HonestAnswer;
    PairRunKept(members, run, actions, |actions|);
  }
}
