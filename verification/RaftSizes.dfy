/**
 * What the cluster size has to do with safety, for the code as written and as it is meant: for every
 * size either all runs are safe or one is shown that is not.
 */
module RaftSizes {
  import opened RaftProtocol
  import opened RaftCluster
  import opened RaftHistory
  import opened RaftQuorums
  import opened RaftElection
  import opened RaftCommit
  import opened RaftTheorems
  import opened RaftReplies
  import opened RaftPairs
  import opened RaftCounterexamples

  // ---- what safety means for a cluster --------------------------------------------------------------

  ghost predicate OneLeaderPerTerm(members: set<NodeId>) {
    forall run: seq<Cluster>, actions: seq<Action>, k: nat, k': nat, i: NodeId, j: NodeId, t: nat ::
      IsRun(members, run, actions) && k <= k' && LeadsAt(run, k, i, t) && LeadsAt(run, k', j, t) ==> i == j
  }

  ghost predicate AppliedAt(run: seq<Cluster>, k: nat, i: NodeId, r: Applied) {
    k < |run| && i in run[k].nodes && r in run[k].nodes[i].applied
  }

  // No two nodes of any run of this code, at any two moments, apply different entries at one index.
  ghost predicate OneEntryPerIndex(code: Code, members: set<NodeId>) {
    forall run: seq<Cluster>, actions: seq<Action>, k: nat, k': nat, i: NodeId, j: NodeId, r: Applied, r': Applied ::
      RunOf(code, members, run, actions) && k <= k' && AppliedAt(run, k, i, r) && AppliedAt(run, k', j, r') ==>
        r.index == r'.index ==> r.entry == r'.entry
  }

  // Every node of every run of this code has applied a gap-free prefix of its log at every moment.
  ghost predicate AlwaysInOrder(code: Code, members: set<NodeId>) {
    forall run: seq<Cluster>, actions: seq<Action>, k: nat, i: NodeId ::
      RunOf(code, members, run, actions) && k < |run| && i in run[k].nodes ==> InOrder(run[k].nodes[i])
  }

  // ---- clusters of even size ------------------------------------------------------------------------

  lemma FreshStart(code: Code, n: nat) returns (run: seq<Cluster>, actions: seq<Action>)
    ensures At(code, Take(n, 0), run, actions)
    ensures forall p :: 0 <= p < n ==> Last(run).nodes[p] == INITIAL_NODE
  {
    run, actions := Start(code, Take(n, 0));
  }

  lemma NewLeader(s: NodeState, i: NodeId, peers: set<NodeId>)
    requires s.log == [] && s.commitIndex == 0 && i !in peers
    ensures
      var s' := BecomeLeader(StartElection(s, i), i, peers);
      Elected(s', i, peers) && s'.term == s.term + 1 && SamePass(s', s)
  {
  }

  lemma InitialIsFresh()
    ensures Fresh(INITIAL_NODE) && INITIAL_NODE.term == 0
  {
  }

  lemma OthersSameTwice(n: nat, a: Cluster, b: Cluster, c: Cluster, i: NodeId, lo: nat, hi: nat)
    requires OthersSame(n, a, b, i, lo, hi) && (OthersSame(n, b, c, i, lo, hi) || OthersSame(n, b, c, i, i, i))
    ensures OthersSame(n, a, c, i, lo, hi)
  {
  }

  // A fresh node is elected by the nodes lo to hi - 1.
  lemma LeadFresh(code: Code, n: nat, run: seq<Cluster>, actions: seq<Action>, i: NodeId, lo: nat, hi: nat)
    returns (run': seq<Cluster>, actions': seq<Action>)
    requires At(code, Take(n, 0), run, actions) && i < n && lo < hi <= n && !(lo <= i < hi)
    requires hi - lo + 1 >= Quorum(n) && Fresh(Last(run).nodes[i])
    requires Willing(Last(run).nodes, lo, hi, Last(run).nodes[i].term + 1)
    ensures At(code, Take(n, 0), run', actions') && OthersSame(n, Last(run), Last(run'), i, lo, hi)
    ensures
      var s, s' := Last(run).nodes[i], Last(run').nodes[i];
      Elected(s', i, Take(n, 0) - {i}) && s'.term == s.term + 1 && SamePass(s', s) &&
      Settled(Last(run').nodes, lo, hi, s'.term)
  {
    hide RunOf, Take, BecomeLeader, StartElection, Willing, Settled, OthersSame, Elected;
    NewLeader(Last(run).nodes[i], i, Take(n, 0) - {i});
    run', actions' := Elect(code, n, run, actions, i, lo, hi);
  }

  lemma OneChanged(n: nat, a: Cluster, b: Cluster, i: NodeId, lo: nat, hi: nat, term: nat)
    requires i in a.nodes && i in b.nodes && a.messages <= b.messages && b.nodes == a.nodes[i := b.nodes[i]]
    requires Empty(a.nodes, lo, hi, term) && !(lo <= i < hi)
    ensures OthersSame(n, a, b, i, lo, hi) && Empty(b.nodes, lo, hi, term)
  {
  }

  // A leader with an empty log takes a command and gets it to the nodes lo to hi - 1.
  lemma SubmitAndShare(
    code: Code, n: nat, run: seq<Cluster>, actions: seq<Action>, i: NodeId, lo: nat, hi: nat, command: string)
    returns (run': seq<Cluster>, actions': seq<Action>)
    requires At(code, Take(n, 0), run, actions) && i < n && lo <= hi <= n && !(lo <= i < hi)
    requires Elected(Last(run).nodes[i], i, Take(n, 0) - {i})
    requires Empty(Last(run).nodes, lo, hi, Last(run).nodes[i].term)
    ensures At(code, Take(n, 0), run', actions') && OthersSame(n, Last(run), Last(run'), i, lo, hi)
    ensures
      var s := Last(run).nodes[i];
      Sharing(Last(run').nodes[i], s, i, lo, hi, hi, LogEntry(s.term, 1, command), Quorum(n))
  {
    hide RunOf, Elected, Propose, Sharing, Empty, OthersSame;
    var s := Last(run).nodes[i];
    SharingBegins(s, i, Take(n, 0) - {i}, lo, hi, command, Quorum(n));
    hide Take;
    var run1, actions1 := DoSubmit(code, Take(n, 0), run, actions, i, command);
    OneChanged(n, Last(run), Last(run1), i, lo, hi, s.term);
    run', actions' := ShareOut(code, n, run1, actions1, s, i, lo, lo, hi, LogEntry(s.term, 1, command));
    OthersSameTwice(n, Last(run), Last(run1), Last(run'), i, lo, hi);
  }

  lemma SettledIsEmpty(nodes: map<NodeId, NodeState>, lo: nat, hi: nat, term: nat)
    requires Settled(nodes, lo, hi, term)
    ensures Empty(nodes, lo, hi, term)
  {
  }

  // A fresh node is elected by a quorum, gets an entry to it and applies it.
  lemma LeadAndShare(
    code: Code, n: nat, run: seq<Cluster>, actions: seq<Action>, i: NodeId, lo: nat, hi: nat, command: string)
    returns (run': seq<Cluster>, actions': seq<Action>)
    requires At(code, Take(n, 0), run, actions) && i < n && lo < hi <= n && !(lo <= i < hi)
    requires hi - lo + 1 >= Quorum(n) && Fresh(Last(run).nodes[i])
    requires Willing(Last(run).nodes, lo, hi, Last(run).nodes[i].term + 1)
    ensures At(code, Take(n, 0), run', actions') && OthersSame(n, Last(run), Last(run'), i, lo, hi)
    ensures
      var term := Last(run).nodes[i].term + 1;
      var s', e := Last(run').nodes[i], LogEntry(term, 1, command);
      Applied(1, e) in s'.applied && s'.log == [e] && s'.term == term
  {
    hide RunOf, Take, Willing, Settled, OthersSame, Elected, Sharing, Empty, Fresh, SamePass;
    var s := Last(run).nodes[i];
    var e := LogEntry(s.term + 1, 1, command);
    var run1, actions1 := LeadFresh(code, n, run, actions, i, lo, hi);
    SettledIsEmpty(Last(run1).nodes, lo, hi, s.term + 1);
    var run2, actions2 := SubmitAndShare(code, n, run1, actions1, i, lo, hi, command);
    OthersSameTwice(n, Last(run), Last(run1), Last(run2), i, lo, hi);
    SharedReady(Last(run2).nodes[i], s, Last(run1).nodes[i], i, lo, hi, e, Quorum(n));
    run', actions' := ApplyFirst(code, n, run2, actions2, i, e);
    OthersSameTwice(n, Last(run), Last(run2), Last(run'), i, lo, hi);
  }

  lemma SharedReady(s: NodeState, first: NodeState, o: NodeState, i: NodeId, lo: nat, hi: nat, e: LogEntry, quorum: nat)
    requires Sharing(s, o, i, lo, hi, hi, e, quorum) && lo < hi && hi - lo + 1 >= quorum
    requires SamePass(o, first) && Fresh(first)
    ensures s.loop == Idle && s.lastApplied == 0 && s.commitIndex == 1 && s.log == [e] && s.term == e.term
  {
  }

  lemma AllFresh(c: Cluster, n: nat, lo: nat, hi: nat)
    requires c.nodes.Keys == Take(n, 0) && hi <= n && forall p :: lo <= p < hi ==> c.nodes[p] == INITIAL_NODE
    ensures Willing(c.nodes, lo, hi, 1)
  {
    InitialIsFresh();
    hide Fresh;
  }

  // Half the cluster elects one leader of term 1 and applies its entry, the other half another's.
  lemma TwoHistories(code: Code, n: nat) returns (run: seq<Cluster>, actions: seq<Action>)
    requires n >= 4 && n % 2 == 0
    ensures At(code, Take(n, 0), run, actions) && n / 2 in Last(run).nodes && 0 in Last(run).nodes
    ensures Applied(1, LogEntry(1, 1, "x")) in Last(run).nodes[0].applied
    ensures Applied(1, LogEntry(1, 1, "y")) in Last(run).nodes[n / 2].applied
  {
    hide RunOf, Fresh, Willing;
    InitialIsFresh();
    var run0, actions0 := FreshStart(code, n);
    AllFresh(Last(run0), n, 1, n / 2);
    var run1, actions1 := LeadAndShare(code, n, run0, actions0, 0, 1, n / 2, "x");
    AllFresh(Last(run1), n, n / 2 + 1, n);
    run, actions := LeadAndShare(code, n, run1, actions1, n / 2, n / 2 + 1, n, "y");
  }

  // Half the cluster elects one leader of term 1, the other half another.
  lemma TwoLeaders(code: Code, n: nat) returns (run: seq<Cluster>, actions: seq<Action>)
    requires n >= 4 && n % 2 == 0
    ensures At(code, Take(n, 0), run, actions)
    ensures LeadsAt(run, |run| - 1, 0, 1) && LeadsAt(run, |run| - 1, n / 2, 1)
  {
    hide RunOf, Fresh, Willing, SamePass;
    InitialIsFresh();
    var run0, actions0 := FreshStart(code, n);
    AllFresh(Last(run0), n, 1, n / 2);
    var run1, actions1 := LeadFresh(code, n, run0, actions0, 0, 1, n / 2);
    AllFresh(Last(run1), n, n / 2 + 1, n);
    run, actions := LeadFresh(code, n, run1, actions1, n / 2, n / 2 + 1, n);
  }

  // Election safety holds in all runs exactly of the clusters of odd size and of at most two nodes.
  lemma ElectionSafetyIffSize(n: nat)
    ensures OneLeaderPerTerm(Take(n, 0)) <==> ElectionSize(n)
  {
    hide IsRun, Take;
    if ElectionSize(n) {
      forall run: seq<Cluster>, actions: seq<Action>, k: nat, k': nat, i: NodeId, j: NodeId, t: nat |
        IsRun(Take(n, 0), run, actions) && k <= k' && LeadsAt(run, k, i, t) && LeadsAt(run, k', j, t)
        ensures i == j
      {
        ElectionSafety(Take(n, 0), run, actions, k, k', i, j, t);
      }
    } else {
      var run, actions := TwoLeaders(AsMeant, n);
      hide LeadsAt;
    }
  }

  // State machine safety of the code as it is meant holds in all runs exactly of the same clusters.
  lemma RepairedSafetyIffSize(n: nat)
    ensures OneEntryPerIndex(AsMeant, Take(n, 0)) <==> ElectionSize(n)
  {
    hide IsRun, Take, AllRun;
    if ElectionSize(n) {
      forall run: seq<Cluster>, actions: seq<Action>, k: nat, k': nat, i: NodeId, j: NodeId, r: Applied, r': Applied |
        RunOf(AsMeant, Take(n, 0), run, actions) && k <= k' && AppliedAt(run, k, i, r) && AppliedAt(run, k', j, r') &&
        r.index == r'.index
        ensures r.entry == r'.entry
      {
        RunLength(Take(n, 0), run, actions);
        RepairedSafety(Take(n, 0), run, actions, k, k', i, j, r, r');
      }
    } else {
      TwoHistoriesDiffer(AsMeant, n);
    }
  }

  lemma RunLength(members: set<NodeId>, run: seq<Cluster>, actions: seq<Action>)
    requires IsRun(members, run, actions)
    ensures |run| == |actions| + 1
  {
  }

  lemma TwoHistoriesDiffer(code: Code, n: nat)
    requires n >= 4 && n % 2 == 0
    ensures !OneEntryPerIndex(code, Take(n, 0))
  {
    hide RunOf, Take;
    var run, actions := TwoHistories(code, n);
    var last := |run| - 1;
    assert AppliedAt(run, last, 0, Applied(1, LogEntry(1, 1, "x")));
    assert AppliedAt(run, last, n / 2, Applied(1, LogEntry(1, 1, "y")));
    assert "x"[0] != "y"[0];
  }

  // ---- clusters of odd size, as written ---------------------------------------------------------------

  // With quorum q: node 0 leads term 1 and keeps an entry to itself; node q - 1 leads term 2, elected by
  // the last q - 1 nodes, and finds that entry where its own should go.

  const STALE := LogEntry(1, 1, "x")

  // Node 0 while its entry is in its log.
  predicate Holding(s: NodeState, term: nat) {
    s.log == [STALE] && s.term == term && s.commitIndex == 0 && SamePass(s, INITIAL_NODE) &&
    (term > 1 ==> s.role == Follower)
  }

  ghost predicate TwoTerms(n: nat, q: nat, c: Cluster) {
    n == 2 * q - 1 && q >= 2 && c.nodes.Keys == Take(n, 0) &&
    Settled(c.nodes, 1, q - 1, 1) && Settled(c.nodes, q, n, 2) &&
    c.nodes[q - 1].term == 2 && Elected(c.nodes[q - 1], q - 1, Take(n, 0) - {q - 1}) &&
    SamePass(c.nodes[q - 1], INITIAL_NODE)
  }

  lemma FirstLeader(n: nat, q: nat) returns (run: seq<Cluster>, actions: seq<Action>)
    requires n == 2 * q - 1 && q >= 2
    ensures At(AsWritten, Take(n, 0), run, actions) && Holding(Last(run).nodes[0], 1)
    ensures Settled(Last(run).nodes, 1, q, 1) && Willing(Last(run).nodes, q, n, 2)
  {
    hide RunOf, Take, Elected, Propose;
    var run0, actions0 := FreshStart(AsWritten, n);
    InitialIsFresh();
    AllFresh(Last(run0), n, 1, n);
    hide Fresh;
    var run1, actions1 := LeadFresh(AsWritten, n, run0, actions0, 0, 1, q);
    HoldingBegins(Last(run1).nodes[0], Take(n, 0) - {0});
    run, actions := DoSubmit(AsWritten, Take(n, 0), run1, actions1, 0, "x");
  }

  lemma HoldingBegins(s: NodeState, peers: set<NodeId>)
    requires Elected(s, 0, peers) && s.term == 1 && SamePass(s, INITIAL_NODE)
    ensures Holding(Propose(s, 0, "x").0, 1)
  {
    assert [] + [STALE] == [STALE];
  }

  lemma SecondLeader(n: nat, q: nat) returns (run: seq<Cluster>, actions: seq<Action>)
    requires n == 2 * q - 1 && q >= 2
    ensures At(AsWritten, Take(n, 0), run, actions) && TwoTerms(n, q, Last(run)) && Holding(Last(run).nodes[0], 1)
  {
    hide RunOf, Take, Elected, Fresh, Holding;
    var run0, actions0 := FirstLeader(n, q);
    assert SamePass(Last(run0).nodes[q - 1], INITIAL_NODE) by { FreshPass(Last(run0).nodes[q - 1]); }
    run, actions := LeadFresh(AsWritten, n, run0, actions0, q - 1, q, n);
  }

  lemma FreshPass(s: NodeState)
    requires Fresh(s)
    ensures SamePass(s, INITIAL_NODE)
  {
  }

  // A heartbeat of term 2 finds the entry of term 1, and the answer claims it.
  lemma StaleAnswered(s: NodeState, b: NodeId)
    requires Holding(s, 1)
    ensures
      var m := AppendRequest(b, 0, 2, 0, 0, [], 0);
      Holding(HandleAppendEntries(s, m.term, m.src, m.prev, m.prevTerm, m.entries, m.commit).0, 2) &&
      AnswerTo(s, m, AsWritten) == AppendReply(2, true, 1)
  {
  }

  lemma HeartbeatSent(s: NodeState, b: NodeId, peers: set<NodeId>)
    requires Elected(s, b, peers) && 0 in peers && s.term == 2
    ensures AppendTo(s, b, 0, s.commitIndex) == AppendRequest(b, 0, 2, 0, 0, [], 0)
  {
  }

  lemma Misleads(n: nat, q: nat) returns (run: seq<Cluster>, actions: seq<Action>)
    requires n == 2 * q - 1 && q >= 2
    ensures At(AsWritten, Take(n, 0), run, actions) && TwoTerms(n, q, Last(run)) && Holding(Last(run).nodes[0], 2)
    ensures AppendAnswer(0, q - 1, 2, AppendReply(2, true, 1)) in Last(run).messages
  {
    hide RunOf, Take, Elected, Fresh, Holding, SamePass, HandleAppendEntries, AnswerTo, AppendTo;
    var members := Take(n, 0);
    run, actions := SecondLeader(n, q);
    HeartbeatSent(Last(run).nodes[q - 1], q - 1, members - {q - 1});
    StaleAnswered(Last(run).nodes[0], q - 1);
    assert Last(run).nodes[q - 1].role == Leader by { ElectedLeads(Last(run).nodes[q - 1], q - 1, members - {q - 1}); }
    run, actions := DoReplicate(AsWritten, members, run, actions, q - 1, 0);
    run, actions := DoAppend(AsWritten, members, run, actions, 0, AppendRequest(q - 1, 0, 2, 0, 0, [], 0));
  }

  lemma ElectedLeads(s: NodeState, i: NodeId, peers: set<NodeId>)
    requires Elected(s, i, peers)
    ensures s.role == Leader
  {
  }

  // The second leader's entry, honestly taken by q - 2 nodes, and with the false claim counted.
  lemma FalseCount(s: NodeState, o: NodeState, q: nat, e: LogEntry)
    requires q >= 2 && e.term == 2 && Sharing(s, o, q - 1, 1, q - 1, q - 1, e, q) && SamePass(o, INITIAL_NODE)
    ensures
      var s' := HandleAppendReply(s, q - 1, 0, 2, AppendReply(2, true, 1), q);
      s'.role == Leader && s'.term == 2 && s'.log == [e] && SamePass(s', INITIAL_NODE) && s'.commitIndex == 1 &&
      NextIndex(s', 0) == 2
  {
    var counted := Take(q - 2, 1) + {q - 1} + {0};
    assert |Take(q - 2, 1) + {q - 1}| == q - 1;
    assert |counted| == q;
    hide Take;
    AnswerCounts(s, q - 1, 0, counted, q);
    hide HandleAppendReply;
  }

  // Node q - 1 has applied an entry of term 2 that most of the cluster does not have.
  ghost predicate FalselyApplied(n: nat, q: nat, c: Cluster) {
    n == 2 * q - 1 && q >= 2 && c.nodes.Keys == Take(n, 0) && Settled(c.nodes, q, n, 2) &&
    Holding(c.nodes[0], 2) && Applied(1, LogEntry(2, 1, "y")) in c.nodes[q - 1].applied &&
    c.nodes[q - 1].role == Leader && c.nodes[q - 1].term == 2 && c.nodes[q - 1].log == [LogEntry(2, 1, "y")] &&
    c.nodes[q - 1].commitIndex == 1 && NextIndex(c.nodes[q - 1], 0) == 2
  }

  lemma CommitsFalsely(n: nat, q: nat) returns (run: seq<Cluster>, actions: seq<Action>)
    requires n == 2 * q - 1 && q >= 2
    ensures At(AsWritten, Take(n, 0), run, actions) && FalselyApplied(n, q, Last(run))
  {
    hide RunOf, Take, Elected, Fresh, Holding, Sharing, HandleAppendReply;
    var members, b, e := Take(n, 0), q - 1, LogEntry(2, 1, "y");
    var run0, actions0 := Misleads(n, q);
    var o := Last(run0).nodes[b];
    assert Empty(Last(run0).nodes, 1, q - 1, 2) by { EarlierIsEmpty(Last(run0).nodes, 1, q - 1); }
    var run1, actions1 := SubmitAndShare(AsWritten, n, run0, actions0, b, 1, q - 1, "y");
    hide Empty;
    assert Last(run1).nodes[0] == Last(run0).nodes[0] && Settled(Last(run1).nodes, q, n, 2);
    FalseCount(Last(run1).nodes[b], o, q, e);
    SharingLeads(Last(run1).nodes[b], o, b, 1, q - 1, q - 1, e, Quorum(n));
    var run2, actions2 :=
      DoAnswer(AsWritten, members, run1, actions1, b, AppendAnswer(0, b, 2, AppendReply(2, true, 1)));
    assert Settled(Last(run2).nodes, q, n, 2);
    run, actions := ApplyFirst(AsWritten, n, run2, actions2, b, e);
  }

  lemma EarlierIsEmpty(nodes: map<NodeId, NodeState>, lo: nat, hi: nat)
    requires Settled(nodes, lo, hi, 1)
    ensures Empty(nodes, lo, hi, 2)
  {
  }

  // The second leader's next request makes node 0 give up its entry.
  lemma CutBack(s: NodeState, b: NodeId)
    requires Holding(s, 2)
    ensures
      var s' := HandleAppendEntries(s, 2, b, 1, 2, [], 1).0;
      Fresh(s') && s'.term == 2
  {
    assert [STALE][..0] == [];
  }

  lemma NextSent(s: NodeState, b: NodeId, e: LogEntry)
    requires s.log == [e] && e.term == s.term == 2 && s.commitIndex == 1 && NextIndex(s, 0) == 2
    ensures AppendTo(s, b, 0, s.commitIndex) == AppendRequest(b, 0, 2, 1, 2, [], 1)
  {
  }

  // Node 0, its log empty again, is elected by the last q - 1 nodes, who hold nothing, and applies an
  // entry of its own.
  lemma OddHistories(n: nat) returns (run: seq<Cluster>, actions: seq<Action>, b: NodeId)
    requires n >= 3 && n % 2 == 1
    ensures At(AsWritten, Take(n, 0), run, actions) && 0 in Last(run).nodes && b in Last(run).nodes
    ensures Applied(1, LogEntry(3, 1, "z")) in Last(run).nodes[0].applied
    ensures Applied(1, LogEntry(2, 1, "y")) in Last(run).nodes[b].applied
  {
    hide RunOf, Take, Fresh, Holding, HandleAppendEntries, AppendTo;
    var members, q, e := Take(n, 0), Quorum(n), LogEntry(2, 1, "y");
    b := q - 1;
    var run0, actions0 := CommitsFalsely(n, q);
    NextSent(Last(run0).nodes[b], b, e);
    CutBack(Last(run0).nodes[0], b);
    var run1, actions1 := DoReplicate(AsWritten, members, run0, actions0, b, 0);
    var run2, actions2 := DoAppend(AsWritten, members, run1, actions1, 0, AppendRequest(b, 0, 2, 1, 2, [], 1));
    assert Willing(Last(run2).nodes, q, n, 3) by { SettledIsWilling(Last(run2).nodes, q, n, 2); }
    hide Willing, Settled;
    run, actions := LeadAndShare(AsWritten, n, run2, actions2, 0, q, n, "z");
  }

  lemma SettledIsWilling(nodes: map<NodeId, NodeState>, lo: nat, hi: nat, term: nat)
    requires Settled(nodes, lo, hi, term)
    ensures Willing(nodes, lo, hi, term + 1)
  {
  }

  lemma OddHistoriesDiffer(n: nat)
    requires n >= 3 && n % 2 == 1
    ensures !OneEntryPerIndex(AsWritten, Take(n, 0))
  {
    hide RunOf, Take;
    var run, actions, b := OddHistories(n);
    var last := |run| - 1;
    assert AppliedAt(run, last, 0, Applied(1, LogEntry(3, 1, "z")));
    assert AppliedAt(run, last, b, Applied(1, LogEntry(2, 1, "y")));
  }

  // As written, state machine safety holds in all runs exactly of the clusters of at most two nodes.
  lemma WrittenSafetyIffSize(n: nat)
    ensures OneEntryPerIndex(AsWritten, Take(n, 0)) <==> n <= 2
  {
    hide IsRun, Take, AllRun;
    if n <= 2 {
      forall run: seq<Cluster>, actions: seq<Action>, k: nat, k': nat, i: NodeId, j: NodeId, r: Applied, r': Applied |
        RunOf(AsWritten, Take(n, 0), run, actions) && k <= k' && AppliedAt(run, k, i, r) && AppliedAt(run, k', j, r') &&
        r.index == r'.index
        ensures r.entry == r'.entry
      {
        RunLength(Take(n, 0), run, actions);
        PairsAreSound(Take(n, 0), run, actions);
        StateMachineSafety(Take(n, 0), run, actions, k, k', i, j, r, r');
      }
    } else if n % 2 == 1 {
      OddHistoriesDiffer(n);
    } else {
      TwoHistoriesDiffer(AsWritten, n);
    }
  }

  // ---- an entry that is skipped -------------------------------------------------------------------------

  // A node whose pass has ended past an entry it never applied, with nothing left to apply.
  ghost predicate Skipped(s: NodeState, e: LogEntry) {
    s.log == [e] && s.commitIndex == 1 && s.lastApplied == 1 && s.applied == [] && s.loop == Applying(2, 1)
  }

  lemma CommitDuringPass(s: NodeState, o: NodeState, i: NodeId, lo: nat, hi: nat, e: LogEntry, quorum: nat)
    requires Sharing(s, o, i, lo, hi, hi, e, quorum) && lo < hi && hi - lo + 1 >= quorum
    requires o.loop == Applying(1, 0) && o.lastApplied == 0 && o.applied == []
    ensures s.loop == Applying(1, 0)
    ensures var ended := EndPass(AsWritten, s); ended.loop == Idle && Skipped(ApplyBegin(ended), e)
  {
    assert s.commitIndex == 1 && s.lastApplied == 0 && s.applied == [];
    assert ApplyEnd(s).lastApplied == 1;
    assert ApplyBegin(ApplyEnd(s)).loop == Applying(2, 1);
  }

  lemma PassOpens(s: NodeState, i: NodeId, peers: set<NodeId>)
    requires Elected(s, i, peers) && SamePass(s, INITIAL_NODE)
    ensures
      var o := ApplyBegin(s);
      Elected(o, i, peers) && o.term == s.term && o.loop == Applying(1, 0) && o.lastApplied == 0 && o.applied == []
  {
    forall p | p in peers ensures NextIndex(ApplyBegin(s), p) == 1 { assert NextIndex(s, p) == 1; }
  }

  // A leader opens a pass with nothing to apply; its first entry commits meanwhile; the pass ends, and
  // the next one begins behind that entry.
  lemma SkipsAnEntry(n: nat) returns (run: seq<Cluster>, actions: seq<Action>)
    requires n >= 2
    ensures At(AsWritten, Take(n, 0), run, actions) && 0 in Last(run).nodes
    ensures Skipped(Last(run).nodes[0], LogEntry(1, 1, "x"))
  {
    hide RunOf, Take, Elected, Sharing, ApplyBegin, EndPass, Fresh, Skipped;
    var members, e := Take(n, 0), LogEntry(1, 1, "x");
    var run0, actions0 := FreshStart(AsWritten, n);
    InitialIsFresh();
    AllFresh(Last(run0), n, 1, n);
    var run1, actions1 := LeadFresh(AsWritten, n, run0, actions0, 0, 1, n);
    PassOpens(Last(run1).nodes[0], 0, members - {0});
    assert Last(run1).nodes[0].loop == Idle by { assert INITIAL_NODE.loop == Idle; }
    var run2, actions2 := DoApply(AsWritten, members, run1, actions1, BeginApply(0));
    assert Empty(Last(run2).nodes, 1, n, 1) by { EarlierIsEmptyToo(Last(run2).nodes, 1, n); }
    var run3, actions3 := SubmitAndShare(AsWritten, n, run2, actions2, 0, 1, n, "x");
    CommitDuringPass(Last(run3).nodes[0], Last(run2).nodes[0], 0, 1, n, e, Quorum(n));
    var run4, actions4 := DoApply(AsWritten, members, run3, actions3, EndApply(0, AsWritten));
    run, actions := DoApply(AsWritten, members, run4, actions4, BeginApply(0));
  }

  lemma EarlierIsEmptyToo(nodes: map<NodeId, NodeState>, lo: nat, hi: nat)
    requires Settled(nodes, lo, hi, 1)
    ensures Empty(nodes, lo, hi, 1)
  {
  }

  // Without a leader nothing is ever committed.
  lemma NothingCommitted(members: set<NodeId>, run: seq<Cluster>, actions: seq<Action>, n: nat, i: NodeId)
    requires |members| <= 1 && IsRun(members, run, actions) && n <= |actions| && i in run[n].nodes
    ensures run[n].nodes[i].commitIndex == 0
    ensures run[n].nodes[i].loop.Applying? ==> run[n].nodes[i].loop.upTo == 0
  {
    hide IsRun, HistoryOf, NodeBasic, NodeHoldsAcks, BooksKept, HistoryCommit, HonestRun;
    RunLength(members, run, actions);
    PairsAreSound(members, run, actions);
    NodeAt(members, run, actions, n, i);
    NoLeaders(members, HistoryOf(members, run, actions, n));
    NothingToCommit(members, HistoryOf(members, run, actions, n), i, run[n].nodes[i]);
  }

  lemma NothingToCommit(members: set<NodeId>, h: History, i: NodeId, s: NodeState)
    requires h.leads == map[] && NodeCommit(members, h, i, s)
    ensures s.commitIndex == 0 && (s.loop.Applying? ==> s.loop.upTo == 0)
  {
    hide NodeHoldsAcks, BooksKept;
    assert ApplyBounded(h, s);
  }

  lemma NoLeaders(members: set<NodeId>, h: History)
    requires |members| <= 1 && HistoryBasic(members, h)
    ensures h.leads == map[]
  {
    if t :| t in h.leads {
      assert LeadBasic(members, h, t);
      SubsetSize(h.leads[t].voters, members);
    }
  }

  // As written, all nodes of all runs apply gap-free prefixes exactly in clusters of at most one node.
  lemma WrittenOrderIffSize(n: nat)
    ensures AlwaysInOrder(AsWritten, Take(n, 0)) <==> n <= 1
  {
    hide IsRun, Take;
    if n <= 1 {
      forall run: seq<Cluster>, actions: seq<Action>, k: nat, i: NodeId |
        RunOf(AsWritten, Take(n, 0), run, actions) && k < |run| && i in run[k].nodes
        ensures InOrder(run[k].nodes[i])
      {
        RunLength(Take(n, 0), run, actions);
        NeverCommitsIsSteady(Take(n, 0), run, actions);
        PairsAreSound(Take(n, 0), run, actions);
        NodeAt(Take(n, 0), run, actions, k, i);
        AppliedInOrder(Take(n, 0), run, actions, k, i);
      }
    } else {
      var run, actions := SkipsAnEntry(n);
      assert !InOrder(Last(run).nodes[0]);
    }
  }

  lemma NeverCommitsIsSteady(members: set<NodeId>, run: seq<Cluster>, actions: seq<Action>)
    requires |members| <= 1 && IsRun(members, run, actions)
    ensures SteadyApply(run, actions)
  {
    forall k | 0 <= k < |actions| ensures SteadyEnd(run[k], actions[k]) {
      assert Enabled(members, run[k], actions[k]);
      if actions[k].EndApply? {
        NothingCommitted(members, run, actions, k, actions[k].node);
      }
    }
  }

  // A leader elected while another leads makes that one give up an entry it has applied.
  lemma TwoOrders(code: Code, n: nat) returns (run: seq<Cluster>, actions: seq<Action>)
    requires n >= 4 && n % 2 == 0
    ensures At(code, Take(n, 0), run, actions) && 0 in Last(run).nodes && !InOrder(Last(run).nodes[0])
  {
    hide RunOf, Fresh, Willing, Elected, Settled, HandleAppendEntries, AppendTo, InOrder, BecomeLeader, StartElection,
         Propose, Take;
    InitialIsFresh();
    var members, b := Take(n, 0), n / 2;
    var run0, actions0 := FreshStart(code, n);
    AllFresh(Last(run0), n, 1, b);
    var run1, actions1 := LeadAndShare(code, n, run0, actions0, 0, 1, b, "x");
    var run2, actions2 := DoTimeout(code, members, run1, actions1, b);
    LateCandidate(members, n, Last(run2), b);
    var run3, actions3 := Elect(code, n, run2, actions2, b, b + 1, n);
    var run4, actions4 := DoSubmit(code, members, run3, actions3, b, "y");
    var run5, actions5 := DoReplicate(code, members, run4, actions4, b, 0);
    run, actions := DoAppend(code, members, run5, actions5, 0, LateRequest(b));
    Overwritten(Last(run1).nodes[0], b);
  }

  function LateRequest(b: NodeId): Message {
    AppendRequest(b, 0, 2, 0, 0, [LogEntry(2, 1, "y")], 0)
  }

  // The second candidate asks again, in term 2, and its first request of that term overwrites.
  lemma LateCandidate(members: set<NodeId>, n: nat, c: Cluster, b: NodeId)
    requires c.nodes.Keys == members == Take(n, 0) && 0 < b < n && c.nodes[b] == StartElection(INITIAL_NODE, b)
    requires forall p :: b < p < n ==> p in c.nodes && c.nodes[p] == INITIAL_NODE
    ensures Willing(c.nodes, b + 1, n, 2) && c.nodes[b].role != Leader && c.nodes[b].term == 1
    ensures
      var s := BecomeLeader(StartElection(c.nodes[b], b), b, members - {b});
      var s' := Propose(s, b, "y").0;
      s'.role == Leader && AppendTo(s', b, 0, s'.commitIndex) == LateRequest(b)
  {
  }

  lemma Overwritten(s: NodeState, b: NodeId)
    requires s.log == [LogEntry(1, 1, "x")] && s.term == 1 && Applied(1, LogEntry(1, 1, "x")) in s.applied
    ensures !InOrder(HandleAppendEntries(s, 2, b, 0, 0, [LogEntry(2, 1, "y")], 0).0)
  {
    var s' := HandleAppendEntries(s, 2, b, 0, 0, [LogEntry(2, 1, "y")], 0).0;
    assert s.log[..0] == [];
    assert s'.log == [LogEntry(2, 1, "y")] && s'.applied == s.applied;
  }

  // As it is meant, they do exactly in clusters of odd size or of at most two nodes.
  lemma RepairedOrderIffSize(n: nat)
    ensures AlwaysInOrder(AsMeant, Take(n, 0)) <==> ElectionSize(n)
  {
    hide IsRun, Take, InOrder;
    if ElectionSize(n) {
      forall run: seq<Cluster>, actions: seq<Action>, k: nat, i: NodeId |
        RunOf(AsMeant, Take(n, 0), run, actions) && k < |run| && i in run[k].nodes
        ensures InOrder(run[k].nodes[i])
      {
        RunLength(Take(n, 0), run, actions);
        RepairedIsSound(Take(n, 0), run, actions);
        NodeAt(Take(n, 0), run, actions, k, i);
        RepairedInOrder(Take(n, 0), run, actions, k, i);
      }
    } else {
      var run, actions := TwoOrders(AsMeant, n);
      assert run[|run| - 1] == Last(run);
    }
  }
}
