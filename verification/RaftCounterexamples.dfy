/**
 * Building runs step by step, and runs that leave the conditions of the theorems and break their
 * conclusions, for every cluster size they exist in.
 */
module RaftCounterexamples {
  import opened RaftProtocol
  import opened RaftCluster
  import opened RaftQuorums

  ghost function Last(run: seq<Cluster>): Cluster
    requires |run| > 0
  {
    run[|run| - 1]
  }

  ghost predicate RunOf(code: Code, members: set<NodeId>, run: seq<Cluster>, actions: seq<Action>) {
    IsRun(members, run, actions) && AllRun(code, actions)
  }

  // A run that has come to a state of all members.
  ghost predicate At(code: Code, members: set<NodeId>, run: seq<Cluster>, actions: seq<Action>) {
    RunOf(code, members, run, actions) && |run| > 0 && Last(run).nodes.Keys == members
  }

  // The run with one more action by node i.
  ghost predicate Grown(code: Code, members: set<NodeId>, run: seq<Cluster>, run': seq<Cluster>, actions': seq<Action>,
                        i: NodeId, s': NodeState, sent: set<Message>)
    requires |run| > 0
  {
    At(code, members, run', actions') &&
    Last(run') == Cluster(Last(run).nodes[i := s'], Last(run).messages + sent)
  }

  lemma Extend(code: Code, members: set<NodeId>, run: seq<Cluster>, actions: seq<Action>, a: Action)
    returns (run': seq<Cluster>, actions': seq<Action>)
    requires At(code, members, run, actions) && Enabled(members, Last(run), a) && Runs(code, a)
    ensures
      var (s', sent) := Effect(members, Last(run), a);
      Grown(code, members, run, run', actions', a.node, s', sent)
  {
    hide Effect, Enabled, Runs;
    run' := run + [Step(members, Last(run), a)];
    actions' := actions + [a];
    hide Step;
    assert IsRun(members, run', actions');
    assert Last(run').nodes.Keys == members by { StepKeys(members, Last(run), a); }
  }

  lemma StepKeys(members: set<NodeId>, c: Cluster, a: Action)
    requires Enabled(members, c, a) && c.nodes.Keys == members
    ensures Step(members, c, a).nodes.Keys == members
  {
    hide Effect;
  }

  lemma Start(code: Code, members: set<NodeId>) returns (run: seq<Cluster>, actions: seq<Action>)
    ensures At(code, members, run, actions) && Initial(members, Last(run))
  {
    run, actions := [Cluster(map i | i in members :: INITIAL_NODE, {})], [];
  }

  lemma DoTimeout(code: Code, members: set<NodeId>, run: seq<Cluster>, actions: seq<Action>, i: NodeId)
    returns (run': seq<Cluster>, actions': seq<Action>)
    requires At(code, members, run, actions) && i in members && Last(run).nodes[i].role != Leader
    ensures
      var s := Last(run).nodes[i];
      Grown(code, members, run, run', actions', i, StartElection(s, i),
            {VoteRequest(i, s.term + 1, |s.log|, LastTerm(s.log))})
  {
    hide Grown, RunOf;
    run', actions' := Extend(code, members, run, actions, Timeout(i));
  }

  lemma DoVote(code: Code, members: set<NodeId>, run: seq<Cluster>, actions: seq<Action>, i: NodeId, m: Message)
    returns (run': seq<Cluster>, actions': seq<Action>)
    requires At(code, members, run, actions) && i in members
    requires m in Last(run).messages && m.VoteRequest? && m.src != i
    ensures
      var (s', reply) := HandleRequestVote(Last(run).nodes[i], m.term, m.src, m.lastIndex, m.lastTerm);
      Grown(code, members, run, run', actions', i, s', {VoteAnswer(i, m.src, m.term, reply)})
  {
    hide Grown, RunOf, HandleRequestVote, HandleAppendEntries, HandleAppendReply;
    run', actions' := Extend(code, members, run, actions, DeliverVoteRequest(i, m));
  }

  lemma DoWin(
    code: Code, members: set<NodeId>, run: seq<Cluster>, actions: seq<Action>, i: NodeId, grants: set<NodeId>)
    returns (run': seq<Cluster>, actions': seq<Action>)
    requires At(code, members, run, actions) && i in members && Last(run).nodes[i].role == Candidate
    requires grants <= members - {i} && |grants| >= 1 && |grants| + 1 >= Quorum(|members|)
    requires var s := Last(run).nodes[i];
      forall p :: p in grants ==> VoteAnswer(p, i, s.term, VoteReply(s.term, true)) in Last(run).messages
    ensures Grown(code, members, run, run', actions', i, BecomeLeader(Last(run).nodes[i], i, members - {i}), {})
  {
    hide Grown, RunOf, HandleRequestVote, HandleAppendEntries, HandleAppendReply, BecomeLeader;
    run', actions' := Extend(code, members, run, actions, Win(i, grants));
  }

  lemma DoSubmit(
    code: Code, members: set<NodeId>, run: seq<Cluster>, actions: seq<Action>, i: NodeId, command: string)
    returns (run': seq<Cluster>, actions': seq<Action>)
    requires At(code, members, run, actions) && i in members
    ensures Grown(code, members, run, run', actions', i, Propose(Last(run).nodes[i], i, command).0, {})
  {
    hide Grown, RunOf, HandleRequestVote, HandleAppendEntries, HandleAppendReply, Propose;
    run', actions' := Extend(code, members, run, actions, Submit(i, command));
  }

  lemma DoReplicate(
    code: Code, members: set<NodeId>, run: seq<Cluster>, actions: seq<Action>, i: NodeId, peer: NodeId)
    returns (run': seq<Cluster>, actions': seq<Action>)
    requires At(code, members, run, actions) && i in members && peer in members && peer != i
    requires Last(run).nodes[i].role == Leader
    ensures
      var s := Last(run).nodes[i];
      Grown(code, members, run, run', actions', i, s, {AppendTo(s, i, peer, s.commitIndex)})
  {
    hide Grown, RunOf, HandleRequestVote, HandleAppendEntries, HandleAppendReply, AppendTo;
    run', actions' := Extend(code, members, run, actions, Replicate(i, peer, Last(run).nodes[i].commitIndex));
  }

  lemma DoAppend(code: Code, members: set<NodeId>, run: seq<Cluster>, actions: seq<Action>, i: NodeId, m: Message)
    returns (run': seq<Cluster>, actions': seq<Action>)
    requires At(code, members, run, actions) && i in members
    requires m in Last(run).messages && m.AppendRequest? && m.dst == i
    ensures
      var s := Last(run).nodes[i];
      var s' := HandleAppendEntries(s, m.term, m.src, m.prev, m.prevTerm, m.entries, m.commit).0;
      Grown(code, members, run, run', actions', i, s', {AppendAnswer(i, m.src, m.term, AnswerTo(s, m, code))})
  {
    hide Grown, RunOf, HandleRequestVote, HandleAppendEntries, HandleAppendReply, AnswerTo;
    run', actions' := Extend(code, members, run, actions, DeliverAppendRequest(i, m, code));
  }

  lemma DoAnswer(code: Code, members: set<NodeId>, run: seq<Cluster>, actions: seq<Action>, i: NodeId, m: Message)
    returns (run': seq<Cluster>, actions': seq<Action>)
    requires At(code, members, run, actions) && i in members
    requires m in Last(run).messages && m.AppendAnswer? && m.dst == i && Last(run).nodes[i].term == m.requestTerm
    ensures
      Grown(code, members, run, run', actions', i,
            HandleAppendReply(Last(run).nodes[i], i, m.src, m.requestTerm, m.appendReply, Quorum(|members|)), {})
  {
    hide Grown, RunOf, HandleRequestVote, HandleAppendEntries, HandleAppendReply;
    run', actions' := Extend(code, members, run, actions, DeliverAppendAnswer(i, m));
  }

  lemma DoApply(code: Code, members: set<NodeId>, run: seq<Cluster>, actions: seq<Action>, a: Action)
    returns (run': seq<Cluster>, actions': seq<Action>)
    requires At(code, members, run, actions) && a.node in members && Runs(code, a)
    requires a.BeginApply? || a.ApplyNext? || a.EndApply?
    requires Enabled(members, Last(run), a)
    ensures
      var s := Last(run).nodes[a.node];
      Grown(code, members, run, run', actions', a.node,
            if a.BeginApply? then ApplyBegin(s) else if a.ApplyNext? then ApplyOne(s) else EndPass(code, s), {})
  {
    hide Grown, RunOf, ApplyBegin, EndPass;
    run', actions' := Extend(code, members, run, actions, a);
  }

  // ---- elections ----------------------------------------------------------------------------------

  // A follower that has done nothing but vote.
  predicate Fresh(s: NodeState) {
    s.log == [] && s.role == Follower && s.commitIndex == 0 && s.lastApplied == 0 && s.loop == Idle && s.applied == []
  }

  lemma FreshGrants(s: NodeState, term: nat, candidate: NodeId, lastIndex: nat, lastTerm: nat)
    requires Fresh(s) && s.term < term
    ensures
      var (s', reply) := HandleRequestVote(s, term, candidate, lastIndex, lastTerm);
      Fresh(s') && s'.term == term && reply == VoteReply(term, true)
  {
  }

  // Nodes lo to hi - 1 are fresh and of an earlier term.
  ghost predicate Willing(nodes: map<NodeId, NodeState>, lo: nat, hi: nat, term: nat) {
    forall p :: lo <= p < hi ==> p in nodes && Fresh(nodes[p]) && nodes[p].term < term
  }

  // They are fresh and of this term.
  ghost predicate Settled(nodes: map<NodeId, NodeState>, lo: nat, hi: nat, term: nat) {
    forall p :: lo <= p < hi ==> p in nodes && Fresh(nodes[p]) && nodes[p].term == term
  }

  // Nothing changed outside lo to hi - 1 and one other node.
  ghost predicate OthersSame(n: nat, before: Cluster, after: Cluster, i: NodeId, lo: nat, hi: nat) {
    before.nodes.Keys == after.nodes.Keys && before.messages <= after.messages &&
    forall p :: p in before.nodes && p != i && !(lo <= p < hi) ==> after.nodes[p] == before.nodes[p]
  }

  // Nodes lo to hi - 1 have granted the vote asked for, and nobody else has changed.
  ghost predicate Granted(n: nat, before: Cluster, after: Cluster, m: Message, lo: nat, hi: nat)
    requires m.VoteRequest?
  {
    OthersSame(n, before, after, m.src, lo, hi) && m.src in before.nodes &&
    after.nodes[m.src] == before.nodes[m.src] && Settled(after.nodes, lo, hi, m.term) &&
    forall p :: lo <= p < hi ==> VoteAnswer(p, m.src, m.term, VoteReply(m.term, true)) in after.messages
  }

  lemma OneGrant(code: Code, n: nat, run: seq<Cluster>, actions: seq<Action>, m: Message, p: nat)
    returns (run': seq<Cluster>, actions': seq<Action>)
    requires At(code, Take(n, 0), run, actions) && p < n
    requires m.VoteRequest? && m in Last(run).messages && p != m.src && m.src < n
    requires Fresh(Last(run).nodes[p]) && Last(run).nodes[p].term < m.term
    ensures At(code, Take(n, 0), run', actions') && Granted(n, Last(run), Last(run'), m, p, p + 1)
  {
    hide RunOf, HandleRequestVote, Fresh, Take;
    FreshGrants(Last(run).nodes[p], m.term, m.src, m.lastIndex, m.lastTerm);
    run', actions' := DoVote(code, Take(n, 0), run, actions, p, m);
  }

  lemma GrantedInTwo(n: nat, a: Cluster, b: Cluster, c: Cluster, m: Message, lo: nat, hi: nat)
    requires m.VoteRequest? && lo < hi <= n && !(lo <= m.src < hi)
    requires Granted(n, a, b, m, lo, lo + 1) && Granted(n, b, c, m, lo + 1, hi)
    ensures Granted(n, a, c, m, lo, hi)
  {
    hide Fresh;
    assert c.nodes[lo] == b.nodes[lo];
  }

  lemma StillWilling(n: nat, a: Cluster, b: Cluster, m: Message, lo: nat, hi: nat)
    requires m.VoteRequest? && lo < hi && !(lo <= m.src < hi)
    requires Granted(n, a, b, m, lo, lo + 1) && Willing(a.nodes, lo, hi, m.term)
    ensures Willing(b.nodes, lo + 1, hi, m.term)
  {
    hide Fresh;
  }

  lemma {:induction false} CollectGrants(
    code: Code, n: nat, run: seq<Cluster>, actions: seq<Action>, m: Message, lo: nat, hi: nat)
    returns (run': seq<Cluster>, actions': seq<Action>)
    requires At(code, Take(n, 0), run, actions) && lo < hi <= n
    requires m.VoteRequest? && m in Last(run).messages && !(lo <= m.src < hi) && m.src < n
    requires Willing(Last(run).nodes, lo, hi, m.term)
    ensures At(code, Take(n, 0), run', actions') && Granted(n, Last(run), Last(run'), m, lo, hi)
    decreases hi - lo
  {
    hide RunOf, Fresh, Granted;
    run', actions' := OneGrant(code, n, run, actions, m, lo);
    if lo + 1 < hi {
      hide At, Take, Willing;
      var run1 := run';
      StillWilling(n, Last(run), Last(run1), m, lo, hi);
      assert m in Last(run1).messages by { GrantedKeepsMessages(n, Last(run), Last(run1), m, lo, lo + 1); }
      run', actions' := CollectGrants(code, n, run1, actions', m, lo + 1, hi);
      GrantedInTwo(n, Last(run), Last(run1), Last(run'), m, lo, hi);
    }
  }

  lemma GrantedKeepsMessages(n: nat, a: Cluster, b: Cluster, m: Message, lo: nat, hi: nat)
    requires m.VoteRequest? && Granted(n, a, b, m, lo, hi)
    ensures a.messages <= b.messages
  {
  }

  // A candidate is elected by the fresh nodes lo to hi - 1.
  lemma Elect(code: Code, n: nat, run: seq<Cluster>, actions: seq<Action>, i: NodeId, lo: nat, hi: nat)
    returns (run': seq<Cluster>, actions': seq<Action>)
    requires At(code, Take(n, 0), run, actions) && i < n && lo < hi <= n && !(lo <= i < hi)
    requires hi - lo + 1 >= Quorum(n) && Last(run).nodes[i].role != Leader
    requires Willing(Last(run).nodes, lo, hi, Last(run).nodes[i].term + 1)
    ensures At(code, Take(n, 0), run', actions') && OthersSame(n, Last(run), Last(run'), i, lo, hi)
    ensures
      var s := Last(run).nodes[i];
      Last(run').nodes[i] == BecomeLeader(StartElection(s, i), i, Take(n, 0) - {i}) &&
      Settled(Last(run').nodes, lo, hi, s.term + 1)
  {
    hide RunOf, BecomeLeader, Fresh, Take, Quorum;
    var members, s := Take(n, 0), Last(run).nodes[i];
    var m := VoteRequest(i, s.term + 1, |s.log|, LastTerm(s.log));
    run', actions' := DoTimeout(code, members, run, actions, i);
    run', actions' := CollectGrants(code, n, run', actions', m, lo, hi);
    run', actions' := DoWin(code, members, run', actions', i, Take(hi - lo, lo));
  }

  // ---- sharing one entry ----------------------------------------------------------------------------

  // Nothing of an apply pass differs.
  predicate SamePass(s: NodeState, o: NodeState) {
    s.loop == o.loop && s.lastApplied == o.lastApplied && s.applied == o.applied
  }

  // A leader whose one entry the nodes lo to k - 1 have acknowledged and the nodes k to hi - 1 not been
  // asked for. With a quorum behind it, itself counted, the entry is committed.
  ghost predicate Sharing(
    s: NodeState, o: NodeState, i: NodeId, lo: nat, k: nat, hi: nat, e: LogEntry, quorum: nat)
  {
    s.role == Leader && s.term == e.term >= 1 && s.log == [e] && SamePass(s, o) && s.commitIndex <= 1 &&
    i in s.matchIndex && s.matchIndex[i] == 1 &&
    (forall p :: lo <= p < k ==> p in s.matchIndex && s.matchIndex[p] == 1) &&
    (forall p :: k <= p < hi ==> NextIndex(s, p) == 1) &&
    (k > lo && k - lo + 1 >= quorum ==> s.commitIndex == 1)
  }

  // A leader elected with an empty log, its peers' indexes all at the start.
  predicate Elected(s: NodeState, i: NodeId, peers: set<NodeId>) {
    s.role == Leader && s.term >= 1 && s.log == [] && s.commitIndex == 0 &&
    forall p :: p in peers ==> NextIndex(s, p) == 1
  }

  lemma SharingBegins(s: NodeState, i: NodeId, peers: set<NodeId>, lo: nat, hi: nat, command: string, quorum: nat)
    requires Elected(s, i, peers) && forall p :: lo <= p < hi ==> p in peers
    ensures Sharing(Propose(s, i, command).0, s, i, lo, lo, hi, LogEntry(s.term, 1, command), quorum)
  {
    assert [] + [LogEntry(s.term, 1, command)] == [LogEntry(s.term, 1, command)];
    forall p | lo <= p < hi ensures NextIndex(Propose(s, i, command).0, p) == 1 {
      assert p in peers && NextIndex(s, p) == 1;
    }
  }

  lemma ScanOne(s: NodeState, quorum: nat)
    requires |s.log| == 1 && s.log[0].term == s.term && s.commitIndex <= 1
    ensures
      var n := ScanCommit(s, 1, s.term, quorum);
      n <= 1 && (s.commitIndex == 1 || |Replicated(s.matchIndex, 1)| >= quorum ==> n == 1)
  {
    assert ScanCommit(s, 0, s.term, quorum) == s.commitIndex;
  }

  // An answer that claims the entry counts its sender.
  lemma AnswerCounts(s: NodeState, i: NodeId, p: NodeId, counted: set<NodeId>, quorum: nat)
    requires s.role == Leader && |s.log| == 1 && s.log[0].term == s.term && s.commitIndex <= 1
    requires forall q :: q in counted && q != p && q != i ==> q in s.matchIndex && s.matchIndex[q] >= 1
    ensures
      var s' := HandleAppendReply(s, i, p, s.term, AppendReply(s.term, true, 1), quorum);
      s' == s.(matchIndex := s.matchIndex[p := 1][i := 1], nextIndex := s.nextIndex[p := 2],
               commitIndex := s'.commitIndex) &&
      s.commitIndex <= s'.commitIndex <= 1 && (|counted| >= quorum ==> s'.commitIndex == 1)
  {
    var s1 := s.(matchIndex := s.matchIndex[p := 1][i := 1], nextIndex := s.nextIndex[p := 2]);
    SubsetSize(counted, Replicated(s1.matchIndex, 1));
    hide Replicated;
    ScanOne(s1, quorum);
    assert HandleAppendReply(s, i, p, s.term, AppendReply(s.term, true, 1), quorum) ==
           AdvanceCommit(s1, s.term, quorum);
    hide HandleAppendReply, ScanCommit;
  }

  lemma SharingGoesOn(s: NodeState, o: NodeState, i: NodeId, lo: nat, k: nat, hi: nat, e: LogEntry, quorum: nat)
    requires Sharing(s, o, i, lo, k, hi, e, quorum) && lo <= k < hi && !(lo <= i < hi)
    ensures
      var s' := HandleAppendReply(s, i, k, s.term, AppendReply(s.term, true, 1), quorum);
      Sharing(s', o, i, lo, k + 1, hi, e, quorum)
  {
    var counted := Take(k + 1 - lo, lo) + {i};
    assert |counted| == k + 1 - lo + 1;
    hide Take;
    AnswerCounts(s, i, k, counted, quorum);
    hide HandleAppendReply;
    var s' := HandleAppendReply(s, i, k, s.term, AppendReply(s.term, true, 1), quorum);
    forall p | k + 1 <= p < hi ensures NextIndex(s', p) == 1 { assert NextIndex(s, p) == 1 && p != k; }
  }

  lemma EntryTaken(s: NodeState, i: NodeId, e: LogEntry, commit: nat, p: NodeId, code: Code)
    requires s.log == [] && s.term <= e.term
    ensures AnswerTo(s, AppendRequest(i, p, e.term, 0, 0, [e], commit), code) == AppendReply(e.term, true, 1)
  {
    assert MergeFrom([], 0, [e], 0) == [e];
  }

  lemma EntrySent(s: NodeState, o: NodeState, i: NodeId, lo: nat, k: nat, hi: nat, e: LogEntry, quorum: nat)
    requires Sharing(s, o, i, lo, k, hi, e, quorum) && k < hi
    ensures AppendTo(s, i, k, s.commitIndex) == AppendRequest(i, k, e.term, 0, 0, [e], s.commitIndex)
  {
  }

  // One node is asked, takes the entry, and is counted.
  lemma ShareOne(
    code: Code, n: nat, run: seq<Cluster>, actions: seq<Action>, o: NodeState, i: NodeId, lo: nat, k: nat, hi: nat,
    e: LogEntry)
    returns (run': seq<Cluster>, actions': seq<Action>)
    requires At(code, Take(n, 0), run, actions) && i < n && lo <= k < hi <= n && !(lo <= i < hi)
    requires Sharing(Last(run).nodes[i], o, i, lo, k, hi, e, Quorum(n))
    requires Last(run).nodes[k].log == [] && Last(run).nodes[k].term <= e.term
    ensures At(code, Take(n, 0), run', actions') && OthersSame(n, Last(run), Last(run'), i, k, k + 1)
    ensures Sharing(Last(run').nodes[i], o, i, lo, k + 1, hi, e, Quorum(n))
  {
    hide RunOf, HandleAppendEntries, HandleAppendReply, AppendTo, AnswerTo, Take, Sharing;
    var members, s := Take(n, 0), Last(run).nodes[i];
    assert s.role == Leader && s.term == e.term by { SharingLeads(s, o, i, lo, k, hi, e, Quorum(n)); }
    var m := AppendRequest(i, k, e.term, 0, 0, [e], s.commitIndex);
    EntrySent(s, o, i, lo, k, hi, e, Quorum(n));
    EntryTaken(Last(run).nodes[k], i, e, s.commitIndex, k, code);
    SharingGoesOn(s, o, i, lo, k, hi, e, Quorum(n));
    run', actions' := DoReplicate(code, members, run, actions, i, k);
    run', actions' := DoAppend(code, members, run', actions', k, m);
    run', actions' :=
      DoAnswer(code, members, run', actions', i, AppendAnswer(k, i, e.term, AppendReply(e.term, true, 1)));
  }

  lemma SharingLeads(s: NodeState, o: NodeState, i: NodeId, lo: nat, k: nat, hi: nat, e: LogEntry, quorum: nat)
    requires Sharing(s, o, i, lo, k, hi, e, quorum)
    ensures s.role == Leader && s.term == e.term
  {
  }

  // Nodes k to hi - 1 can still take an entry of this term at the start of their logs.
  ghost predicate Empty(nodes: map<NodeId, NodeState>, k: nat, hi: nat, term: nat) {
    forall p :: k <= p < hi ==> p in nodes && nodes[p].log == [] && nodes[p].term <= term
  }

  lemma StillEmpty(n: nat, a: Cluster, b: Cluster, i: NodeId, k: nat, hi: nat, term: nat)
    requires OthersSame(n, a, b, i, k, k + 1) && Empty(a.nodes, k, hi, term) && !(k <= i < hi)
    ensures Empty(b.nodes, k + 1, hi, term)
  {
  }

  lemma OthersSameInTwo(n: nat, a: Cluster, b: Cluster, c: Cluster, i: NodeId, lo: nat, mid: nat, hi: nat)
    requires lo <= mid <= hi && OthersSame(n, a, b, i, lo, mid) && OthersSame(n, b, c, i, mid, hi)
    ensures OthersSame(n, a, c, i, lo, hi)
  {
  }

  lemma {:induction false} ShareOut(
    code: Code, n: nat, run: seq<Cluster>, actions: seq<Action>, o: NodeState, i: NodeId, lo: nat, k: nat, hi: nat,
    e: LogEntry)
    returns (run': seq<Cluster>, actions': seq<Action>)
    requires At(code, Take(n, 0), run, actions) && i < n && lo <= k <= hi <= n && !(lo <= i < hi)
    requires Sharing(Last(run).nodes[i], o, i, lo, k, hi, e, Quorum(n)) && Empty(Last(run).nodes, k, hi, e.term)
    ensures At(code, Take(n, 0), run', actions') && OthersSame(n, Last(run), Last(run'), i, k, hi)
    ensures Sharing(Last(run').nodes[i], o, i, lo, hi, hi, e, Quorum(n))
    decreases hi - k
  {
    hide RunOf, Sharing, Take;
    run', actions' := run, actions;
    if k < hi {
      var run1, actions1 := ShareOne(code, n, run, actions, o, i, lo, k, hi, e);
      StillEmpty(n, Last(run), Last(run1), i, k, hi, e.term);
      hide Empty;
      run', actions' := ShareOut(code, n, run1, actions1, o, i, lo, k + 1, hi, e);
      OthersSameInTwo(n, Last(run), Last(run1), Last(run'), i, k, k + 1, hi);
    }
  }

  lemma FirstApplied(s: NodeState, e: LogEntry)
    requires s.loop == Idle && s.lastApplied == 0 && s.commitIndex == 1 && s.log == [e]
    ensures ApplyBegin(s).loop == Applying(1, 1) && Applied(1, e) in ApplyOne(ApplyBegin(s)).applied
  {
  }

  // A leader with its one entry committed applies it.
  lemma ApplyFirst(code: Code, n: nat, run: seq<Cluster>, actions: seq<Action>, i: NodeId, e: LogEntry)
    returns (run': seq<Cluster>, actions': seq<Action>)
    requires At(code, Take(n, 0), run, actions) && i < n
    requires
      var s := Last(run).nodes[i];
      s.loop == Idle && s.lastApplied == 0 && s.commitIndex == 1 && s.log == [e]
    ensures At(code, Take(n, 0), run', actions') && OthersSame(n, Last(run), Last(run'), i, i, i)
    ensures
      var s, s' := Last(run).nodes[i], Last(run').nodes[i];
      s' == s.(loop := s'.loop, applied := s'.applied) && Applied(1, e) in s'.applied
  {
    hide RunOf, Take;
    FirstApplied(Last(run).nodes[i], e);
    run', actions' := DoApply(code, Take(n, 0), run, actions, BeginApply(i));
    run', actions' := DoApply(code, Take(n, 0), run', actions', ApplyNext(i));
  }
}
