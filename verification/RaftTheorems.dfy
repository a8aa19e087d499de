/** What the protocol promises, stated on runs of the cluster alone. */
module RaftTheorems {
  import opened RaftProtocol
  import opened RaftCluster
  import opened RaftHistory
  import opened RaftElection
  import opened RaftCommit
  import opened RaftSafety

  // A run to which the commit theorems apply: a cluster of odd size or of two nodes at most, in which
  // no answer claims a stale tail. Every run of the code as it is meant is one.
  ghost predicate SoundRun(members: set<NodeId>, run: seq<Cluster>, actions: seq<Action>) {
    ElectionSize(|members|) && IsRun(members, run, actions) && HonestRun(run, actions)
  }

  // A run of the code as it is meant, whatever is delayed, repeated, lost or restarted.
  ghost predicate RepairedRun(members: set<NodeId>, run: seq<Cluster>, actions: seq<Action>) {
    ElectionSize(|members|) && IsRun(members, run, actions) && AllRun(AsMeant, actions)
  }

  lemma RepairedIsSound(members: set<NodeId>, run: seq<Cluster>, actions: seq<Action>)
    requires RepairedRun(members, run, actions)
    ensures SoundRun(members, run, actions)
  {
    forall k | 0 <= k < |actions| ensures HonestAnswer(run[k], actions[k]) { assert Runs(AsMeant, actions[k]); }
  }

  lemma {:induction false} RunIsCommitted(members: set<NodeId>, run: seq<Cluster>, actions: seq<Action>, n: nat)
    requires SoundRun(members, run, actions) && n <= |actions|
    ensures Basic(members, run[n], HistoryOf(members, run, actions, n))
    ensures Committed(members, run[n], HistoryOf(members, run, actions, n))
  {
    hide Basic, Committed, Effect, Record, Step, Enabled, HonestAnswer;
    RunIsBasic(members, run, actions, n);
    if n == 0 {
      BeginsCommitted(members, run[0]);
    } else {
      RunIsCommitted(members, run, actions, n - 1);
      StepKeepsCommitted(members, run[n - 1], HistoryOf(members, run, actions, n - 1), actions[n - 1]);
    }
  }

  lemma BeginsCommitted(members: set<NodeId>, c: Cluster)
    requires Initial(members, c)
    ensures Committed(members, c, EMPTY_HISTORY)
  {
  }

  lemma {:induction false} AppliedPersists(
    members: set<NodeId>, run: seq<Cluster>, actions: seq<Action>, n: nat, n': nat, r: Applied)
    requires ElectionSize(|members|) && IsRun(members, run, actions) && n <= n' <= |actions|
    requires r in HistoryOf(members, run, actions, n).applied
    ensures r in HistoryOf(members, run, actions, n').applied
    decreases n'
  {
    if n < n' {
      hide IsRun, Record;
      AppliedPersists(members, run, actions, n, n' - 1, r);
      HistoryGrows(members, run, actions, n' - 1);
    }
  }

  lemma NodeFacts(members: set<NodeId>, c: Cluster, h: History, i: NodeId)
    requires Basic(members, c, h) && Committed(members, c, h) && i in c.nodes
    ensures i in members && NodeBasic(h, i, c.nodes[i]) && NodeCommit(members, h, i, c.nodes[i])
    ensures HistoryBasic(members, h) && HistoryCommit(members, h)
  {
    hide NodeBasic, NodeCommit, HistoryBasic, HistoryCommit, MessageBasic, MessageCommit;
  }

  lemma NodeAt(members: set<NodeId>, run: seq<Cluster>, actions: seq<Action>, n: nat, i: NodeId)
    requires SoundRun(members, run, actions) && n <= |actions| && i in run[n].nodes
    ensures var h := HistoryOf(members, run, actions, n);
      i in members && NodeBasic(h, i, run[n].nodes[i]) && NodeCommit(members, h, i, run[n].nodes[i]) &&
      HistoryBasic(members, h) && HistoryCommit(members, h)
  {
    hide Basic, Committed, NodeBasic, NodeCommit, HistoryBasic, HistoryCommit, HistoryOf, HonestRun;
    RunIsCommitted(members, run, actions, n);
    NodeFacts(members, run[n], HistoryOf(members, run, actions, n), i);
  }

  lemma AppliedRecorded(members: set<NodeId>, run: seq<Cluster>, actions: seq<Action>, n: nat, i: NodeId, r: Applied)
    requires SoundRun(members, run, actions) && n <= |actions|
    requires i in run[n].nodes && r in run[n].nodes[i].applied
    ensures r in HistoryOf(members, run, actions, n).applied
  {
    hide IsRun, HonestRun, HistoryOf, NodeBasic, HistoryBasic, HistoryCommit, NodeHoldsAcks, BooksKept, CommitJustified;
    NodeAt(members, run, actions, n, i);
  }

  // State machine safety: whatever two nodes, at whatever two moments and across restarts, hand to
  // their state machines as the entry of one index is the same entry.
  lemma StateMachineSafety(
    members: set<NodeId>, run: seq<Cluster>, actions: seq<Action>, n: nat, n': nat, i: NodeId, j: NodeId,
    r: Applied, r': Applied)
    requires SoundRun(members, run, actions) && n <= n' <= |actions|
    requires i in run[n].nodes && r in run[n].nodes[i].applied
    requires j in run[n'].nodes && r' in run[n'].nodes[j].applied
    requires r.index == r'.index
    ensures r.entry == r'.entry
  {
    var h := HistoryOf(members, run, actions, n');
    hide IsRun, HonestRun, HistoryOf, LeadBasic, BallotBasic, BallotHoldsAcks;
    AppliedRecorded(members, run, actions, n, i, r);
    AppliedPersists(members, run, actions, n, n', r) by { assert IsRun(members, run, actions); }
    AppliedRecorded(members, run, actions, n', j, r');
    RunIsCommitted(members, run, actions, n');
    assert Backed(members, h, r) && Backed(members, h, r');
    BackedAgree(members, h, r, r');
  }

  // The same for the code as it is meant, with nothing else asked of the run.
  lemma RepairedSafety(
    members: set<NodeId>, run: seq<Cluster>, actions: seq<Action>, n: nat, n': nat, i: NodeId, j: NodeId,
    r: Applied, r': Applied)
    requires RepairedRun(members, run, actions) && n <= n' <= |actions|
    requires i in run[n].nodes && r in run[n].nodes[i].applied
    requires j in run[n'].nodes && r' in run[n'].nodes[j].applied
    requires r.index == r'.index
    ensures r.entry == r'.entry
  {
    hide IsRun;
    RepairedIsSound(members, run, actions);
    StateMachineSafety(members, run, actions, n, n', i, j, r, r');
  }

  // Leader completeness: an entry of its own term that a quorum has acknowledged is in the log of every
  // leader of every later term, with everything before it.
  lemma ChosenInLaterLeaders(
    members: set<NodeId>, run: seq<Cluster>, actions: seq<Action>, n: nat, n': nat, t: nat, k: nat, j: NodeId, T: nat)
    requires SoundRun(members, run, actions) && n <= n' <= |actions|
    requires Chosen(members, HistoryOf(members, run, actions, n), t, k)
    requires LeadsAt(run, n', j, T) && t < T
    ensures Shares(run[n'].nodes[j].log, HistoryOf(members, run, actions, n).leads[t].log, k)
  {
    hide IsRun, HonestRun, HistoryOf, Chosen, HistoryBasic, HistoryCommit, NodeCommit, Sane;
    var h, h' := HistoryOf(members, run, actions, n), HistoryOf(members, run, actions, n');
    ChosenIsOwn(members, h, t, k);
    var L := h.leads[t].log;
    assert CommitWitness(members, h, L, k, t, t, k);
    CommitLater(members, run, actions, n, n', L, k, t);
    NodeAt(members, run, actions, n', j);
    LeaderShares(members, h', L, k, t, T);
  }

  lemma ChosenIsOwn(members: set<NodeId>, h: History, t: nat, k: nat)
    requires Chosen(members, h, t, k)
    ensures t in h.leads && 1 <= k <= |h.leads[t].log|
  {
  }

  // Leader completeness as nodes see it: what any node has committed is in the log of every leader, from then on,
  // whose term is at least that node's.
  lemma LeadersHaveCommitted(
    members: set<NodeId>, run: seq<Cluster>, actions: seq<Action>, n: nat, n': nat, i: NodeId, j: NodeId)
    requires SoundRun(members, run, actions) && n <= n' <= |actions|
    requires i in run[n].nodes && j in run[n'].nodes
    requires run[n'].nodes[j].role == Leader && run[n].nodes[i].term <= run[n'].nodes[j].term
    ensures run[n].nodes[i].commitIndex <= |run[n].nodes[i].log|
    ensures Shares(run[n'].nodes[j].log, run[n].nodes[i].log, run[n].nodes[i].commitIndex)
  {
    var s, leader := run[n].nodes[i], run[n'].nodes[j];
    var h, h' := HistoryOf(members, run, actions, n), HistoryOf(members, run, actions, n');
    hide IsRun, HonestRun, HistoryOf, Sane, HistoryCommit, HistoryBasic, NodeHoldsAcks, BooksKept, ApplyBounded,
         VotesKept, TermsAtMost, CommitJustified;
    NodeAt(members, run, actions, n, i);
    NodeAt(members, run, actions, n', j);
    CommitLater(members, run, actions, n, n', s.log, s.commitIndex, s.term);
    LeaderShares(members, h', s.log, s.commitIndex, s.term, leader.term);
    CommitInLog(members, h, s.log, s.commitIndex, s.term);
  }

  lemma LeaderShares(members: set<NodeId>, h: History, L: Log, commit: nat, last: nat, term: nat)
    requires ElectionSize(|members|) && HistoryBasic(members, h) && HistoryCommit(members, h)
    requires CommitJustified(members, h, L, commit, last) && last <= term && term in h.leads
    ensures Shares(h.leads[term].log, L, commit)
  {
    hide HistoryBasic, HistoryCommit;
    if commit > 0 {
      var t: nat, k: nat :| CommitWitness(members, h, L, commit, last, t, k);
      if t < term {
        LeaderCompleteness(members, h, t, k, term);
        SharesShorter(h.leads[term].log, h.leads[t].log, commit, k);
      }
    }
  }

  lemma {:induction false} CommitLater(
    members: set<NodeId>, run: seq<Cluster>, actions: seq<Action>, n: nat, n': nat, L: Log, commit: nat, last: nat)
    requires ElectionSize(|members|) && IsRun(members, run, actions) && n <= n' <= |actions|
    requires CommitJustified(members, HistoryOf(members, run, actions, n), L, commit, last)
    ensures CommitJustified(members, HistoryOf(members, run, actions, n'), L, commit, last)
    decreases n'
  {
    if n < n' {
      hide IsRun, Record, CommitJustified, Extends;
      CommitLater(members, run, actions, n, n' - 1, L, commit, last);
      HistoryGrows(members, run, actions, n' - 1);
      CommitStays(members, HistoryOf(members, run, actions, n' - 1), HistoryOf(members, run, actions, n'),
                  actions[n' - 1].node, L, commit, last, last);
    }
  }

  // The commit index a request carries is covered by the entries it shows or builds on, so the
  // follower's min(leader_commit, last_index()) never reaches into a stale tail.
  lemma LeaderCommitCovered(members: set<NodeId>, run: seq<Cluster>, actions: seq<Action>, n: nat, m: Message)
    requires SoundRun(members, run, actions) && n <= |actions|
    requires m in run[n].messages && m.AppendRequest?
    ensures m.commit <= m.prev + |m.entries|
  {
    hide IsRun, HonestRun, NodeCommit, HistoryCommit, Basic;
    RunIsCommitted(members, run, actions, n);
    var h := HistoryOf(members, run, actions, n);
    assert MessageCommit(members, h, m);
    CommitInLog(members, h, Shown(h.leads[m.term].log, m), m.commit, m.term);
  }

  // ---- indexes ------------------------------------------------------------------------------------

  // Entries carry consecutive indexes from `first` on.
  predicate IndexedFrom(entries: Log, first: nat) {
    forall k :: 0 <= k < |entries| ==> entries[k].index == first + k
  }

  ghost predicate AllIndexed(c: Cluster) {
    (forall i :: i in c.nodes ==> IndexedFrom(c.nodes[i].log, 1)) &&
    forall m :: m in c.messages && m.AppendRequest? ==> IndexedFrom(m.entries, m.prev + 1)
  }

  lemma {:induction false} MergeIndexed(log: Log, prev: nat, entries: Log, i: nat)
    requires i <= |entries| && prev + i <= |log| && IndexedFrom(log, 1) && IndexedFrom(entries, prev + 1)
    ensures IndexedFrom(MergeFrom(log, prev, entries, i), 1)
    decreases |entries| - i
  {
    if i < |entries| && prev + i < |log| && log[prev + i].term == entries[i].term {
      MergeIndexed(log, prev, entries, i + 1);
    }
  }

  lemma AppendIndexed(s: NodeState, m: Message)
    requires m.AppendRequest? && IndexedFrom(s.log, 1) && IndexedFrom(m.entries, m.prev + 1)
    ensures
      IndexedFrom(HandleAppendEntries(s, m.term, m.src, m.prev, m.prevTerm, m.entries, m.commit).0.log, 1)
  {
    if m.prev <= |s.log| {
      MergeIndexed(s.log, m.prev, m.entries, 0);
    }
    hide MergeFrom;
  }

  lemma StepIndexed(members: set<NodeId>, c: Cluster, a: Action)
    requires Enabled(members, c, a) && AllIndexed(c)
    ensures AllIndexed(Step(members, c, a))
  {
    hide HandleAppendEntries, ScanCommit;
    if a.DeliverAppendRequest? {
      AppendIndexed(c.nodes[a.node], a.message);
    }
    assert IndexedFrom(c.nodes[a.node].log, 1);
  }

  // The entries of a request continue its prev index, and every log starts at 1, in every run of every
  // cluster.
  lemma {:induction false} RequestsWellIndexed(
    members: set<NodeId>, run: seq<Cluster>, actions: seq<Action>, n: nat)
    requires IsRun(members, run, actions) && n <= |actions|
    ensures AllIndexed(run[n])
  {
    if n > 0 {
      RequestsWellIndexed(members, run, actions, n - 1);
      hide AllIndexed, Step, Enabled;
      StepIndexed(members, run[n - 1], actions[n - 1]);
    }
  }

  // Short of a crash, no step takes back a commit or rewrites a committed entry.
  ghost predicate Stands(s: NodeState, s': NodeState) {
    s.commitIndex <= s'.commitIndex && Shares(s'.log, s.log, s.commitIndex)
  }

  lemma LightStands(members: set<NodeId>, c: Cluster, a: Action)
    requires Enabled(members, c, a) && !a.Crash? && !a.DeliverAppendRequest?
    requires c.nodes[a.node].commitIndex <= |c.nodes[a.node].log|
    ensures Stands(c.nodes[a.node], Effect(members, c, a).0)
  {
    hide HandleAppendEntries, Committable;
    var s := c.nodes[a.node];
    if a.DeliverAppendAnswer? {
      var s1 := s.(matchIndex := s.matchIndex[a.message.src := a.message.appendReply.matchIndex][a.node := |s.log|],
                   nextIndex := s.nextIndex[a.message.src := a.message.appendReply.matchIndex + 1]);
      ScanFinds(s1, |s.log|, a.message.requestTerm, Quorum(|members|));
    }
  }

  lemma AppendStands(members: set<NodeId>, c: Cluster, h: History, a: Action)
    requires ElectionSize(|members|) && Basic(members, c, h) && Committed(members, c, h)
    requires Enabled(members, c, a) && a.DeliverAppendRequest?
    ensures Stands(c.nodes[a.node], Effect(members, c, a).0)
  {
    hide HistoryBasic, HistoryCommit, HandleAppendEntries, HandleAppendReply, HandleRequestVote, NodeHoldsAcks,
         CommitJustified;
    var i, s, m := a.node, c.nodes[a.node], a.message;
    assert Shows(members, h, m);
    assert NodeBasic(h, i, s) && NodeCommit(members, h, i, s);
    AppendCommits(members, h, s, m);
  }

  lemma CommitsStand(members: set<NodeId>, run: seq<Cluster>, actions: seq<Action>, n: nat, i: NodeId)
    requires SoundRun(members, run, actions) && n < |actions|
    requires i in run[n].nodes && !(actions[n].Crash? && actions[n].node == i)
    ensures i in run[n + 1].nodes && run[n].nodes[i].commitIndex <= |run[n].nodes[i].log|
    ensures Stands(run[n].nodes[i], run[n + 1].nodes[i])
  {
    hide Basic, Committed, Effect, Enabled, HonestAnswer, HistoryOf, NodeBasic, CommitJustified, HistoryCommit,
         HistoryBasic, NodeHoldsAcks, BooksKept;
    var h, s, a := HistoryOf(members, run, actions, n), run[n].nodes[i], actions[n];
    RunIsCommitted(members, run, actions, n);
    NodeAt(members, run, actions, n, i);
    CommitInLog(members, h, s.log, s.commitIndex, s.term);
    if a.node == i {
      if a.DeliverAppendRequest? {
        AppendStands(members, run[n], h, a);
      } else {
        LightStands(members, run[n], a);
      }
    }
  }
}
