/**
 * The node object of raft/node.py: its handlers, each proved to take exactly the step the protocol
 * model takes, with its durable parts on disk before it answers.
 */
module RaftNodeObject {
  import opened Wrappers
  import opened RaftProtocol
  import opened RaftLogFile
  import opened RaftState

  lemma GrowForAll(m: map<NodeId, nat>, done: set<NodeId>, p: NodeId, value: nat)
    ensures (m + ForAll(done, value))[p := value] == m + ForAll(done + {p}, value)
  {
  }

  class RaftNode {
    const nodeId: NodeId
    const peers: set<NodeId>
    const ps: PersistentState
    const log: RaftLog
    var role: Role
    var leaderId: Option<NodeId>
    var commitIndex: nat
    var lastApplied: nat
    var nextIndex: map<NodeId, nat>
    var matchIndex: map<NodeId, nat>
    // The calls made to apply_fn so far, and where a pass over the committed entries stands.
    var applied: seq<Applied>
    var loop: ApplyLoop

    function State(): NodeState
      reads this, ps, log
    {
      NodeState(ps.term, ps.votedFor, log.entries, role, leaderId, commitIndex, lastApplied, nextIndex, matchIndex,
                loop, applied)
    }

    // node.py never snapshots, so the base stays 0.
    ghost predicate Valid()
      reads this, ps, log
    {
      ps.Saved() && log.Valid() && log.snapshotLastIndex == 0 && log.snapshotLastTerm == 0
    }

    // A start, first or after a crash: what is on disk, and nothing else.
    constructor (nodeId: NodeId, peers: set<NodeId>, ps: PersistentState, log: RaftLog)
      requires ps.Saved() && log.Valid() && log.snapshotLastIndex == 0 && log.snapshotLastTerm == 0
      ensures Valid() && this.nodeId == nodeId && this.peers == peers && this.ps == ps && this.log == log
      ensures State() == INITIAL_NODE.(term := ps.term, votedFor := ps.votedFor, log := log.entries)
    {
      this.nodeId, this.peers, this.ps, this.log := nodeId, peers, ps, log;
      role, leaderId, commitIndex, lastApplied := Follower, None, 0, 0;
      nextIndex, matchIndex, applied, loop := map[], map[], [], Idle;
    }

    method StepDown(term: nat)
      requires Valid()
      modifies this`role, ps
      ensures Valid() && State() == RaftProtocol.StepDown(old(State()), term)
    {
      ps.SetTerm(term);
      role := Follower;
    }

    method CheckTerm(term: nat)
      requires Valid()
      modifies this`role, ps
      ensures Valid() && State() == RaftProtocol.CheckTerm(old(State()), term)
    {
      if term > ps.term {
        StepDown(term);
      }
    }

    method Propose(command: string) returns (index: Option<nat>)
      requires Valid()
      modifies this`matchIndex, log
      ensures Valid() && (State(), index) == RaftProtocol.Propose(old(State()), nodeId, command)
    {
      if role != Leader {
        return None;
      }
      var next := log.LastIndex() + 1;
      log.Append(LogEntry(ps.term, next, command));
      matchIndex := matchIndex[nodeId := next];
      index := Some(next);
    }

    method HandleRequestVote(term: nat, candidate: NodeId, lastIndex: nat, lastTerm: nat) returns (reply: VoteReply)
      requires Valid()
      modifies this`role, ps
      ensures Valid()
      ensures (State(), reply) == RaftProtocol.HandleRequestVote(old(State()), term, candidate, lastIndex, lastTerm)
    {
      CheckTerm(term);
      var mine := ps.term;
      if term < mine {
        return VoteReply(mine, false);
      }
      if ps.votedFor != None && ps.votedFor != Some(candidate) {
        return VoteReply(mine, false);
      }
      var logOk :=
        lastTerm > log.LastTermRead() || (lastTerm == log.LastTermRead() && lastIndex >= log.LastIndex());
      if !logOk {
        return VoteReply(mine, false);
      }
      ps.SetVotedFor(Some(candidate));
      reply := VoteReply(mine, true);
    }

    // The entry loop of the append handler, in place on the log.
    method Merge(prev: nat, more: Log)
      requires Valid() && prev <= |log.entries|
      requires forall k :: 0 <= k < |more| ==> more[k].index == prev + k + 1
      modifies log
      ensures Valid() && log.entries == MergeFrom(old(log.entries), prev, more, 0)
    {
      var i := 0;
      while i < |more|
        invariant 0 <= i <= |more| && prev + i <= |log.entries|
        invariant Valid() && log.entries == old(log.entries)
        invariant MergeFrom(old(log.entries), prev, more, 0) == MergeFrom(log.entries, prev, more, i)
      {
        var stored := log.Get(prev + 1 + i);
        if stored == None {
          log.AppendAll(more[i..]);
          return;
        }
        if stored.value.term != more[i].term {
          log.TruncateFrom(prev + 1 + i);
          log.AppendAll(more[i..]);
          return;
        }
        i := i + 1;
      }
    }

    // The consistency check: a refusal carries the match index to answer with.
    method CheckPrevious(prev: nat, prevTerm: nat) returns (refusal: Option<nat>)
      requires Valid()
      modifies log
      ensures Valid()
      ensures
        var L := old(log.entries);
        if prev > 0 && |L| < prev then refusal == Some(|L|) && log.entries == L
        else if prev > 0 && TermAt(L, prev) != prevTerm then refusal == Some(prev - 1) && log.entries == L[..prev - 1]
        else refusal == None && log.entries == L
    {
      refusal := None;
      if prev > 0 {
        if log.LastIndex() < prev {
          return Some(log.LastIndex());
        }
        if log.TermAtRead(prev) != prevTerm {
          log.TruncateFrom(prev);
          return Some(prev - 1);
        }
      }
    }

    // The indices of the entries continue prev, as every request of a run of the cluster does
    // (RaftTheorems.RequestsWellIndexed).
    method HandleAppendEntries(
      term: nat, leader: NodeId, prev: nat, prevTerm: nat, more: Log, leaderCommit: nat)
      returns (reply: AppendReply)
      requires Valid()
      requires forall k :: 0 <= k < |more| ==> more[k].index == prev + k + 1
      modifies this`role, this`leaderId, this`commitIndex, ps, log
      ensures Valid()
      ensures (State(), reply) ==
              RaftProtocol.HandleAppendEntries(old(State()), term, leader, prev, prevTerm, more, leaderCommit)
    {
      CheckTerm(term);
      var mine := ps.term;
      if term < mine {
        return AppendReply(mine, false, 0);
      }
      leaderId := Some(leader);
      if role == Candidate {
        role := Follower;
      }
      var refusal := CheckPrevious(prev, prevTerm);
      if refusal != None {
        return AppendReply(mine, false, refusal.value);
      }
      Accept(prev, more, leaderCommit);
      reply := AppendReply(mine, true, log.LastIndex());
    }

    // What a passed check leads to: the merge, then the commit index.
    method Accept(prev: nat, more: Log, leaderCommit: nat)
      requires Valid() && prev <= |log.entries|
      requires forall k :: 0 <= k < |more| ==> more[k].index == prev + k + 1
      modifies this`commitIndex, log
      ensures Valid() && log.entries == MergeFrom(old(log.entries), prev, more, 0)
      ensures commitIndex ==
              if leaderCommit > old(commitIndex)
              then (if leaderCommit <= |log.entries| then leaderCommit else |log.entries|) else old(commitIndex)
    {
      if more != [] {
        Merge(prev, more);
      }
      if leaderCommit > commitIndex {
        commitIndex := if leaderCommit <= log.LastIndex() then leaderCommit else log.LastIndex();
      }
    }

    // _start_election up to the requests, which carry the returned index and term.
    method StartElection() returns (term: nat, lastIndex: nat, lastTerm: nat)
      requires Valid()
      modifies this`role, this`leaderId, ps
      ensures Valid() && State() == RaftProtocol.StartElection(old(State()), nodeId)
      ensures term == State().term && lastIndex == |State().log| && lastTerm == LastTerm(State().log)
    {
      role := Candidate;
      term := ps.IncrementTerm();
      ps.SetVotedFor(Some(nodeId));
      leaderId := None;
      lastIndex, lastTerm := log.LastIndex(), log.LastTermRead();
    }

    method BecomeLeader(term: nat)
      requires Valid()
      modifies this`role, this`leaderId, this`nextIndex, this`matchIndex
      ensures Valid()
      ensures State() ==
              if old(ps.term != term || role != Candidate) then old(State())
              else RaftProtocol.BecomeLeader(old(State()), nodeId, peers)
    {
      if ps.term != term || role != Candidate {
        return;
      }
      role := Leader;
      leaderId := Some(nodeId);
      ResetTables(log.LastIndex() + 1);
      matchIndex := matchIndex[nodeId := log.LastIndex()];
    }

    // The loop over the peers of _become_leader.
    method ResetTables(next: nat)
      modifies this`nextIndex, this`matchIndex
      ensures nextIndex == old(nextIndex) + ForAll(peers, next)
      ensures matchIndex == old(matchIndex) + ForAll(peers, 0)
    {
      var rest := peers;
      while rest != {}
        invariant rest <= peers
        invariant nextIndex == old(nextIndex) + ForAll(peers - rest, next)
        invariant matchIndex == old(matchIndex) + ForAll(peers - rest, 0)
        decreases rest
      {
        var p :| p in rest;
        GrowForAll(old(nextIndex), peers - rest, p, next);
        GrowForAll(old(matchIndex), peers - rest, p, 0);
        assert peers - rest + {p} == peers - (rest - {p});
        nextIndex := nextIndex[p := next];
        matchIndex := matchIndex[p := 0];
        rest := rest - {p};
      }
      assert peers - rest == peers;
    }

    // The count and the downward scan of _advance_commit.
    method AdvanceCommit(term: nat)
      requires Valid()
      modifies this`commitIndex
      ensures Valid() && State() == RaftProtocol.AdvanceCommit(old(State()), term, Quorum(|peers| + 1))
    {
      var n: nat := log.LastIndex();
      var quorum := (|peers| + 2) / 2;
      while n > commitIndex
        invariant n <= |log.entries| && State() == old(State())
        invariant ScanCommit(State(), |log.entries|, term, quorum) == ScanCommit(State(), n, term, quorum)
        decreases n
      {
        if log.TermAtRead(n) == term {
          var replicated := |set p | p in matchIndex && matchIndex[p] >= n|;
          if replicated >= quorum {
            assert Replicated(matchIndex, n) == set p | p in matchIndex && matchIndex[p] >= n;
            commitIndex := n;
            return;
          }
          assert Replicated(matchIndex, n) == set p | p in matchIndex && matchIndex[p] >= n;
        }
        n := n - 1;
      }
    }

    // What _replicate reads from the log for one peer.
    method BuildRequest(peer: NodeId) returns (prev: nat, prevTerm: nat, more: Log)
      requires Valid()
      ensures
        var next := NextIndex(State(), peer);
        prev == (if next == 0 then 0 else next - 1) && prevTerm == TermAt(State().log, prev) &&
        more == if prev <= |State().log| then State().log[prev..] else []
    {
      var next := if peer in nextIndex then nextIndex[peer] else 1;
      prev := if next == 0 then 0 else next - 1;
      prevTerm := log.TermAtRead(prev);
      more := log.EntriesFrom(next);
    }

    // One answer inside _replicate.
    method HandleAppendReply(peer: NodeId, term: nat, reply: AppendReply)
      requires Valid()
      modifies this`role, this`matchIndex, this`nextIndex, this`commitIndex, ps
      ensures Valid()
      ensures State() ==
              RaftProtocol.HandleAppendReply(old(State()), nodeId, peer, term, reply, Quorum(|peers| + 1))
    {
      if reply.term > ps.term {
        StepDown(reply.term);
        return;
      }
      if role != Leader {
        return;
      }
      if reply.success {
        matchIndex := matchIndex[peer := reply.matchIndex];
        nextIndex := nextIndex[peer := reply.matchIndex + 1];
        matchIndex := matchIndex[nodeId := log.LastIndex()];
        AdvanceCommit(term);
      } else {
        nextIndex := nextIndex[peer := if 1 >= reply.matchIndex + 1 then 1 else reply.matchIndex + 1];
      }
    }

    // An apply pass. By the time its loop is done the other threads have brought the commit index to
    // `landed`: exactly the entries committed when it began are consumed, once each and in order, and
    // last_applied is set past those that landed meanwhile.
    method ApplyCommitted(landed: nat)
      requires Valid() && loop == Idle && lastApplied <= commitIndex <= |log.entries| && commitIndex <= landed
      modifies this`applied, this`lastApplied, this`loop, this`commitIndex
      ensures Valid() && loop == Idle && lastApplied == commitIndex == landed
      ensures |applied| == |old(applied)| + old(commitIndex) - old(lastApplied)
      ensures old(applied) == applied[..|old(applied)|]
      ensures forall k :: |old(applied)| <= k < |applied| ==>
        var index := old(lastApplied) + 1 + k - |old(applied)|;
        applied[k] == Applied(index, log.entries[index - 1])
    {
      loop := Applying(lastApplied + 1, commitIndex);
      while loop.next <= loop.upTo
        invariant loop.Applying? && loop.upTo == commitIndex == old(commitIndex) && lastApplied == old(lastApplied)
        invariant old(lastApplied) + 1 <= loop.next <= commitIndex + 1
        invariant |applied| == |old(applied)| + loop.next - 1 - old(lastApplied)
        invariant old(applied) == applied[..|old(applied)|]
        invariant forall k :: |old(applied)| <= k < |applied| ==>
          var index := old(lastApplied) + 1 + k - |old(applied)|;
          applied[k] == Applied(index, log.entries[index - 1])
        decreases loop.upTo + 1 - loop.next
      {
        var entry := log.Get(loop.next);
        if entry != None {
          applied := applied + [Applied(loop.next, entry.value)];
        }
        loop := Applying(loop.next + 1, loop.upTo);
      }
      commitIndex := landed;
      if commitIndex > lastApplied {
        lastApplied := commitIndex;
      }
      loop := Idle;
    }
  }
}
