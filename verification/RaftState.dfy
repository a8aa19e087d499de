/** raft/state.py: the term and the vote, written to disk on every change. */
module RaftState {
  import opened Wrappers
  import opened RaftProtocol

  class PersistentState {
    var term: nat
    var votedFor: Option<NodeId>
    const durable: bool
    // The saved record, once the file exists.
    var file: Option<(nat, Option<NodeId>)>

    // A restart right now would find this term and this vote.
    ghost predicate Saved()
      reads this
    {
      if durable then file.GetOr((0, None)) == (term, votedFor) else file == None
    }

    constructor (durable: bool, file: Option<(nat, Option<NodeId>)>)
      requires durable || file == None
      ensures this.durable == durable && this.file == file && Saved()
      ensures (term, votedFor) == file.GetOr((0, None))
    {
      this.durable := durable;
      this.file := file;
      term, votedFor := file.GetOr((0, None)).0, file.GetOr((0, None)).1;
    }

    method SetTerm(newTerm: nat)
      requires Saved()
      modifies this
      ensures Saved() && term == newTerm && votedFor == None
    {
      term, votedFor := newTerm, None;
      Save();
    }

    method IncrementTerm() returns (newTerm: nat)
      requires Saved()
      modifies this
      ensures Saved() && term == old(term) + 1 && votedFor == None && newTerm == term
    {
      term, votedFor := term + 1, None;
      Save();
      newTerm := term;
    }

    method SetVotedFor(candidate: Option<NodeId>)
      requires Saved()
      modifies this
      ensures Saved() && term == old(term) && votedFor == candidate
    {
      votedFor := candidate;
      Save();
    }

    method Save()
      requires durable || file == None
      modifies this`file
      ensures Saved()
    {
      if durable {
        file := Some((term, votedFor));
      }
    }
  }
}
