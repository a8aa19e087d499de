/** When two quorums of (clusterSize + 1) // 2 nodes must share a member. */
module RaftQuorums {
  import opened RaftProtocol
  import opened RaftCluster
  import opened RaftHistory

  lemma SubsetSize<T>(a: set<T>, b: set<T>)
    requires a <= b
    ensures |a| <= |b|
  {
    assert b == a + (b - a);
  }

  lemma MembersShared<T>(members: set<T>, a: set<T>, b: set<T>) returns (x: T)
    requires a <= members && b <= members && |a| + |b| > |members|
    ensures x in a && x in b
  {
    SubsetSize(a + b, members);
    assert |a + b| == |a| + |b| - |a * b|;
    x :| x in a * b;
  }

  // Any two election quorums meet.
  lemma VotersMeet(members: set<NodeId>, a: set<NodeId>, b: set<NodeId>) returns (x: NodeId)
    requires ElectionSize(|members|)
    requires a <= members && b <= members
    requires |a| >= ElectionQuorum(|members|) && |b| >= ElectionQuorum(|members|)
    ensures x in a && x in b
  {
    x := MembersShared(members, a, b);
  }

  function Take(n: nat, from: nat): (s: set<nat>)
    ensures |s| == n
    ensures forall x :: x in s <==> from <= x < from + n
  {
    if n == 0 then {}
    else
      Take(n - 1, from) + {from + n - 1}
  }
}
