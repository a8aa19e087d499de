/** What extracting one member of any layer does, whoever wrote it, path by path. */
module LayerExtraction {
  import opened Wrappers
  import opened Layers

  // The directory a member lies in, and a path below it.
  ghost predicate Real(t: Tree, p: Path) {
    p == [] || (p in t && t[p].Directory?)
  }

  // The path a whiteout removes, with everything below it, if there is one.
  ghost predicate Removes(t: Tree, m: Member, q: Path) {
    m.path != [] &&
    var parent, name := m.path[..|m.path| - 1], m.path[|m.path| - 1];
    if name == ".wh..wh..opq" then Real(t, parent) && parent < q
    else if name == ".wh." then Real(t, parent) && parent <= q
    else ".wh." <= name && parent + [name[4..]] <= q
  }

  // The first pass over one member: an opaque marker empties its directory and keeps it, a marker removes
  // the entry it names, and everything else is left alone.
  lemma WhiteOutIs(t: Tree, m: Member)
    ensures forall q :: q in WhiteOut(t, m) <==> q in t && !Removes(t, m, q)
    ensures forall q :: q in WhiteOut(t, m) ==> WhiteOut(t, m)[q] == t[q]
  {
  }

  // On the way to a path, the root apart.
  ghost predicate Above(q: Path, p: Path) {
    q != [] && q < p
  }

  // What making the directories on the way to a path gives, from its n-th on.
  ghost predicate Made(t: Tree, p: Path, n: nat, made: Option<Tree>) {
    (made.Some? <==> forall q :: Above(q, p) && |q| >= n && q in t ==> t[q].Directory?) &&
    (made.Some? ==>
       (forall q :: q in made.value <==> q in t || (Above(q, p) && |q| >= n)) &&
       forall q :: q in made.value ==> made.value[q] == if q in t then t[q] else Directory(0x1ED))
  }

  lemma PrefixAt(q: Path, p: Path, n: nat)
    requires 0 < n < |p|
    ensures Above(p[..n], p) && |p[..n]| == n && (Above(q, p) && |q| == n <==> q == p[..n])
  {
  }

  lemma {:induction false} MadeParentsMakes(t: Tree, p: Path, n: nat)
    requires n <= |p|
    ensures Made(t, p, n, MadeParents(t, p, n))
    decreases |p| - n
  {
    if n == 0 && p != [] {
      MadeParentsMakes(t, p, 1);
    } else if n < |p| {
      forall q ensures Above(p[..n], p) && |p[..n]| == n && (Above(q, p) && |q| == n <==> q == p[..n]) {
        PrefixAt(q, p, n);
      }
      hide Above;
      if p[..n] !in t {
        MadeParentsMakes(t[p[..n] := Directory(RUNNABLE)], p, n + 1);
      } else if t[p[..n]].Directory? {
        MadeParentsMakes(t, p, n + 1);
      }
    }
  }

  // What a member other than a directory over a directory clears away first.
  ghost predicate Clears(t: Tree, m: Member, q: Path) {
    m.path in t && !(m.node.Directory? && t[m.path].Directory?) && m.path <= q
  }

  // The second pass over one member: it fails if and only if something on the way to it is not a
  // directory. Otherwise its node is there, missing directories on the way are made, what was in its way is
  // gone with everything below it, and the rest is as it was.
  lemma UnpackIs(t: Tree, m: Member)
    requires m.path != [] && !(".wh." <= m.path[|m.path| - 1])
    ensures Unpack(t, m).Some? <==> forall q :: Above(q, m.path) && q in t ==> t[q].Directory?
    ensures Unpack(t, m).Some? ==>
              var after := Unpack(t, m).value;
              m.path in after && after[m.path] == m.node &&
              forall q :: q != m.path ==>
                (q in after <==> Above(q, m.path) || (q in t && !Clears(t, m, q))) &&
                (q in after ==> after[q] == if q in t then t[q] else Directory(0x1ED))
  {
    var cleared := if m.path in t && !(m.node.Directory? && t[m.path].Directory?) then Without(t, m.path) else t;
    assert forall q :: q in cleared <==> q in t && !Clears(t, m, q);
    assert forall q :: Above(q, m.path) ==> !Clears(t, m, q);
    MadeParentsMakes(cleared, m.path, 0);
  }

  // Markers are no entries of their own.
  lemma MarkersLeaveNothing(t: Tree, m: Member)
    requires m.path == [] || ".wh." <= m.path[|m.path| - 1]
    ensures Unpack(t, m) == Some(t)
  {
  }
}
