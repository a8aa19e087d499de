/** write_tar, diff_snapshots and extract_layer as the loops they are, against Layers.dfy. */
module LayerFiles {
  import opened Wrappers
  import opened Layers

  // ---- sorting paths --------------------------------------------------------------------------------

  lemma {:induction false} LeqTotal(a: string, b: string)
    ensures Leq(a, b) || Leq(b, a)
  {
    if a != "" && b != "" && a[0] == b[0] {
      LeqTotal(a[1..], b[1..]);
    }
  }

  lemma {:induction false} LeqTransitive(a: string, b: string, c: string)
    requires Leq(a, b) && Leq(b, c)
    ensures Leq(a, c)
  {
    if a != "" && a[0] == b[0] == c[0] {
      LeqTransitive(a[1..], b[1..], c[1..]);
    }
  }

  ghost predicate Least(p: Path, among: set<Path>) {
    p in among && forall q :: q in among ==> Leq(Joined(p), Joined(q))
  }

  lemma {:induction false} SomeLeast(among: set<Path>) returns (p: Path)
    requires among != {}
    ensures Least(p, among)
  {
    hide Joined, Leq;
    var a :| a in among;
    LeqTotal(Joined(a), Joined(a));
    if among == {a} {
      p := a;
    } else {
      var rest := among - {a};
      var b := SomeLeast(rest);
      LeqTotal(Joined(a), Joined(b));
      if Leq(Joined(a), Joined(b)) {
        p := a;
        forall q | q in among ensures Leq(Joined(a), Joined(q)) {
          if q != a {
            LeqTransitive(Joined(a), Joined(b), Joined(q));
          }
        }
      } else {
        p := b;
      }
    }
  }

  method Sorted(among: set<Path>) returns (paths: seq<Path>)
    ensures SortedPaths(paths) && PathSet(paths) == among
  {
    hide Joined, Leq;
    paths := [];
    var rest := among;
    while rest != {}
      invariant rest <= among && PathSet(paths) == among - rest && SortedPaths(paths)
      invariant forall i, q :: 0 <= i < |paths| && q in rest ==> Leq(Joined(paths[i]), Joined(q))
      decreases rest
    {
      ghost var least := SomeLeast(rest);
      var p :| p in rest && forall q :: q in rest ==> Leq(Joined(p), Joined(q));
      forall i | 0 <= i < |paths| ensures paths[i] != p {
        assert paths[i] in PathSet(paths);
      }
      assert PathSet(paths + [p]) == PathSet(paths) + {p};
      paths, rest := paths + [p], rest - {p};
    }
  }

  // ---- building a layer -----------------------------------------------------------------------------

  method DiffSnapshots(before: map<Path, Fingerprint>, after: map<Path, Fingerprint>)
    returns (changed: seq<Path>, removed: seq<Path>)
    ensures SortedPaths(changed) && PathSet(changed) == Changed(before, after)
    ensures SortedPaths(removed) && PathSet(removed) == Vanished(before, after)
  {
    changed := Sorted(set p | p in after && (p !in before || before[p] != after[p]));
    removed := Sorted(set p | p in before && p !in after);
    assert PathSet(removed) == Vanished(before, after);
  }

  // A member holds the bytes of its file and the target of its link; of the mode only whether the owner
  // may execute a file is kept, of times nothing.
  ghost predicate Archived(n: Node, m: Node) {
    (n.Directory? ==> m == Directory(0x1ED)) && (n.Link? ==> m == n) &&
    (n.File? ==> m.File? && m.content == n.content && m.mtime == 0 &&
                 m.mode == if n.mode / 0x40 % 2 == 1 then 0x1ED else 0x1A4)
  }

  // The changed paths in order, then an empty marker for every vanished one.
  ghost predicate Written(t: Tree, changed: seq<Path>, removed: seq<Path>, layer: Layer)
    requires (forall p :: p in changed ==> p in t) && [] !in removed
  {
    |layer| == |changed| + |removed| &&
    (forall k :: 0 <= k < |changed| ==> layer[k].path == changed[k] && Archived(t[changed[k]], layer[k].node)) &&
    forall k :: 0 <= k < |removed| ==>
      var path, m := removed[k], layer[|changed| + k];
      m.path == path[..|path| - 1] + [".wh." + path[|path| - 1]] && m.node == File(0x1A4, [], 0)
  }

  lemma PartsAreWritten(t: Tree, changed: seq<Path>, removed: seq<Path>)
    requires (forall p :: p in changed ==> p in t) && [] !in removed
    ensures Written(t, changed, removed, Members(t, changed) + Markers(removed))
  {
  }

  method WriteTar(t: Tree, changed: seq<Path>, removed: seq<Path>) returns (layer: Layer)
    requires (forall p :: p in changed ==> p in t) && [] !in removed
    ensures layer == Members(t, changed) + Markers(removed)
    ensures Written(t, changed, removed, layer)
  {
    hide Written;
    layer := [];
    var k := 0;
    while k < |changed|
      invariant k <= |changed| && layer == Members(t, changed[..k])
    {
      layer := layer + [Member(changed[k], Normal(t[changed[k]]))];
      k := k + 1;
    }
    assert changed[..k] == changed;
    k := 0;
    while k < |removed|
      invariant k <= |removed| && layer == Members(t, changed) + Markers(removed[..k])
    {
      var parent, name := removed[k][..|removed[k]| - 1], Basename(removed[k]);
      layer := layer + [Member(parent + [WHITEOUT_PREFIX + name], File(PLAIN, [], 0))];
      k := k + 1;
    }
    assert removed[..k] == removed;
    PartsAreWritten(t, changed, removed);
  }

  // The RUN instruction: a snapshot on either side, and a layer of the difference.
  method RunLayer(before: Tree, after: Tree) returns (layer: Layer)
    requires [] !in before
    ensures IsLayerOf(before, after, layer)
  {
    var changed, removed := DiffSnapshots(Snapshot(before), Snapshot(after));
    forall p | p in changed ensures p in after {
      assert p in PathSet(changed);
    }
    assert [] in removed ==> [] in PathSet(removed);
    layer := WriteTar(after, changed, removed);
    assert LayerParts(before, after, layer, changed, removed);
  }

  // ---- extracting one -------------------------------------------------------------------------------

  class RootFs {
    var tree: Tree

    constructor (tree: Tree)
      ensures this.tree == tree
    {
      this.tree := tree;
    }

    // A path and everything below it, if it is there at all.
    method Remove(p: Path)
      modifies this
      ensures tree == Without(old(tree), p)
    {
      tree := map q | q in tree && !(p <= q) :: tree[q];
    }

    // The entries of a directory, one by one.
    method Empty(p: Path)
      modifies this
      ensures tree == Emptied(old(tree), p)
    {
      var entries := set q | q in tree && p < q :: q[..|p| + 1];
      while entries != {}
        invariant forall e :: e in entries ==> |e| == |p| + 1 && p < e
        invariant forall q :: q in tree ==> q in old(tree) && tree[q] == old(tree)[q]
        invariant forall q :: q in old(tree) && !(p < q) ==> q in tree
        invariant forall q :: q in tree && p < q ==> q[..|p| + 1] in entries
        decreases entries
      {
        var e :| e in entries;
        Remove(e);
        forall q | q in tree && p < q ensures q[..|p| + 1] != e {
          assert e == q[..|p| + 1] ==> e <= q;
        }
        entries := entries - {e};
      }
    }

    method Extract(layer: Layer) returns (ok: bool)
      modifies this
      ensures ok <==> Extracted(old(tree), layer).Some?
      ensures ok ==> tree == Extracted(old(tree), layer).value
    {
      var k := 0;
      while k < |layer|
        invariant k <= |layer| && tree == WhiteOuts(old(tree), layer[..k])
      {
        assert layer[..k + 1][..k] == layer[..k];
        var path := layer[k].path;
        if path != [] {
          var parent, name := path[..|path| - 1], Basename(path);
          if name == OPAQUE_MARKER {
            if IsDirectory(tree, parent) {
              Empty(parent);
            }
          } else if name == WHITEOUT_PREFIX {
            if IsDirectory(tree, parent) {
              Remove(parent);
            }
          } else if IsMarker(name) {
            Remove(parent + [name[|WHITEOUT_PREFIX|..]]);
          }
        }
        k := k + 1;
      }
      assert layer[..k] == layer;
      ghost var left := tree;
      k := 0;
      while k < |layer|
        invariant k <= |layer| && UnpackAll(left, layer[..k]) == Some(tree)
      {
        assert layer[..k + 1][..k] == layer[..k];
        ok := UnpackOne(layer[k]);
        if !ok {
          FailureStays(left, layer, k + 1);
          return;
        }
        k := k + 1;
      }
      assert layer[..k] == layer;
      ok := true;
    }

    method UnpackOne(m: Member) returns (ok: bool)
      modifies this
      ensures ok <==> Unpack(old(tree), m).Some?
      ensures ok ==> tree == Unpack(old(tree), m).value
    {
      if m.path == [] || IsMarker(Basename(m.path)) {
        return true;
      }
      if m.path in tree && !(m.node.Directory? && tree[m.path].Directory?) {
        Remove(m.path);
      }
      ghost var cleared := tree;
      var n := 1;
      while n < |m.path|
        invariant 1 <= n <= |m.path| && MadeParents(tree, m.path, n) == MadeParents(cleared, m.path, 0)
      {
        if m.path[..n] !in tree {
          tree := tree[m.path[..n] := Directory(RUNNABLE)];
        } else if !tree[m.path[..n]].Directory? {
          return false;
        }
        n := n + 1;
      }
      tree := tree[m.path := m.node];
      return true;
    }
  }

  lemma {:induction false} FailureStays(t: Tree, layer: Layer, n: nat)
    requires n <= |layer| && UnpackAll(t, layer[..n]).None?
    ensures UnpackAll(t, layer).None?
    decreases |layer|
  {
    if n < |layer| {
      assert layer[..|layer| - 1][..n] == layer[..n];
      FailureStays(t, layer[..|layer| - 1], n);
    } else {
      assert layer[..n] == layer;
    }
  }
}
