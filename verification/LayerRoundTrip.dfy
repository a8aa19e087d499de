/** Extracting the layer of a change gives what the change left, and layers fold into the final tree. */
module LayerRoundTrip {
  import opened Wrappers
  import opened Layers

  // The name whose marker would read as the opaque marker.
  const OPAQUE_NAME := ".wh..opq"

  // What a layer can say: nothing new or changed has a name that reads as a marker, and nothing that
  // vanished has the one name whose marker means something else.
  ghost predicate Expressible(before: Tree, after: Tree) {
    (forall p :: p in Changed(Snapshot(before), Snapshot(after)) && p != [] ==> !IsMarker(Basename(p))) &&
    forall p :: p in Vanished(Snapshot(before), Snapshot(after)) && p != [] ==> Basename(p) != OPAQUE_NAME
  }

  ghost predicate NoMarkers(t: Tree) {
    forall p :: p in t && p != [] ==> !IsMarker(Basename(p))
  }

  // Trees without any such name are always expressible.
  lemma NoMarkersExpressible(before: Tree, after: Tree)
    requires NoMarkers(before) && NoMarkers(after)
    ensures Expressible(before, after)
  {
    assert IsMarker(OPAQUE_NAME);
  }

  // No file was rewritten within its size, its time and its mode.
  ghost predicate Faithful(before: Tree, after: Tree) {
    forall p :: p in before && p in after && before[p].File? && after[p].File? && before[p].mode == after[p].mode &&
                |before[p].content| == |after[p].content| && before[p].mtime == after[p].mtime ==>
                  before[p].content == after[p].content
  }

  // ---- sorting ------------------------------------------------------------------------------------

  lemma {:induction false} PrefixNotAfter(a: string, b: string)
    requires b != ""
    ensures !Leq(a + b, a)
  {
    if a == "" {
      assert a + b == b;
    } else {
      assert (a + b)[1..] == a[1..] + b;
      PrefixNotAfter(a[1..], b);
    }
  }

  lemma {:induction false} JoinedBelow(p: Path, n: nat) returns (rest: string)
    requires 0 < n < |p|
    ensures rest != "" && Joined(p) == Joined(p[..n]) + rest
    decreases |p|
  {
    var parent, tail := p[..|p| - 1], "/" + p[|p| - 1];
    if n == |p| - 1 {
      rest := tail;
    } else {
      assert parent[..n] == p[..n];
      var upper := JoinedBelow(parent, n);
      rest := upper + tail;
    }
  }

  // In sorted order a directory comes before everything below it.
  lemma ParentsFirst(paths: seq<Path>, k: nat, n: nat)
    requires SortedPaths(paths) && k < |paths| && 0 < n < |paths[k]| && paths[k][..n] in paths
    ensures paths[k][..n] in paths[..k]
  {
    var p := paths[k];
    var j: nat :| j < |paths| && paths[j] == p[..n];
    var rest := JoinedBelow(p, n);
    PrefixNotAfter(Joined(p[..n]), rest);
  }

  // ---- the first pass -------------------------------------------------------------------------------

  ghost predicate Gone(removed: seq<Path>, q: Path) {
    exists w :: w in removed && w <= q
  }

  // An entry with a name that can be whited out.
  ghost predicate Named(p: Path) {
    p != [] && Basename(p) != "" && Basename(p) != OPAQUE_NAME
  }

  lemma MarkerWhitesOut(t: Tree, p: Path)
    requires Named(p)
    ensures WhiteOut(t, MarkerFor(p)) == Without(t, p)
  {
    var m, name := MarkerFor(p), WHITEOUT_PREFIX + Basename(p);
    assert m.path[..|m.path| - 1] == p[..|p| - 1] && Basename(m.path) == name;
    assert name[|WHITEOUT_PREFIX|..] == Basename(p);
    assert p[..|p| - 1] + [Basename(p)] == p;
    assert OPAQUE_MARKER[|WHITEOUT_PREFIX|..] == OPAQUE_NAME;
  }

  lemma WhiteOutsMore(t: Tree, layer: Layer, m: Member)
    ensures WhiteOuts(t, []) == t
    ensures WhiteOuts(t, layer + [m]) == WhiteOut(WhiteOuts(t, layer), m)
  {
    hide WhiteOut;
    assert (layer + [m])[..|layer|] == layer;
  }

  lemma {:induction false} MembersWhiteNothing(t: Tree, layer: Layer)
    requires forall k :: 0 <= k < |layer| ==> layer[k].path == [] || !IsMarker(Basename(layer[k].path))
    ensures WhiteOuts(t, layer) == t
  {
    if layer != [] {
      MembersWhiteNothing(t, layer[..|layer| - 1]);
    }
  }

  lemma {:induction false} WhiteOutsInTwo(t: Tree, a: Layer, b: Layer)
    ensures WhiteOuts(t, a + b) == WhiteOuts(WhiteOuts(t, a), b)
  {
    hide WhiteOuts, WhiteOut;
    if b == [] {
      assert a + b == a;
      WhiteOutsMore(WhiteOuts(t, a), [], Member([], Link("")));
    } else {
      var front, last := b[..|b| - 1], b[|b| - 1];
      WhiteOutsInTwo(t, a, front);
      WhiteOutsMore(t, a + front, last);
      WhiteOutsMore(WhiteOuts(t, a), front, last);
      assert front + [last] == b && (a + front) + [last] == a + b;
    }
  }

  ghost function Kept(t: Tree, removed: seq<Path>): Tree {
    map q | q in t && !Gone(removed, q) :: t[q]
  }

  lemma KeptMore(t: Tree, removed: seq<Path>, p: Path)
    ensures Kept(t, removed + [p]) == Without(Kept(t, removed), p)
  {
    var more := removed + [p];
    forall q ensures Gone(more, q) <==> Gone(removed, q) || p <= q {
      if Gone(removed, q) {
        var w :| w in removed && w <= q;
        assert w in more;
      }
      if p <= q {
        assert p in more;
      }
    }
  }

  lemma {:induction false} MarkersWhiteOut(t: Tree, removed: seq<Path>)
    requires forall p :: p in removed ==> Named(p)
    ensures [] !in removed && WhiteOuts(t, Markers(removed)) == Kept(t, removed)
  {
    if removed == [] {
      assert forall q :: !Gone(removed, q);
      assert Markers(removed) == [];
      WhiteOutsMore(t, [], Member([], Link("")));
      assert Kept(t, removed) == t;
    } else {
      var front, last := removed[..|removed| - 1], removed[|removed| - 1];
      assert removed == front + [last] && last in removed;
      assert Named(last) && last != [];
      hide Named, WhiteOut, WhiteOuts, IsMarker, Basename, Kept, Without;
      MarkersWhiteOut(t, front);
      assert Markers(removed) == Markers(front) + [MarkerFor(last)];
      hide Markers, MarkerFor;
      WhiteOutsMore(t, Markers(front), MarkerFor(last));
      MarkerWhitesOut(Kept(t, front), last);
      KeptMore(t, front, last);
    }
  }

  lemma AboveIsThere(t: Tree, w: Path, q: Path)
    requires WellFormed(t) && w != [] && w <= q
    ensures q in t ==> w in t
  {
    assert w == q[..|w|];
    assert |w| == |q| ==> w == q;
  }

  // A path is whited out exactly when it vanished: nothing that stays lies below something that goes.
  lemma GoneIsVanished(before: Tree, after: Tree, removed: seq<Path>, q: Path)
    requires WellFormed(before) && WellFormed(after) && q in before
    requires PathSet(removed) == before.Keys - after.Keys
    ensures Gone(removed, q) <==> q !in after
  {
    if Gone(removed, q) {
      var w :| w in removed && w <= q;
      assert w in PathSet(removed);
      AboveIsThere(after, w, q);
    }
    if q !in after {
      assert q in PathSet(removed);
      assert Gone(removed, q);
    }
  }

  // ---- the second pass ------------------------------------------------------------------------------

  lemma {:induction false} ParentsThere(t: Tree, p: Path, n: nat)
    requires n <= |p| && forall m :: 0 < m < |p| ==> p[..m] in t && t[p[..m]].Directory?
    ensures MadeParents(t, p, n) == Some(t)
    decreases |p| - n
  {
    if n < |p| {
      ParentsThere(t, p, n + 1);
    }
  }

  // The tree after the whiteouts, with some paths of the new tree already unpacked over it.
  ghost function Overlaid(left: Tree, after: Tree, done: seq<Path>): Tree
    requires forall p :: p in done ==> p in after
  {
    map q | q in left.Keys + PathSet(done) :: if q in done then Normal(after[q]) else left[q]
  }

  // What is left after the whiteouts: the paths that stay, with the nodes they had.
  ghost predicate Remains(left: Tree, before: Tree, after: Tree) {
    left.Keys == before.Keys * after.Keys && forall q :: q in left ==> SameNode(left[q], before[q])
  }

  ghost predicate NoneReserved(changed: seq<Path>) {
    forall p :: p in changed && p != [] ==> !IsMarker(Basename(p))
  }

  ghost predicate AllChanged(before: Tree, after: Tree, changed: seq<Path>) {
    SortedPaths(changed) && (forall p :: p in changed ==> p in after) &&
    forall p :: p in after && p !in changed ==> p in before && before[p] == after[p]
  }

  // Everything on the way to the next path is already a directory.
  lemma WayIsClear(left: Tree, before: Tree, after: Tree, changed: seq<Path>, k: nat, n: nat)
    requires WellFormed(before) && WellFormed(after) && Remains(left, before, after)
    requires AllChanged(before, after, changed) && k < |changed| && 0 < n < |changed[k]|
    ensures
      var q, t := changed[k][..n], Overlaid(left, after, changed[..k]);
      q in t && t[q].Directory?
  {
    var p := changed[k];
    var q := p[..n];
    assert p in after && q in after && after[q].Directory?;
    if q in changed {
      ParentsFirst(changed, k, n);
    } else {
      assert q in before && before[q].Directory?;
      assert q in left && SameNode(left[q], before[q]);
      assert q !in changed[..k];
    }
  }

  // Nothing is lost when the old entry at a path makes room for the new one.
  lemma OnlyItself(left: Tree, before: Tree, after: Tree, changed: seq<Path>, k: nat)
    requires WellFormed(before) && WellFormed(after) && Remains(left, before, after)
    requires AllChanged(before, after, changed) && k < |changed|
    ensures
      var p, t := changed[k], Overlaid(left, after, changed[..k]);
      p in t && !(after[p].Directory? && t[p].Directory?) ==> forall q :: q in t && p <= q ==> q == p
  {
    var p, t := changed[k], Overlaid(left, after, changed[..k]);
    if p in t && !(after[p].Directory? && t[p].Directory?) {
      assert p !in changed[..k];
      assert SameNode(left[p], before[p]);
      forall q | q in t && p <= q ensures q == p {
        if p < q {
          assert p == q[..|p|];
          assert p != [];
          if q in changed[..k] {
            var j: nat :| j < k && changed[j] == q;
            ParentsFirst(changed, j, |p|);
          }
        }
      }
    }
  }

  lemma UnpackOnto(t: Tree, p: Path, node: Node)
    requires p != [] && !IsMarker(Basename(p)) && forall n :: 0 < n < |p| ==> p[..n] in t && t[p[..n]].Directory?
    requires p in t && !(node.Directory? && t[p].Directory?) ==> forall q :: q in t && p <= q ==> q == p
    ensures Unpack(t, Member(p, node)) == Some(t[p := node])
  {
    var cleared := if p in t && !(node.Directory? && t[p].Directory?) then Without(t, p) else t;
    forall n | 0 < n < |p| ensures p[..n] in cleared && cleared[p[..n]].Directory? {
      assert |p[..n]| < |p|;
    }
    ParentsThere(cleared, p, 0);
    assert cleared[p := node] == t[p := node];
  }

  lemma OverlaidNext(left: Tree, after: Tree, changed: seq<Path>, k: nat)
    requires k < |changed| && forall p :: p in changed ==> p in after
    ensures Overlaid(left, after, changed[..k])[changed[k] := Normal(after[changed[k]])] ==
            Overlaid(left, after, changed[..k + 1])
  {
    hide Normal;
    assert changed[..k + 1] == changed[..k] + [changed[k]];
  }

  lemma UnpackNext(left: Tree, before: Tree, after: Tree, changed: seq<Path>, k: nat)
    requires WellFormed(before) && WellFormed(after) && Remains(left, before, after)
    requires AllChanged(before, after, changed) && NoneReserved(changed) && k < |changed|
    ensures Unpack(Overlaid(left, after, changed[..k]), Member(changed[k], Normal(after[changed[k]]))) ==
            Some(Overlaid(left, after, changed[..k + 1]))
  {
    var p, t := changed[k], Overlaid(left, after, changed[..k]);
    assert p in after && p != [] && !IsMarker(Basename(p));
    OnlyItself(left, before, after, changed, k);
    hide Remains, NoneReserved, Unpack, IsMarker, Overlaid, SortedPaths, WellFormed;
    forall n | 0 < n < |p| ensures p[..n] in t && t[p[..n]].Directory? {
      WayIsClear(left, before, after, changed, k, n);
    }
    UnpackOnto(t, p, Normal(after[p]));
    OverlaidNext(left, after, changed, k);
  }

  lemma UnpackMore(t: Tree, layer: Layer, m: Member)
    ensures UnpackAll(t, []) == Some(t)
    ensures UnpackAll(t, layer + [m]) ==
            match UnpackAll(t, layer) case None => None case Some(earlier) => Unpack(earlier, m)
  {
    hide Unpack;
    assert (layer + [m])[..|layer|] == layer;
  }

  lemma {:induction false} UnpackSome(left: Tree, before: Tree, after: Tree, changed: seq<Path>, k: nat)
    requires WellFormed(before) && WellFormed(after) && Remains(left, before, after)
    requires AllChanged(before, after, changed) && NoneReserved(changed) && k <= |changed|
    ensures UnpackAll(left, Members(after, changed)[..k]) == Some(Overlaid(left, after, changed[..k]))
    decreases k
  {
    hide UnpackAll, Unpack, WellFormed, NoneReserved, Remains, SortedPaths, Normal;
    var layer := Members(after, changed);
    if k == 0 {
      assert layer[..0] == [];
      assert Overlaid(left, after, changed[..0]) == left;
      UnpackMore(left, [], Member([], Link("")));
    } else {
      hide Overlaid;
      UnpackSome(left, before, after, changed, k - 1);
      UnpackNext(left, before, after, changed, k - 1);
      var m := Member(changed[k - 1], Normal(after[changed[k - 1]]));
      assert layer[..k] == layer[..k - 1] + [m];
      UnpackMore(left, layer[..k - 1], m);
    }
  }

  lemma {:induction false} MarkersUnpackNothing(t: Tree, a: Layer, removed: seq<Path>)
    requires [] !in removed
    ensures UnpackAll(t, a + Markers(removed)) == UnpackAll(t, a)
    decreases |removed|
  {
    if removed == [] {
      assert a + Markers(removed) == a;
    } else {
      var front, last := removed[..|removed| - 1], removed[|removed| - 1];
      var all := a + Markers(removed);
      assert all[..|all| - 1] == a + Markers(front);
      MarkersUnpackNothing(t, a, front);
      assert all[|all| - 1] == MarkerFor(last);
      assert Basename(MarkerFor(last).path) == WHITEOUT_PREFIX + Basename(last);
    }
  }

  // ---- the round trip -------------------------------------------------------------------------------

  // Trees an image is built from: real directories, real names.
  ghost predicate Plain(t: Tree) {
    WellFormed(t) && forall p :: p in t && p != [] ==> Basename(p) != ""
  }

  // Only the markers of a layer take anything away.
  lemma WhiteOutsKeep(base: Tree, before: Tree, after: Tree, layer: Layer, changed: seq<Path>, removed: seq<Path>)
    requires Plain(before) && Plain(after) && Expressible(before, after)
    requires LayerParts(before, after, layer, changed, removed)
    ensures WhiteOuts(base, layer) == Kept(base, removed)
  {
    var members := Members(after, changed);
    forall p | p in removed ensures Named(p) {
      assert p in PathSet(removed);
    }
    forall k | 0 <= k < |members| ensures members[k].path == [] || !IsMarker(Basename(members[k].path)) {
      assert changed[k] in PathSet(changed) && members[k].path == changed[k];
    }
    hide IsMarker, WellFormed, SortedPaths, Named, Gone;
    MembersWhiteNothing(base, members);
    WhiteOutsInTwo(base, members, Markers(removed));
    MarkersWhiteOut(base, removed);
  }

  lemma LeftAfterWhiteOuts(base: Tree, before: Tree, after: Tree, layer: Layer, changed: seq<Path>, removed: seq<Path>)
    requires Plain(before) && Plain(after) && Expressible(before, after) && SameTree(base, before)
    requires LayerParts(before, after, layer, changed, removed)
    ensures Remains(WhiteOuts(base, layer), before, after)
  {
    WhiteOutsKeep(base, before, after, layer, changed, removed);
    StaysAreLeft(base, before, after, changed, removed);
  }

  lemma StaysAreLeft(base: Tree, before: Tree, after: Tree, changed: seq<Path>, removed: seq<Path>)
    requires WellFormed(before) && WellFormed(after) && SameTree(base, before)
    requires PathSet(removed) == Vanished(Snapshot(before), Snapshot(after))
    ensures Remains(Kept(base, removed), before, after)
  {
    assert Snapshot(before).Keys == before.Keys && Snapshot(after).Keys == after.Keys;
    hide SameNode, Print, Gone, WellFormed;
    forall q | q in before ensures Gone(removed, q) <==> q !in after {
      GoneIsVanished(before, after, removed, q);
    }
  }

  lemma ChangedCovers(before: Tree, after: Tree, layer: Layer, changed: seq<Path>, removed: seq<Path>)
    requires Faithful(before, after) && LayerParts(before, after, layer, changed, removed)
    ensures AllChanged(before, after, changed)
  {
    forall p | p in after && p !in changed ensures p in before && before[p] == after[p] {
      assert p !in PathSet(changed);
      assert p !in Changed(Snapshot(before), Snapshot(after));
    }
  }

  // Onto any tree that differs from the old one in times and mode bits only, the layer of a change
  // extracts without an error and gives the new tree, times and mode bits apart.
  lemma LayerRestoresChange(base: Tree, before: Tree, after: Tree, layer: Layer)
    requires Plain(before) && Plain(after) && Faithful(before, after) && Expressible(before, after)
    requires SameTree(base, before) && IsLayerOf(before, after, layer)
    ensures Extracted(base, layer).Some? && SameTree(Extracted(base, layer).value, after)
  {
    var changed, removed :| LayerParts(before, after, layer, changed, removed);
    var left := WhiteOuts(base, layer);
    LeftAfterWhiteOuts(base, before, after, layer, changed, removed);
    ChangedCovers(before, after, layer, changed, removed);
    forall p | p in changed && p != [] ensures !IsMarker(Basename(p)) {
      assert p in PathSet(changed);
    }
    UnpackSome(left, before, after, changed, |changed|);
    var members := Members(after, changed);
    MarkersUnpackNothing(left, members, removed);
    assert members[..|changed|] == members && changed[..|changed|] == changed;
    OverlaidIsAfter(left, before, after, changed);
  }

  lemma OverlaidIsAfter(left: Tree, before: Tree, after: Tree, changed: seq<Path>)
    requires Remains(left, before, after) && AllChanged(before, after, changed)
    ensures SameTree(Overlaid(left, after, changed), after)
  {
    hide Normal, SameNode;
    var t := Overlaid(left, after, changed);
    assert t.Keys == after.Keys;
    forall p | p in after ensures SameNode(t[p], after[p]) {
      NormalIsSame(after[p]);
    }
  }

  lemma NormalIsSame(n: Node)
    ensures SameNode(Normal(n), n)
  {
  }

  // ---- a reserved name ------------------------------------------------------------------------------

  lemma {:induction false} PrefixesOnly(t: Tree, q: Path, n: nat, p: Path)
    requires n <= |q| && p !in t && !(p < q)
    ensures MadeParents(t, q, n).Some? ==> p !in MadeParents(t, q, n).value
    decreases |q| - n
  {
    if n < |q| {
      assert p == q[..n] ==> p < q;
      if n == 0 {
        PrefixesOnly(t, q, 1, p);
      } else if q[..n] !in t {
        PrefixesOnly(t[q[..n] := Directory(RUNNABLE)], q, n + 1, p);
      } else {
        PrefixesOnly(t, q, n + 1, p);
      }
    }
  }

  lemma {:induction false} UnpackAvoids(t: Tree, layer: Layer, p: Path)
    requires p !in t && p != [] && IsMarker(Basename(p))
    requires forall k :: 0 <= k < |layer| && layer[k].path != [] && !IsMarker(Basename(layer[k].path)) ==>
               !(p < layer[k].path)
    ensures UnpackAll(t, layer).Some? ==> p !in UnpackAll(t, layer).value
  {
    if layer != [] {
      UnpackAvoids(t, layer[..|layer| - 1], p);
      var before, m := UnpackAll(t, layer[..|layer| - 1]), layer[|layer| - 1];
      if before.Some? && m.path != [] && !IsMarker(Basename(m.path)) {
        var here := before.value;
        var replaced := m.path in here && !(m.node.Directory? && here[m.path].Directory?);
        var cleared := if replaced then Without(here, m.path) else here;
        PrefixesOnly(cleared, m.path, 0, p);
      }
    }
  }

  lemma {:induction false} WhiteOutsAddNothing(t: Tree, layer: Layer)
    ensures WhiteOuts(t, layer).Keys <= t.Keys
  {
    if layer != [] {
      WhiteOutsAddNothing(t, layer[..|layer| - 1]);
    }
  }

  // A new entry with nothing below it and a name that reads as a marker never comes back.
  lemma ReservedNameIsLost(base: Tree, before: Tree, after: Tree, layer: Layer, p: Path)
    requires IsLayerOf(before, after, layer) && base.Keys == before.Keys
    requires p != [] && p in after && p !in before && IsMarker(Basename(p)) && forall q :: q in after ==> !(p < q)
    ensures Extracted(base, layer).Some? ==> p !in Extracted(base, layer).value
  {
    var changed, removed :| LayerParts(before, after, layer, changed, removed);
    WhiteOutsAddNothing(base, layer);
    forall k | 0 <= k < |layer| && layer[k].path != [] && !IsMarker(Basename(layer[k].path))
      ensures !(p < layer[k].path)
    {
      if k < |changed| {
        assert layer[k].path == changed[k] && changed[k] in after;
      }
    }
    UnpackAvoids(WhiteOuts(base, layer), layer, p);
  }

  // ---- which names are safe -------------------------------------------------------------------------

  // Every layer of the change restores it, onto every tree that differs in times and mode bits only.
  ghost predicate Restores(before: Tree, after: Tree) {
    forall base: Tree, layer: Layer :: SameTree(base, before) && IsLayerOf(before, after, layer) ==>
      Extracted(base, layer).Some? && SameTree(Extracted(base, layer).value, after)
  }

  ghost predicate Change(before: Tree, after: Tree) {
    Plain(before) && Plain(after) && Faithful(before, after)
  }

  // Nothing new or changed reads as a marker, unless it has this name.
  ghost predicate WritesOnly(before: Tree, after: Tree, name: Name) {
    (forall p :: p in Changed(Snapshot(before), Snapshot(after)) && p != [] ==>
       !IsMarker(Basename(p)) || Basename(p) == name) &&
    forall p :: p in Vanished(Snapshot(before), Snapshot(after)) && p != [] ==> Basename(p) != OPAQUE_NAME
  }

  // Nothing new or changed reads as a marker, and nothing that vanished has the name whose marker means
  // something else, unless it is this name.
  ghost predicate RemovesOnly(before: Tree, after: Tree, name: Name) {
    (forall p :: p in Changed(Snapshot(before), Snapshot(after)) && p != [] ==> !IsMarker(Basename(p))) &&
    forall p :: p in Vanished(Snapshot(before), Snapshot(after)) && p != [] ==>
      Basename(p) != OPAQUE_NAME || Basename(p) == name
  }

  lemma OneFile(p: Path)
    requires |p| == 1 && p[0] != ""
    ensures Plain(map[p := File(PLAIN, [], 0)])
  {
  }

  // A lone new file of a marker's name is in the layer and never comes out of it.
  lemma MarkerNameLost(name: Name)
    requires IsMarker(name)
    ensures !Restores(map[], map[[name] := File(PLAIN, [], 0)])
  {
    var before, after: Tree := map[], map[[name] := File(PLAIN, [], 0)];
    assert Snapshot(after).Keys == {[name]} && Snapshot(before) == map[];
    assert Changed(Snapshot(before), Snapshot(after)) == {[name]};
    var layer := Members(after, [[name]]) + Markers([]);
    assert LayerParts(before, after, layer, [[name]], []);
    ReservedNameIsLost(before, before, after, layer, [name]);
    assert [name] in after;
  }

  // All changes that write no marker-like name but this one are restored if and only if it is not one.
  lemma WrittenNameIff(name: Name)
    requires name != ""
    ensures
      (forall before, after :: Change(before, after) && WritesOnly(before, after, name) ==> Restores(before, after))
      <==> !(".wh." <= name)
  {
    if IsMarker(name) {
      var before, after: Tree := map[], map[[name] := File(PLAIN, [], 0)];
      OneFile([name]);
      MarkerNameLost(name);
      assert Change(before, after) && WritesOnly(before, after, name);
    } else {
      forall before, after | Change(before, after) && WritesOnly(before, after, name) ensures Restores(before, after) {
        assert Expressible(before, after);
        ExpressibleRestores(before, after);
      }
    }
  }

  lemma ExpressibleRestores(before: Tree, after: Tree)
    requires Change(before, after) && Expressible(before, after)
    ensures Restores(before, after)
  {
    hide Expressible, Faithful, Plain, IsLayerOf, Extracted, SameTree;
    forall base: Tree, layer: Layer | SameTree(base, before) && IsLayerOf(before, after, layer)
      ensures Extracted(base, layer).Some? && SameTree(Extracted(base, layer).value, after)
    {
      LayerRestoresChange(base, before, after, layer);
    }
  }

  // The marker for the reserved name is the opaque marker of its directory.
  lemma OpaqueEmpties(t: Tree)
    requires [] !in t
    ensures Extracted(t, [MarkerFor([OPAQUE_NAME])]) == Some(map[])
  {
    var layer := [MarkerFor([OPAQUE_NAME])];
    assert WHITEOUT_PREFIX + OPAQUE_NAME == OPAQUE_MARKER;
    assert Basename([OPAQUE_NAME]) == OPAQUE_NAME && [OPAQUE_NAME][..0] == [];
    assert layer[0].path == [OPAQUE_MARKER];
    assert layer[0].path[..0] == [] && layer[..0] == [];
    assert Emptied(t, []) == map[];
    assert WhiteOuts(t, layer) == WhiteOut(t, layer[0]) == map[];
    assert UnpackAll(map[], layer[..0]) == Some(map[]);
  }

  // Two files, of which the one with the reserved name goes: its marker takes the other along.
  lemma OpaqueNameTakesAll(before: Tree, after: Tree)
    requires before.Keys == {[OPAQUE_NAME], ["a"]} && after.Keys == {["a"]} && before[["a"]] == after[["a"]]
    ensures RemovesOnly(before, after, OPAQUE_NAME) && !Restores(before, after)
  {
    hide Extracted, Normal, Print;
    var p := [OPAQUE_NAME];
    assert Snapshot(before).Keys == before.Keys && Snapshot(after).Keys == after.Keys;
    assert |OPAQUE_NAME| != |"a"|;
    assert Changed(Snapshot(before), Snapshot(after)) == {};
    assert Vanished(Snapshot(before), Snapshot(after)) == {p};
    var layer := Members(after, []) + Markers([p]);
    assert LayerParts(before, after, layer, [], [p]);
    assert layer == [MarkerFor(p)];
    OpaqueEmpties(before);
    assert ["a"] in after;
  }

  // All changes that remove this name, or any but the one reserved, are restored if and only if it is
  // not the one reserved.
  lemma RemovedNameIff(name: Name)
    ensures
      (forall before, after :: Change(before, after) && RemovesOnly(before, after, name) ==> Restores(before, after))
      <==> name != ".wh..opq"
  {
    hide Restores;
    if name == OPAQUE_NAME {
      var file := File(PLAIN, [], 0);
      var after: Tree := map[["a"] := file];
      var before: Tree := after[[OPAQUE_NAME] := file];
      OpaqueNameTakesAll(before, after);
      hide RemovesOnly;
      assert Change(before, after);
    } else {
      forall before, after | Change(before, after) && RemovesOnly(before, after, name) ensures Restores(before, after) {
        assert Expressible(before, after);
        ExpressibleRestores(before, after);
      }
    }
  }

  // ---- a whole image --------------------------------------------------------------------------------

  // The trees between the instructions of a build, and the layer of each instruction.
  ghost predicate IsBuild(stages: seq<Tree>, layers: seq<Layer>) {
    |stages| == |layers| + 1 && stages[0] == map[] &&
    (forall k :: 0 <= k < |stages| ==> Plain(stages[k])) &&
    forall k :: 0 <= k < |layers| ==>
      Faithful(stages[k], stages[k + 1]) && Expressible(stages[k], stages[k + 1]) &&
      IsLayerOf(stages[k], stages[k + 1], layers[k])
  }

  function Folded(layers: seq<Layer>): Option<Tree> {
    if layers == [] then Some(map[])
    else
      match Folded(layers[..|layers| - 1])
      case None => None
      case Some(t) => Extracted(t, layers[|layers| - 1])
  }

  // Unpacking all layers from nothing gives the tree the build ended with.
  lemma {:induction false} LayersFoldToImage(stages: seq<Tree>, layers: seq<Layer>)
    requires IsBuild(stages, layers)
    ensures Folded(layers).Some? && SameTree(Folded(layers).value, stages[|layers|])
  {
    if layers != [] {
      var n := |layers| - 1;
      LayersFoldToImage(stages[..n + 1], layers[..n]);
      LayerRestoresChange(Folded(layers[..n]).value, stages[n], stages[n + 1], layers[n]);
    }
  }
}
