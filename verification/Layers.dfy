/**
 * Image layers: imagekit/layer.py and the snapshots of imagekit/build.py.
 *
 * A tree maps every path below its root to what is there; the root itself is not an entry. Paths are
 * the names on the way down. A link is never followed: links to directories are not part of this model.
 */
module Layers {
  import opened Wrappers

  type Name = string

  type Path = seq<Name>

  // Permission bits, of which only the owner's right to execute matters to a layer.
  type Mode = nat

  datatype Node = Directory(mode: Mode) | File(mode: Mode, content: seq<int>, mtime: int) | Link(target: string)

  type Tree = map<Path, Node>

  datatype Member = Member(path: Path, node: Node)

  type Layer = seq<Member>

  const WHITEOUT_PREFIX := ".wh."

  const OPAQUE_MARKER := ".wh..wh..opq"

  const RUNNABLE: Mode := 0x1ED

  const PLAIN: Mode := 0x1A4

  predicate Executable(mode: Mode) {
    mode / 0x40 % 2 == 1
  }

  // What the archive keeps of a node: no times, and the mode reduced to the executable bit.
  function Normal(n: Node): Node {
    match n
    case Directory(_) => Directory(RUNNABLE)
    case File(mode, content, _) => File(if Executable(mode) then RUNNABLE else PLAIN, content, 0)
    case Link(_) => n
  }

  // The same but for times and mode bits: the kind, the bytes of a file and whether its owner may
  // execute it, the target of a link.
  predicate SameNode(a: Node, b: Node) {
    match (a, b)
    case (Directory(_), Directory(_)) => true
    case (File(m, c, _), File(n, d, _)) => c == d && m / 0x40 % 2 == n / 0x40 % 2
    case (Link(x), Link(y)) => x == y
    case _ => false
  }

  // The same paths, and the same at each of them.
  ghost predicate SameTree(a: Tree, b: Tree) {
    a.Keys == b.Keys && forall p :: p in a ==> SameNode(a[p], b[p])
  }

  // Every entry lies in a directory that is there.
  ghost predicate WellFormed(t: Tree) {
    forall p :: p in t ==> p != [] && forall n :: 0 < n < |p| ==> p[..n] in t && t[p[..n]].Directory?
  }

  function Basename(p: Path): Name
    requires p != []
  {
    p[|p| - 1]
  }

  predicate IsMarker(name: Name) {
    WHITEOUT_PREFIX <= name
  }

  // ---- snapshots and their difference -------------------------------------------------------------

  datatype Fingerprint = Fingerprint(kind: char, mode: Option<Mode>, size: nat, mtime: int, target: string)

  function Print(n: Node): Fingerprint {
    match n
    case Link(target) => Fingerprint('l', None, 0, 0, target)
    case Directory(mode) => Fingerprint('d', Some(mode), 0, 0, "")
    case File(mode, content, mtime) => Fingerprint('f', Some(mode), |content|, mtime, "")
  }

  function Snapshot(t: Tree): map<Path, Fingerprint> {
    map p | p in t :: Print(t[p])
  }

  function Changed(before: map<Path, Fingerprint>, after: map<Path, Fingerprint>): set<Path> {
    set p | p in after && (p !in before || before[p] != after[p])
  }

  function Vanished(before: map<Path, Fingerprint>, after: map<Path, Fingerprint>): set<Path> {
    before.Keys - after.Keys
  }

  // ---- sorted paths -------------------------------------------------------------------------------

  // How paths are written and therefore sorted.
  function Joined(p: Path): string {
    if p == [] then "" else if |p| == 1 then p[0] else Joined(p[..|p| - 1]) + "/" + p[|p| - 1]
  }

  predicate Leq(a: string, b: string) {
    a == "" || (b != "" && (a[0] < b[0] || (a[0] == b[0] && Leq(a[1..], b[1..]))))
  }

  ghost predicate SortedPaths(paths: seq<Path>) {
    forall i, j :: 0 <= i < j < |paths| ==> paths[i] != paths[j] && Leq(Joined(paths[i]), Joined(paths[j]))
  }

  function PathSet(paths: seq<Path>): set<Path> {
    set p | p in paths
  }

  // ---- layers -------------------------------------------------------------------------------------

  function Members(t: Tree, paths: seq<Path>): Layer
    requires forall p :: p in paths ==> p in t
  {
    seq(|paths|, k requires 0 <= k < |paths| => Member(paths[k], Normal(t[paths[k]])))
  }

  function MarkerFor(p: Path): Member
    requires p != []
  {
    Member(p[..|p| - 1] + [WHITEOUT_PREFIX + Basename(p)], File(PLAIN, [], 0))
  }

  function Markers(paths: seq<Path>): Layer
    requires [] !in paths
  {
    seq(|paths|, k requires 0 <= k < |paths| => MarkerFor(paths[k]))
  }

  // The layer of a RUN instruction: what changed, and a marker for what vanished.
  ghost predicate IsLayerOf(before: Tree, after: Tree, layer: Layer) {
    exists changed, removed :: LayerParts(before, after, layer, changed, removed)
  }

  ghost predicate LayerParts(before: Tree, after: Tree, layer: Layer, changed: seq<Path>, removed: seq<Path>) {
    SortedPaths(changed) && PathSet(changed) == Changed(Snapshot(before), Snapshot(after)) &&
    SortedPaths(removed) && PathSet(removed) == Vanished(Snapshot(before), Snapshot(after)) &&
    (forall p :: p in changed ==> p in after) && [] !in removed &&
    layer == Members(after, changed) + Markers(removed)
  }

  // ---- extraction -----------------------------------------------------------------------------------

  // A path goes with everything below it.
  function Without(t: Tree, p: Path): Tree {
    map q | q in t && !(p <= q) :: t[q]
  }

  function Emptied(t: Tree, p: Path): Tree {
    map q | q in t && !(p < q) :: t[q]
  }

  predicate IsDirectory(t: Tree, p: Path) {
    p == [] || (p in t && t[p].Directory?)
  }

  // The first pass over one member: only whiteouts do anything.
  function WhiteOut(t: Tree, m: Member): Tree {
    if m.path == [] then t
    else
      var parent, name := m.path[..|m.path| - 1], Basename(m.path);
      if name == OPAQUE_MARKER then
        if IsDirectory(t, parent) then Emptied(t, parent) else t
      else if name == WHITEOUT_PREFIX then
        // A marker without a name stands for the directory it is in.
        if IsDirectory(t, parent) then Without(t, parent) else t
      else if IsMarker(name) then Without(t, parent + [name[|WHITEOUT_PREFIX|..]])
      else t
  }

  function WhiteOuts(t: Tree, layer: Layer): Tree {
    if layer == [] then t else WhiteOut(WhiteOuts(t, layer[..|layer| - 1]), layer[|layer| - 1])
  }

  // Missing directories on the way to a path are made; anything else in the way is an error.
  function MadeParents(t: Tree, p: Path, n: nat): Option<Tree>
    requires n <= |p|
    decreases |p| - n
  {
    if n >= |p| then Some(t)
    else if n == 0 then MadeParents(t, p, 1)
    else if p[..n] !in t then MadeParents(t[p[..n] := Directory(RUNNABLE)], p, n + 1)
    else if t[p[..n]].Directory? then MadeParents(t, p, n + 1)
    else None
  }

  // The second pass over one member: whatever else is at its path goes, except a directory that stays
  // a directory.
  function Unpack(t: Tree, m: Member): Option<Tree> {
    if m.path == [] || IsMarker(Basename(m.path)) then Some(t)
    else
      var cleared := if m.path in t && !(m.node.Directory? && t[m.path].Directory?) then Without(t, m.path) else t;
      match MadeParents(cleared, m.path, 0)
      case None => None
      case Some(ready) => Some(ready[m.path := m.node])
  }

  function UnpackAll(t: Tree, layer: Layer): Option<Tree> {
    if layer == [] then Some(t)
    else
      match UnpackAll(t, layer[..|layer| - 1])
      case None => None
      case Some(earlier) => Unpack(earlier, layer[|layer| - 1])
  }

  // extract_layer on a tree; None when it raises.
  function Extracted(t: Tree, layer: Layer): Option<Tree> {
    UnpackAll(WhiteOuts(t, layer), layer)
  }
}
