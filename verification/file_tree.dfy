/**
  A file system as a map from paths to entries, with the few operations the backup engine uses.
  A path is the list of its components, so one path lies below another when the other is a prefix.
 */
module FileTree {

  type Path = seq<string>

  /** A symbolic link is never followed here: as a target it counts as dangling. */
  datatype Entry = File(data: seq<nat>) | Folder | Link

  type Tree = map<Path, Entry>

  predicate Exists(fs: Tree, p: Path) {
    p in fs && !fs[p].Link?
  }

  predicate IsFolder(fs: Tree, p: Path) {
    p in fs && fs[p].Folder?
  }

  predicate IsFile(fs: Tree, p: Path) {
    p in fs && fs[p].File?
  }

  predicate NoLinkAt(fs: Tree, p: Path) {
    p in fs ==> !fs[p].Link?
  }

  /** The trees agree at one path. */
  predicate SameAt(a: Tree, b: Tree, p: Path) {
    (p in a <==> p in b) && (p in a ==> a[p] == b[p])
  }

  function Parent(p: Path): Path
    requires p != []
  {
    p[..|p| - 1]
  }

  /** Every entry sits in a folder. */
  ghost predicate WellFormed(fs: Tree) {
    forall p :: p in fs && p != [] ==> IsFolder(fs, Parent(p))
  }

  /** A path and the paths above it. */
  function Prefixes(p: Path): (r: set<Path>)
    ensures forall q :: q in r <==> q <= p
  {
    assert forall q :: q <= p ==> q == p[..|q|];
    set k | 0 <= k <= |p| :: p[..k]
  }

  predicate Unrelated(a: Path, b: Path) {
    !(a <= b) && !(b <= a)
  }

  // ---------------------------------------------------------------------------
  // Subtrees
  // ---------------------------------------------------------------------------

  /** The tree below `root` is exactly `w`. */
  ghost predicate Holds(fs: Tree, root: Path, w: Tree) {
    && (forall q :: q in w <==> root + q in fs)
    && (forall q :: q in w ==> root + q in fs && fs[root + q] == w[q])
  }

  lemma SplitPath(root: Path, p: Path)
    requires root <= p
    ensures p == root + p[|root|..]
  {
  }

  /** The paths below `root`, relative to it. */
  function Tails(fs: Tree, root: Path): (r: set<Path>)
    ensures forall q :: q in r <==> root + q in fs
  {
    assert forall q :: (root + q)[|root|..] == q && root <= root + q;
    assert forall p :: root <= p ==> p == root + p[|root|..];
    set p | p in fs && root <= p :: p[|root|..]
  }

  function Subtree(fs: Tree, root: Path): (w: Tree)
    ensures Holds(fs, root, w)
  {
    map q | q in Tails(fs, root) :: fs[root + q]
  }

  lemma HoldsUnique(fs: Tree, root: Path, w: Tree)
    requires Holds(fs, root, w)
    ensures w == Subtree(fs, root)
  {
    forall q ensures q in w <==> q in Subtree(fs, root) {
      assert root + q in fs <==> q in w;
    }
  }

  /** The entries that are not at or below `root`. */
  function Prune(fs: Tree, root: Path): Tree {
    map p | p in fs && !(root <= p) :: fs[p]
  }

  /** The paths of `w`, shifted below `root`. */
  function Shifted(root: Path, w: Tree): (r: set<Path>)
    ensures forall q :: q in w <==> root + q in r
    ensures forall p :: p in r ==> root <= p && p[|root|..] in w
  {
    assert forall q :: (root + q)[|root|..] == q;
    set q | q in w :: root + q
  }

  /** The tree `w`, shifted below `root`. */
  function Place(root: Path, w: Tree): (r: Tree)
    ensures forall q :: q in w <==> root + q in r
    ensures forall q :: q in w ==> root + q in r && r[root + q] == w[q]
    ensures forall p :: p in r ==> root <= p && p[|root|..] in w
  {
    assert forall q :: (root + q)[|root|..] == q;
    map p | p in Shifted(root, w) :: w[p[|root|..]]
  }

  /** `fs` with whatever was at `root` replaced by `w`. */
  function Graft(fs: Tree, root: Path, w: Tree): (r: Tree)
    ensures Holds(r, root, w)
    ensures SameOutside(fs, r, root)
  {
    Prune(fs, root) + Place(root, w)
  }

  /** Two trees that agree away from `root`. */
  ghost predicate SameOutside(a: Tree, b: Tree, root: Path) {
    forall p :: !(root <= p) ==> (p in a <==> p in b) && (p in a ==> a[p] == b[p])
  }

  /** No path lies below two unrelated ones. */
  lemma ApartBelow(a: Path, b: Path, p: Path)
    requires Unrelated(a, b) && b <= p
    ensures !(a <= p)
  {
    if |a| <= |b| {
      assert p[..|a|] == b[..|a|];
    } else if |a| <= |p| {
      assert p[..|a|][..|b|] == b;
    }
  }

  // ---------------------------------------------------------------------------
  // Operations
  // ---------------------------------------------------------------------------

  predicate IsEmptyFolder(fs: Tree, p: Path) {
    IsFolder(fs, p) && forall q :: q in fs && p <= q ==> q == p
  }

  /** When `os.replace(src, dst)` succeeds, short of an I/O error. */
  predicate ReplaceAllowed(fs: Tree, src: Path, dst: Path) {
    && src in fs && !(src <= dst) && dst != [] && IsFolder(fs, Parent(dst))
    && (dst in fs ==> if fs[src].Folder? then IsEmptyFolder(fs, dst) else !fs[dst].Folder?)
  }

  function Rename(fs: Tree, src: Path, dst: Path): Tree {
    Graft(Prune(fs, src), dst, Subtree(fs, src))
  }

  /** A rename moves one subtree and touches nothing else. */
  lemma RenameMoves(fs: Tree, src: Path, dst: Path, w: Tree)
    requires Unrelated(src, dst) && Holds(fs, src, w)
    ensures Holds(Rename(fs, src, dst), dst, w)
    ensures forall p :: src <= p ==> p !in Rename(fs, src, dst)
    ensures forall p :: !(src <= p) && !(dst <= p) ==>
              (p in fs <==> p in Rename(fs, src, dst)) && (p in fs ==> fs[p] == Rename(fs, src, dst)[p])
  {
    HoldsUnique(fs, src, w);
    forall p | src <= p ensures p !in Rename(fs, src, dst) {
      ApartBelow(dst, src, p);
    }
  }
}
