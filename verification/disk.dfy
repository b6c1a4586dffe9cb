/**
  The file system as the restore job changes it.  Any operation may also fail for a reason of the
  operating system; `faults` counts those failures and `trail` records every state passed through.
 */
module DiskOps {
  import opened FileTree
  import opened WorldArchive

  /** Nothing at or below `root` differs between the two trees. */
  ghost predicate Untouched(a: Tree, b: Tree, root: Path) {
    forall q :: root <= q ==> (q in a <==> q in b) && (q in a ==> a[q] == b[q])
  }

  lemma UntouchedHolds(a: Tree, b: Tree, root: Path, w: Tree)
    requires Untouched(a, b, root) && Holds(a, root, w)
    ensures Holds(b, root, w)
  {
    forall q ensures root <= root + q {
    }
  }

  /** The entries of `p` and above that are missing, as folders. */
  function MissingFolders(fs: Tree, p: Path): Tree {
    map q | q in Prefixes(p) && q !in fs :: Folder
  }

  lemma MissingFoldersAbove(fs: Tree, p: Path, root: Path)
    requires !(root <= p)
    ensures Untouched(fs, fs + MissingFolders(fs, p), root)
  {
    forall q | q in MissingFolders(fs, p) ensures !(root <= q) {
      AboveStaysAbove(root, q, p);
    }
  }

  lemma AboveStaysAbove(root: Path, q: Path, p: Path)
    requires q <= p && !(root <= p)
    ensures !(root <= q)
  {
    if |root| <= |q| {
      assert q[..|root|] == p[..|root|];
    }
  }

  lemma OutsideUntouched(a: Tree, b: Tree, target: Path, root: Path)
    requires SameOutside(a, b, target) && Unrelated(root, target)
    ensures Untouched(a, b, root)
  {
    forall q | root <= q && (q in a || q in b) ensures !(target <= q) {
      ApartBelow(target, root, q);
    }
  }

  predicate CanMakeDirs(fs: Tree, p: Path) {
    forall k :: 0 <= k <= |p| && p[..k] in fs ==> fs[p[..k]].Folder?
  }

  class Disk {
    var tree: Tree
    ghost var trail: seq<Tree>
    ghost var faults: nat

    constructor (tree: Tree)
      ensures this.tree == tree && trail == [tree] && faults == 0
    {
      this.tree := tree;
      trail := [tree];
      faults := 0;
    }

    /** An unpredictable failure of the operating system. */
    method Faulty() returns (fault: bool)
      modifies this`faults
      ensures faults == old(faults) + if fault then 1 else 0
    {
      fault := *;
      if fault {
        faults := faults + 1;
      }
    }

    /** `os.replace(src, dst)` */
    method Replace(src: Path, dst: Path) returns (ok: bool)
      modifies this
      ensures ok ==> ReplaceAllowed(old(tree), src, dst) && tree == Rename(old(tree), src, dst)
      ensures !ok ==> tree == old(tree)
      ensures trail == old(trail) + [tree]
      ensures faults >= old(faults)
      ensures ReplaceAllowed(old(tree), src, dst) && faults == old(faults) ==> ok
    {
      var fault := Faulty();
      ok := ReplaceAllowed(tree, src, dst) && !fault;
      if ok {
        tree := Rename(tree, src, dst);
      }
      trail := trail + [tree];
    }

    /** `path.mkdir(parents=True, exist_ok=True)` */
    method MakeDirs(p: Path) returns (ok: bool)
      modifies this
      ensures ok ==> CanMakeDirs(old(tree), p) && IsFolder(tree, p) && tree == old(tree) + MissingFolders(old(tree), p)
      ensures CanMakeDirs(old(tree), p) && faults == old(faults) ==> ok
      ensures tree == old(tree) || tree == old(tree) + MissingFolders(old(tree), p)
      ensures forall root :: !(root <= p) ==> Untouched(old(tree), tree, root)
      ensures trail == old(trail) + [tree]
      ensures faults >= old(faults)
    {
      var fault := Faulty();
      ok := CanMakeDirs(tree, p) && !fault;
      if ok {
        assert p[..|p|] == p;
        tree := tree + MissingFolders(tree, p);
      }
      trail := trail + [tree];
      forall root | !(root <= p) ensures Untouched(old(tree), tree, root) {
        MissingFoldersAbove(old(tree), p, root);
      }
    }

    /**
      `_safe_rmtree(path)`: errors are ignored, so anything may be left over; the parent folder goes
      too when it is empty afterwards.
     */
    method RemoveTree(p: Path) returns (ghost complete: bool)
      requires p != []
      modifies this
      ensures forall q :: q in tree ==> q in old(tree) && tree[q] == old(tree)[q]
      ensures forall q :: q in old(tree) && !(p <= q) && q != Parent(p) ==> q in tree
      ensures Parent(p) in old(tree) && Parent(p) !in tree ==> forall q :: q in tree ==> !(Parent(p) <= q)
      ensures !Exists(old(tree), p) ==> tree == old(tree)
      ensures complete && Exists(old(tree), p) ==> forall q :: p <= q ==> q !in tree
      ensures (complete && Exists(old(tree), p) && IsFolder(old(tree), Parent(p))
               && forall q :: q in old(tree) && Parent(p) <= q ==> q == Parent(p) || p <= q) ==> Parent(p) !in tree
      ensures faults == old(faults) ==> complete
      ensures trail == old(trail) + [tree]
      ensures faults >= old(faults)
    {
      complete := true;
      if Exists(tree, p) {
        var fault := Faulty();
        complete := !fault;
        var left: set<Path> := {};
        if fault {
          left := *;
        }
        tree := map q | q in tree && (!(p <= q) || q in left) :: tree[q];
        if IsEmptyFolder(tree, Parent(p)) {
          tree := tree - {Parent(p)};
        }
      }
      trail := trail + [tree];
    }

    /** Unpacks one archive member below `target`, creating the folders above it. */
    method ExtractMember(target: Path, m: Member) returns (ok: bool)
      modifies this
      ensures ok ==> !Clashes(Subtree(old(tree), target), m)
      ensures ok ==> tree == Graft(old(tree), target, Unpack(Subtree(old(tree), target), m))
      ensures !Clashes(Subtree(old(tree), target), m) && faults == old(faults) ==> ok
      ensures !ok ==> tree == old(tree)
      ensures SameOutside(old(tree), tree, target)
      ensures trail == old(trail) + [tree]
      ensures faults >= old(faults)
    {
      var fault := Faulty();
      ok := !Clashes(Subtree(tree, target), m) && !fault;
      if ok {
        tree := Graft(tree, target, Unpack(Subtree(tree, target), m));
      }
      trail := trail + [tree];
    }

    /** `shutil.copy2(src, dst)` onto a file or a free name. */
    method CopyFile(src: Path, dst: Path) returns (ok: bool)
      requires IsFile(tree, src) && (dst in tree ==> IsFile(tree, dst))
      modifies this
      ensures ok ==> tree == old(tree)[dst := old(tree)[src]]
      ensures faults == old(faults) ==> ok
      ensures !ok ==> tree == old(tree)
      ensures trail == old(trail) + [tree]
      ensures faults >= old(faults)
    {
      var fault := Faulty();
      ok := !fault;
      if ok {
        tree := tree[dst := tree[src]];
      }
      trail := trail + [tree];
    }
  }
}
