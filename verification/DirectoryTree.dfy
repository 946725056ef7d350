// Directory trees as values: what `exists`, `mkdir(parents=True)` and recursive listing see of one.
module DirectoryTree {
  type Path = seq<string>

  datatype Node = Folder | File(bytes: seq<bv8>) | Link(to: string)

  // Every entry below a root, the root itself being the empty path.
  type Tree = map<Path, Node>

  function Parent(p: Path): Path
    requires p != []
  {
    p[..|p| - 1]
  }

  ghost predicate WellFormed(t: Tree) {
    && [] in t && !t[[]].Link?
    && forall p :: p in t && p != [] ==> Parent(p) in t && t[Parent(p)] == Folder
  }

  ghost predicate NoLinks(t: Tree) {
    forall p :: p in t ==> !t[p].Link?
  }

  lemma {:induction false} AboveIsFolder(t: Tree, p: Path, q: Path)
    requires WellFormed(t) && p in t && q <= p
    ensures q in t && (q != p ==> t[q] == Folder)
    decreases |p|
  {
    if q == p {
    } else {
      assert q <= Parent(p);
      AboveIsFolder(t, Parent(p), q);
    }
  }

  // The nearest entry at or above a path.
  function Standing(t: Tree, p: Path): (q: Path)
    ensures q <= p && ([] in t ==> q in t)
  {
    if p in t || p == [] then p else Standing(t, Parent(p))
  }

  // The folders `mkdir(parents=True)` makes, topmost first.
  function Missing(t: Tree, p: Path): seq<Path> {
    if p in t || p == [] then [] else Missing(t, Parent(p)) + [p]
  }

  // A file blocks everything below it.
  lemma {:induction false} StandsOnFile(t: Tree, q: Path, p: Path)
    requires WellFormed(t) && q in t && t[q] != Folder && q <= p
    ensures Standing(t, p) == q
    decreases |p|
  {
    if p in t {
      AboveIsFolder(t, p, q);
    } else {
      assert q != p && q <= Parent(p);
      StandsOnFile(t, q, Parent(p));
    }
  }

  lemma AddedEntry(t: Tree, p: Path, n: Node)
    requires WellFormed(t) && p != [] && p !in t && Parent(p) in t && t[Parent(p)] == Folder
    ensures WellFormed(t[p := n])
  {
    forall x | x in t && x != [] ensures Parent(x) != p {
    }
    assert Parent(p) != p;
  }
}
