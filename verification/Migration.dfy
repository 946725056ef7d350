// One-time migration of the directories beside the program, interrupted anywhere and started again
// (desktop_app/environment.py, lines 103-127 and 145-183).
module Migration {
  import opened Prelude
  import opened DirectoryTree

  // One root being migrated: its place in the data folder, the copy in progress (empty: no such
  // directory), the `.verified` marker, the journal entry.
  datatype Root = Root(target: Option<Tree>, copied: Tree, marked: bool, committed: bool)

  datatype Step = Remove(path: Path) | MakeFolder(path: Path) | CopyFile(path: Path, bytes: seq<bv8>) | Mark | Install | Commit

  function Apply(r: Root, s: Step): Root {
    match s
    case Remove(p) => r.(copied := r.copied - {p})
    case MakeFolder(p) => r.(copied := r.copied[p := Folder])
    case CopyFile(p, bytes) => r.(copied := r.copied[p := File(bytes)])
    case Mark => r.(marked := true)
    case Install => r.(target := Some(r.copied), copied := map[])
    case Commit => r.(committed := true)
  }

  function ApplyAll(r: Root, steps: seq<Step>): Root {
    if steps == [] then r else Apply(ApplyAll(r, steps[..|steps| - 1]), steps[|steps| - 1])
  }

  lemma ApplyLast(r: Root, xs: seq<Step>, s: Step)
    ensures ApplyAll(r, xs + [s]) == Apply(ApplyAll(r, xs), s)
  {
    assert (xs + [s])[..|xs|] == xs;
  }

  lemma {:induction false} ApplySplit(r: Root, xs: seq<Step>, ys: seq<Step>)
    ensures ApplyAll(r, xs + ys) == ApplyAll(ApplyAll(r, xs), ys)
  {
    if ys == [] {
      assert xs + ys == xs;
    } else {
      assert (xs + ys)[..|xs + ys| - 1] == xs + ys[..|ys| - 1];
      ApplySplit(r, xs, ys[..|ys| - 1]);
    }
  }

  // ---- `copy_verified`, with a source that others may be changing ----

  // One listed entry: what it was when it was copied, and when its digest was compared.
  datatype Visit = Visit(path: Path, seen: Option<Node>, again: Option<Node>)

  // The listing is sorted, so a folder comes before what it holds, and nothing comes twice.
  ghost predicate Sorted(visits: seq<Visit>) {
    && (forall i :: 0 <= i < |visits| ==> visits[i].path != [])
    && (forall i, j :: 0 <= i < j < |visits| ==> !(visits[j].path <= visits[i].path))
  }

  datatype Copying = Copying(steps: seq<Step>, verified: map<Path, seq<bv8>>, error: Option<string>)

  function MakeFolders(paths: seq<Path>): seq<Step> {
    if paths == [] then [] else MakeFolders(paths[..|paths| - 1]) + [MakeFolder(paths[|paths| - 1])]
  }

  // `target.mkdir(parents=True, exist_ok=True)`; `None` is a file in the way.
  function Mkdir(t: Tree, p: Path): Option<seq<Step>> {
    if Standing(t, p) !in t then Some([MakeFolder([])] + MakeFolders(Missing(t, p)))
    else if t[Standing(t, p)] == Folder then Some(MakeFolders(Missing(t, p)))
    else None
  }

  function CopyOne(r: Root, v: Visit): Copying {
    match v.seen
    case None => Copying([], map[], None)
    case Some(Link(_)) => Copying([], map[], Some("Migration cannot follow symbolic links"))
    case Some(Folder) =>
      var made := Mkdir(r.copied, v.path);
      if made.None? then Copying([], map[], Some("not a directory")) else Copying(made.value, map[], None)
    case Some(File(bytes)) =>
      var made := if v.path == [] then None else Mkdir(r.copied, Parent(v.path));
      if made.None? then Copying([], map[], Some("not a directory"))
      else
        var steps := made.value + [CopyFile(v.path, bytes)];
        if v.again == Some(File(bytes)) then Copying(steps, map[v.path := bytes], None)
        else Copying(steps, map[], Some("Migration verification failed"))
  }

  function CopyListed(r: Root, visits: seq<Visit>): Copying {
    if visits == [] then Copying([], map[], None)
    else
      var before := CopyListed(r, visits[..|visits| - 1]);
      if before.error.Some? then before
      else
        var last := CopyOne(ApplyAll(r, before.steps), visits[|visits| - 1]);
        Copying(before.steps + last.steps, before.verified + last.verified, last.error)
  }

  predicate StillThere(verified: map<Path, seq<bv8>>, finally: Tree) {
    forall p :: p in verified ==> p in finally && finally[p] == File(verified[p])
  }

  function CopyVerified(r: Root, visits: seq<Visit>, finally: Tree): Copying {
    var start := Mkdir(r.copied, []);
    if start.None? then Copying([], map[], Some("not a directory"))
    else
      var copying := CopyListed(ApplyAll(r, start.value), visits);
      var steps := start.value + copying.steps;
      if copying.error.Some? then Copying(steps, copying.verified, copying.error)
      else if !StillThere(copying.verified, finally) then Copying(steps, copying.verified, Some("source changed"))
      else Copying(steps, copying.verified, None)
  }

  // ---- A copy that is accepted is exact ----

  ghost predicate OnTheWay(visits: seq<Visit>, p: Path) {
    exists i :: 0 <= i < |visits| && visits[i].seen.Some? && p <= visits[i].path
  }

  // Every file of the copy was verified, and nothing else was.
  ghost predicate Checked(t: Tree, verified: map<Path, seq<bv8>>) {
    && (forall p :: p in t && t[p] != Folder ==> p in verified)
    && (forall p :: p in verified ==> p in t && t[p] == File(verified[p]))
  }

  // Whatever was seen is in the copy, as it was seen.
  ghost predicate Holds(t: Tree, visits: seq<Visit>) {
    forall i :: 0 <= i < |visits| && visits[i].seen.Some? ==> visits[i].path in t && t[visits[i].path] == visits[i].seen.value
  }

  ghost predicate Faithful(t: Tree, visits: seq<Visit>, verified: map<Path, seq<bv8>>) {
    && WellFormed(t) && t[[]] == Folder && Checked(t, verified) && Holds(t, visits)
    && forall p :: p in t && p != [] ==> OnTheWay(visits, p)
  }

  lemma {:induction false} MkdirMakes(r: Root, p: Path)
    requires WellFormed(r.copied) && Mkdir(r.copied, p).Some?
    ensures var t' := ApplyAll(r, Mkdir(r.copied, p).value).copied;
            && ApplyAll(r, Mkdir(r.copied, p).value) == r.(copied := t')
            && WellFormed(t') && p in t' && t'[p] == Folder
            && (forall x :: x in r.copied ==> x in t' && t'[x] == r.copied[x])
            && (forall x :: x in t' && x !in r.copied ==> x <= p && t'[x] == Folder)
    decreases |p|
  {
    var t := r.copied;
    if p !in t {
      assert Parent(p) <= p;
      MkdirMakes(r, Parent(p));
      var above := MakeFolders(Missing(t, Parent(p)));
      ApplyLast(r, above, MakeFolder(p));
      AddedEntry(ApplyAll(r, above).copied, p, Folder);
    }
  }

  lemma SortedPrefix(visits: seq<Visit>, v: Visit)
    requires Sorted(visits + [v])
    ensures Sorted(visits) && v.path != [] && forall i :: 0 <= i < |visits| ==> !(v.path <= visits[i].path)
  {
    var all := visits + [v];
    assert all[|visits|] == v;
    forall i | 0 <= i < |visits| ensures visits[i].path != [] && !(v.path <= visits[i].path) {
      assert all[i] == visits[i];
    }
    forall i, j | 0 <= i < j < |visits| ensures !(visits[j].path <= visits[i].path) {
      assert all[i] == visits[i] && all[j] == visits[j];
    }
  }

  lemma FileAdds(r: Root, p: Path, bytes: seq<bv8>)
    requires WellFormed(r.copied) && p != [] && p !in r.copied && Mkdir(r.copied, Parent(p)).Some?
    ensures var steps := Mkdir(r.copied, Parent(p)).value + [CopyFile(p, bytes)];
            var t' := ApplyAll(r, steps).copied;
            && ApplyAll(r, steps) == r.(copied := t')
            && WellFormed(t') && p in t' && t'[p] == File(bytes)
            && (forall x :: x in r.copied ==> x in t' && t'[x] == r.copied[x])
            && (forall x :: x in t' && x !in r.copied ==> x <= p && (x != p ==> t'[x] == Folder))
  {
    var up := Parent(p);
    MkdirMakes(r, up);
    var made := Mkdir(r.copied, up).value;
    var t1 := ApplyAll(r, made).copied;
    ApplyLast(r, made, CopyFile(p, bytes));
    assert up <= p && !(p <= up);
    AddedEntry(t1, p, File(bytes));
    forall x | x in t1 && x !in r.copied ensures x <= p && x != p && t1[x] == Folder {
    }
  }

  // What one more visit adds: the folders on the way, then the entry.
  lemma CopyOneAdds(r: Root, v: Visit)
    requires WellFormed(r.copied) && v.path != [] && v.path !in r.copied
    requires CopyOne(r, v).error.None?
    ensures var t' := ApplyAll(r, CopyOne(r, v).steps).copied;
            && ApplyAll(r, CopyOne(r, v).steps) == r.(copied := t')
            && WellFormed(t')
            && (forall x :: x in r.copied ==> x in t' && t'[x] == r.copied[x])
            && (forall x :: x in t' && x !in r.copied ==> v.seen.Some? && x <= v.path && (x != v.path ==> t'[x] == Folder))
            && (v.seen.Some? ==> v.path in t' && t'[v.path] == v.seen.value)
  {
    if v.seen == Some(Folder) {
      MkdirMakes(r, v.path);
    } else if v.seen.Some? {
      FileAdds(r, v.path, v.seen.value.bytes);
    }
  }

  lemma NotYetCopied(t: Tree, visits: seq<Visit>, verified: map<Path, seq<bv8>>, p: Path)
    requires Faithful(t, visits, verified) && p != [] && forall i :: 0 <= i < |visits| ==> !(p <= visits[i].path)
    ensures p !in t && p !in verified
  {
  }

  lemma FaithfulNext(t: Tree, t': Tree, visits: seq<Visit>, v: Visit, verified: map<Path, seq<bv8>>, more: map<Path, seq<bv8>>)
    requires Faithful(t, visits, verified) && WellFormed(t')
    requires forall x :: x in t ==> x in t' && t'[x] == t[x]
    requires forall x :: x in t' && x !in t ==> v.seen.Some? && x <= v.path && (x != v.path ==> t'[x] == Folder)
    requires v.seen.Some? ==> v.path in t' && t'[v.path] == v.seen.value
    requires more == if v.seen.Some? && v.seen.value.File? then map[v.path := v.seen.value.bytes] else map[]
    requires v.path !in verified && (v.seen.Some? ==> !v.seen.value.Link?)
    ensures Faithful(t', visits + [v], verified + more)
  {
    HoldsNext(t, t', visits, v);
    forall p | p in t' && p != [] ensures OnTheWay(visits + [v], p) {
      OnTheWayNext(visits, v, p);
    }
    assert Checked(t', verified + more);
  }

  lemma HoldsNext(t: Tree, t': Tree, visits: seq<Visit>, v: Visit)
    requires Holds(t, visits) && forall x :: x in t ==> x in t' && t'[x] == t[x]
    requires v.seen.Some? ==> v.path in t' && t'[v.path] == v.seen.value
    ensures Holds(t', visits + [v])
  {
  }

  lemma OnTheWayNext(visits: seq<Visit>, v: Visit, p: Path)
    ensures OnTheWay(visits + [v], p) <==> OnTheWay(visits, p) || (v.seen.Some? && p <= v.path)
  {
    var all := visits + [v];
    assert all[|visits|] == v;
    if OnTheWay(visits, p) {
      var i :| 0 <= i < |visits| && visits[i].seen.Some? && p <= visits[i].path;
      assert all[i] == visits[i];
    }
  }

  lemma CopyOneVerifies(r: Root, v: Visit)
    requires CopyOne(r, v).error.None?
    ensures v.seen.Some? ==> !v.seen.value.Link?
    ensures CopyOne(r, v).verified == if v.seen.Some? && v.seen.value.File? then map[v.path := v.seen.value.bytes] else map[]
  {
  }

  lemma {:induction false} CopyListedFaithful(r: Root, visits: seq<Visit>)
    requires r.copied == map[[] := Folder] && Sorted(visits)
    requires CopyListed(r, visits).error.None?
    ensures var t := ApplyAll(r, CopyListed(r, visits).steps).copied;
            && ApplyAll(r, CopyListed(r, visits).steps) == r.(copied := t)
            && Faithful(t, visits, CopyListed(r, visits).verified)
  {
    if visits == [] {
    } else {
      var init, v := visits[..|visits| - 1], visits[|visits| - 1];
      assert visits == init + [v];
      SortedPrefix(init, v);
      CopyListedFaithful(r, init);
      var before := CopyListed(r, init);
      var r1 := ApplyAll(r, before.steps);
      NotYetCopied(r1.copied, init, before.verified, v.path);
      CopyOneAdds(r1, v);
      CopyOneVerifies(r1, v);
      var last := CopyOne(r1, v);
      ApplySplit(r, before.steps, last.steps);
      FaithfulNext(r1.copied, ApplyAll(r1, last.steps).copied, init, v, before.verified, last.verified);
    }
  }

  // An accepted copy holds, for every file in it, the bytes the source still has at the end, and every entry
  // that was seen: whoever changed the source meanwhile was noticed.
  lemma AcceptedCopyIsExact(r: Root, visits: seq<Visit>, finally: Tree)
    requires r.copied == map[] && Sorted(visits) && CopyVerified(r, visits, finally).error.None?
    ensures var a := CopyVerified(r, visits, finally);
            var t := ApplyAll(r, a.steps).copied;
            && ApplyAll(r, a.steps) == r.(copied := t)
            && Faithful(t, visits, a.verified) && NoLinks(t)
            && forall p :: p in t && t[p].File? ==> p in finally && finally[p] == t[p]
  {
    var start := Mkdir(r.copied, []).value;
    Started(r);
    var r1 := ApplyAll(r, start);
    CopyListedFaithful(r1, visits);
    var copying := CopyListed(r1, visits);
    ApplySplit(r, start, copying.steps);
    FilesStillThere(ApplyAll(r1, copying.steps).copied, visits, copying.verified, finally);
  }

  lemma FilesStillThere(t: Tree, visits: seq<Visit>, verified: map<Path, seq<bv8>>, finally: Tree)
    requires Faithful(t, visits, verified) && StillThere(verified, finally)
    ensures NoLinks(t) && forall p :: p in t && t[p].File? ==> p in finally && finally[p] == t[p]
  {
  }

  lemma Started(r: Root)
    requires r.copied == map[]
    ensures Mkdir(r.copied, []) == Some([MakeFolder([])])
    ensures ApplyAll(r, [MakeFolder([])]) == r.(copied := map[[] := Folder])
  {
    assert [MakeFolder([])][..0] == [];
    assert [MakeFolder([])] + [] == [MakeFolder([])];
  }

  // ---- With a source nobody changes ----

  ghost predicate Steady(visits: seq<Visit>, source: Tree) {
    forall i :: 0 <= i < |visits| ==> SteadyAt(visits[i], source)
  }

  ghost predicate SteadyAt(v: Visit, source: Tree) {
    v.path in source && v.seen == Some(source[v.path]) && v.again == v.seen
  }

  ghost predicate LinkFree(visits: seq<Visit>) {
    forall i :: 0 <= i < |visits| ==> visits[i].seen.Some? && !visits[i].seen.value.Link?
  }

  ghost predicate Lists(visits: seq<Visit>, source: Tree) {
    && Sorted(visits) && Steady(visits, source)
    && (forall p :: p in source && p != [] ==> exists i :: 0 <= i < |visits| && visits[i].path == p)
  }

  // The copy in progress is part of the source.
  lemma FaithfulIsPart(t: Tree, visits: seq<Visit>, verified: map<Path, seq<bv8>>, source: Tree)
    requires WellFormed(source) && source[[]] == Folder && Faithful(t, visits, verified)
    requires Steady(visits, source)
    ensures forall p :: p in t ==> p in source && t[p] == source[p]
  {
    forall p | p in t ensures p in source && t[p] == source[p] {
      if p != [] {
        var i :| 0 <= i < |visits| && visits[i].seen.Some? && p <= visits[i].path;
        AboveIsFolder(source, visits[i].path, p);
        AboveIsFolder(t, visits[i].path, p);
      }
    }
  }

  // Nothing but a link stops it.
  lemma {:induction false} SteadyCopy(r: Root, visits: seq<Visit>, source: Tree)
    requires r.copied == map[[] := Folder] && WellFormed(source) && source[[]] == Folder && Sorted(visits)
    requires Steady(visits, source)
    ensures CopyListed(r, visits).error.None? <==> LinkFree(visits)
  {
    if visits != [] {
      var init, v := visits[..|visits| - 1], visits[|visits| - 1];
      assert visits == init + [v];
      SortedPrefix(init, v);
      LinkFreeNext(init, v, source);
      assert Steady(init, source) && Sorted(init) && SteadyAt(v, source) && v.path != [];
      SteadyCopy(r, init, source);
      if CopyListed(r, init).error.None? {
        SteadyNext(r, init, v, source);
      }
    }
  }

  lemma SteadyNext(r: Root, visits: seq<Visit>, v: Visit, source: Tree)
    requires r.copied == map[[] := Folder] && WellFormed(source) && source[[]] == Folder
    requires Sorted(visits) && Steady(visits, source) && v.path != [] && SteadyAt(v, source)
    requires CopyListed(r, visits).error.None?
    ensures CopyOne(ApplyAll(r, CopyListed(r, visits).steps), v).error.None? <==> !source[v.path].Link?
  {
    CopyListedFaithful(r, visits);
    SteadyVisit(ApplyAll(r, CopyListed(r, visits).steps), visits, CopyListed(r, visits).verified, v, source);
  }

  lemma LinkFreeNext(visits: seq<Visit>, v: Visit, source: Tree)
    requires Steady(visits + [v], source)
    ensures Steady(visits, source) && SteadyAt(v, source)
    ensures LinkFree(visits + [v]) <==> LinkFree(visits) && !source[v.path].Link?
  {
    var all := visits + [v];
    assert all[|visits|] == v;
    forall i | 0 <= i < |visits| ensures all[i] == visits[i] && SteadyAt(visits[i], source) {
      assert SteadyAt(all[i], source);
    }
  }

  lemma SteadyVisit(r: Root, visits: seq<Visit>, verified: map<Path, seq<bv8>>, v: Visit, source: Tree)
    requires Faithful(r.copied, visits, verified) && Steady(visits, source)
    requires WellFormed(source) && source[[]] == Folder && v.path != [] && SteadyAt(v, source)
    ensures CopyOne(r, v).error.None? <==> !source[v.path].Link?
  {
    FaithfulIsPart(r.copied, visits, verified, source);
    var p := if source[v.path] == Folder then v.path else Parent(v.path);
    assert p <= v.path;
    var ground := Standing(r.copied, p);
    AboveIsFolder(source, v.path, ground);
  }

  // The migration copies a quiet source exactly, and refuses one with a symbolic link.
  lemma QuietCopy(r: Root, visits: seq<Visit>, source: Tree)
    requires r.copied == map[] && WellFormed(source) && source[[]] == Folder && Lists(visits, source)
    ensures CopyVerified(r, visits, source).error.None? <==> NoLinks(source)
    ensures NoLinks(source) ==> ApplyAll(r, CopyVerified(r, visits, source).steps) == r.(copied := source)
  {
    Started(r);
    var r1 := r.(copied := map[[] := Folder]);
    SteadyCopy(r1, visits, source);
    LinkFreeListing(visits, source);
    if NoLinks(source) {
      CopyListedFaithful(r1, visits);
      var copying := CopyListed(r1, visits);
      ApplySplit(r, [MakeFolder([])], copying.steps);
      WholeSource(ApplyAll(r1, copying.steps).copied, visits, copying.verified, source);
    }
  }

  lemma LinkFreeListing(visits: seq<Visit>, source: Tree)
    requires Lists(visits, source) && [] in source && source[[]] == Folder
    ensures LinkFree(visits) <==> NoLinks(source)
  {
    forall p | LinkFree(visits) && p in source ensures !source[p].Link? {
      if p != [] {
        var i :| 0 <= i < |visits| && visits[i].path == p;
        assert SteadyAt(visits[i], source);
      }
    }
    forall i | 0 <= i < |visits| && NoLinks(source) ensures visits[i].seen.Some? && !visits[i].seen.value.Link? {
      assert SteadyAt(visits[i], source);
    }
  }

  lemma WholeSource(t: Tree, visits: seq<Visit>, verified: map<Path, seq<bv8>>, source: Tree)
    requires WellFormed(source) && source[[]] == Folder && Lists(visits, source) && Faithful(t, visits, verified)
    ensures t == source && StillThere(verified, source)
  {
    FaithfulIsPart(t, visits, verified, source);
    forall p | p in source ensures p in t {
      if p != [] {
        var i :| 0 <= i < |visits| && visits[i].path == p;
        assert SteadyAt(visits[i], source);
      }
    }
  }
}
