// Migration from directories that others may be changing all the while, across any number of crashes: a root in
// the data folder is still absent or one whole verified copy (desktop_app/environment.py, lines 103-127 and
// 145-183).
module MigrationChanges {
  import opened Prelude
  import opened DirectoryTree
  import opened Migration
  import opened MigrationRun

  // What a copy that passed every check holds: all that was seen, as it was seen, and no file but with the
  // bytes the source has at the end.
  ghost predicate Accepted(t: Tree, scan: Scan) {
    && WellFormed(t) && t[[]] == Folder && NoLinks(t) && Holds(t, scan.visits)
    && (forall p :: p in t && t[p].File? ==> p in scan.finally && scan.finally[p] == t[p])
    && (forall p :: p in t && p != [] ==> OnTheWay(scan.visits, p))
  }

  ghost predicate AcceptedOnce(t: Tree, seen: seq<Scan>) {
    exists i :: 0 <= i < |seen| && Accepted(t, seen[i])
  }

  // The target is absent, or a copy that was accepted in some run.
  ghost predicate Whole(r: Root, seen: seq<Scan>) {
    if r.target.None? then !r.committed && (r.copied == map[] || [] in r.copied)
    else r.copied == map[] && r.marked && AcceptedOnce(r.target.value, seen)
  }

  // So it is after each of the steps.
  ghost predicate WholeThroughout(r: Root, steps: seq<Step>, seen: seq<Scan>) {
    Whole(ApplyAll(r, steps), seen) && (steps != [] ==> WholeThroughout(r, steps[..|steps| - 1], seen))
  }

  // `rmtree` finds everything an earlier run left; `rglob` is sorted.
  ghost predicate Meets(r: Root, scan: Scan) {
    (forall p :: p in r.copied && p != [] ==> p in scan.removal) && Sorted(scan.visits)
  }

  lemma {:induction false} WholeConcat(r: Root, xs: seq<Step>, ys: seq<Step>, seen: seq<Scan>)
    requires WholeThroughout(r, xs, seen) && WholeThroughout(ApplyAll(r, xs), ys, seen)
    ensures WholeThroughout(r, xs + ys, seen)
  {
    if ys == [] {
      assert xs + ys == xs;
    } else {
      ApplySplit(r, xs, ys);
      WholeConcat(r, xs, ys[..|ys| - 1], seen);
      assert (xs + ys)[..|xs + ys| - 1] == xs + ys[..|ys| - 1];
    }
  }

  lemma WholeOne(r: Root, s: Step, seen: seq<Scan>)
    requires Whole(r, seen) && Whole(Apply(r, s), seen)
    ensures WholeThroughout(r, [s], seen) && ApplyAll(r, [s]) == Apply(r, s)
  {
    assert [s][..0] == [];
  }

  // ---- Building the copy ----

  ghost predicate Building(r: Root) {
    r.target.None? && !r.committed && [] in r.copied
  }

  predicate Builds(s: Step) {
    s.MakeFolder? || s.CopyFile? || (s.Remove? && s.path != []) || s.Mark?
  }

  lemma {:induction false} StaysBuilding(r: Root, steps: seq<Step>)
    requires Building(r) && forall s :: s in steps ==> Builds(s)
    ensures Building(ApplyAll(r, steps))
  {
    if steps != [] {
      assert steps[|steps| - 1] in steps;
      StaysBuilding(r, steps[..|steps| - 1]);
    }
  }

  lemma {:induction false} BuildingWhole(r: Root, steps: seq<Step>, seen: seq<Scan>)
    requires Building(r) && forall s :: s in steps ==> Builds(s)
    ensures WholeThroughout(r, steps, seen) && Building(ApplyAll(r, steps))
  {
    StaysBuilding(r, steps);
    if steps != [] {
      BuildingWhole(r, steps[..|steps| - 1], seen);
    }
  }

  lemma {:induction false} FoldersBuild(paths: seq<Path>)
    ensures forall s :: s in MakeFolders(paths) ==> Builds(s)
  {
    if paths != [] {
      FoldersBuild(paths[..|paths| - 1]);
    }
  }

  lemma MkdirBuilds(t: Tree, p: Path)
    requires Mkdir(t, p).Some?
    ensures forall s :: s in Mkdir(t, p).value ==> Builds(s)
  {
    FoldersBuild(Missing(t, p));
  }

  lemma VisitBuilds(r: Root, v: Visit)
    ensures forall s :: s in CopyOne(r, v).steps ==> Builds(s)
  {
    if v.seen == Some(Folder) && Mkdir(r.copied, v.path).Some? {
      MkdirBuilds(r.copied, v.path);
    } else if v.seen.Some? && v.seen.value.File? && v.path != [] && Mkdir(r.copied, Parent(v.path)).Some? {
      MkdirBuilds(r.copied, Parent(v.path));
    }
  }

  lemma {:induction false} ListedBuilds(r: Root, visits: seq<Visit>)
    ensures forall s :: s in CopyListed(r, visits).steps ==> Builds(s)
  {
    if visits != [] {
      ListedBuilds(r, visits[..|visits| - 1]);
      VisitBuilds(ApplyAll(r, CopyListed(r, visits[..|visits| - 1]).steps), visits[|visits| - 1]);
    }
  }

  lemma CopyWhole(r: Root, visits: seq<Visit>, finally: Tree, seen: seq<Scan>)
    requires r.target.None? && !r.committed && r.copied == map[]
    ensures WholeThroughout(r, CopyVerified(r, visits, finally).steps, seen)
    ensures Building(ApplyAll(r, CopyVerified(r, visits, finally).steps))
  {
    Started(r);
    WholeOne(r, MakeFolder([]), seen);
    var r1 := r.(copied := map[[] := Folder]);
    var steps := CopyListed(r1, visits).steps;
    ListedBuilds(r1, visits);
    BuildingWhole(r1, steps, seen);
    WholeConcat(r, [MakeFolder([])], steps, seen);
    ApplySplit(r, [MakeFolder([])], steps);
  }

  // ---- Clearing what an earlier run left ----

  lemma {:induction false} BelowCleared(r: Root, removal: seq<Path>)
    requires Building(r)
    ensures forall s :: s in ClearBelow(r, removal) ==> Builds(s)
    ensures var r' := ApplyAll(r, ClearBelow(r, removal));
            && r' == r.(copied := r'.copied) && [] in r'.copied
            && forall p :: p in r'.copied ==> p in r.copied && (p == [] || p !in removal)
  {
    if removal != [] {
      var init, p := removal[..|removal| - 1], removal[|removal| - 1];
      assert removal == init + [p];
      BelowCleared(r, init);
      var before := ClearBelow(r, init);
      if p != [] && p in ApplyAll(r, before).copied {
        ApplyLast(r, before, Remove(p));
      }
    }
  }

  lemma ClearWhole(r: Root, scan: Scan, seen: seq<Scan>)
    requires Whole(r, seen) && r.target.None? && Meets(r, scan)
    ensures WholeThroughout(r, Clear(r, scan.removal), seen)
    ensures ApplyAll(r, Clear(r, scan.removal)) == r.(copied := map[])
  {
    if [] in r.copied {
      var below := ClearBelow(r, scan.removal);
      BelowCleared(r, scan.removal);
      BuildingWhole(r, below, seen);
      var r1 := ApplyAll(r, below);
      assert r1.copied - {[]} == map[];
      WholeOne(r1, Remove([]), seen);
      WholeConcat(r, below, [Remove([])], seen);
      ApplyLast(r, below, Remove([]));
    }
  }

  // ---- Putting it in place ----

  lemma AcceptedAtLast(seen: seq<Scan>, scan: Scan, t: Tree)
    requires Accepted(t, scan)
    ensures AcceptedOnce(t, seen + [scan])
  {
    assert (seen + [scan])[|seen|] == scan;
  }

  lemma InPlaceWhole(r: Root, seen: seq<Scan>)
    requires Building(r) && AcceptedOnce(r.copied, seen)
    ensures WholeThroughout(r, [Mark, Install, Commit], seen)
    ensures ApplyAll(r, [Mark, Install, Commit]) == Root(Some(r.copied), map[], true, true)
  {
    WholeOne(r, Mark, seen);
    var r1 := Apply(r, Mark);
    WholeOne(r1, Install, seen);
    var r2 := Apply(r1, Install);
    WholeOne(r2, Commit, seen);
    WholeConcat(r1, [Install], [Commit], seen);
    ApplySplit(r1, [Install], [Commit]);
    WholeConcat(r, [Mark], [Install] + [Commit], seen);
    ApplySplit(r, [Mark], [Install] + [Commit]);
    assert [Mark] + ([Install] + [Commit]) == [Mark, Install, Commit];
  }

  lemma CopyIsAccepted(r: Root, scan: Scan)
    requires r.copied == map[] && Sorted(scan.visits) && CopyVerified(r, scan.visits, scan.finally).error.None?
    ensures Accepted(ApplyAll(r, CopyVerified(r, scan.visits, scan.finally).steps).copied, scan)
  {
    AcceptedCopyIsExact(r, scan.visits, scan.finally);
  }

  lemma MoreSeen(r: Root, seen: seq<Scan>, scan: Scan)
    requires Whole(r, seen)
    ensures Whole(r, seen + [scan])
  {
    if r.target.Some? {
      var i :| 0 <= i < |seen| && Accepted(r.target.value, seen[i]);
      assert (seen + [scan])[i] == seen[i];
    }
  }

  // One run at one root, whatever the copy met: whole at every write, and installed if nothing was raised.
  lemma RootStaysWhole(r: Root, scan: Scan, seen: seq<Scan>)
    requires Whole(r, seen) && Meets(r, scan)
    ensures WholeThroughout(r, MigrateRoot(r, scan).steps, seen + [scan])
    ensures MigrateRoot(r, scan).error.None? ==> ApplyAll(r, MigrateRoot(r, scan).steps).target.Some?
  {
    var more := seen + [scan];
    MoreSeen(r, seen, scan);
    if r.target.Some? {
      if !r.committed {
        WholeOne(r, Commit, more);
      }
    } else {
      ClearWhole(r, scan, more);
      var clear, r1 := Clear(r, scan.removal), r.(copied := map[]);
      var copying := CopyVerified(r1, scan.visits, scan.finally);
      CopyWhole(r1, scan.visits, scan.finally, more);
      WholeConcat(r, clear, copying.steps, more);
      ApplySplit(r, clear, copying.steps);
      if copying.error.None? {
        CopyIsAccepted(r1, scan);
        AcceptedAtLast(seen, scan, ApplyAll(r1, copying.steps).copied);
        InstallWhole(r, clear + copying.steps, more);
      }
    }
  }

  lemma InstallWhole(r: Root, steps: seq<Step>, seen: seq<Scan>)
    requires WholeThroughout(r, steps, seen) && Building(ApplyAll(r, steps)) && AcceptedOnce(ApplyAll(r, steps).copied, seen)
    ensures WholeThroughout(r, steps + [Mark, Install, Commit], seen)
    ensures ApplyAll(r, steps + [Mark, Install, Commit]).target.Some?
  {
    InPlaceWhole(ApplyAll(r, steps), seen);
    WholeConcat(r, steps, [Mark, Install, Commit], seen);
    ApplySplit(r, steps, [Mark, Install, Commit]);
  }

  // ---- All roots, over all starts ----

  // The scans of one root in the starts so far.
  function ScansOf(boots: seq<Boot>, name: string): seq<Scan> {
    if boots == [] then []
    else
      var before := ScansOf(boots[..|boots| - 1], name);
      if name in boots[|boots| - 1].scans then before + [boots[|boots| - 1].scans[name]] else before
  }

  ghost predicate AllWhole(w: World, boots: seq<Boot>) {
    forall n :: n in w.roots ==> Whole(w.roots[n], ScansOf(boots, n))
  }

  // When the journal says so, everything has been migrated.
  ghost predicate Told(w: World) {
    w.journal == Complete ==> forall n :: n in w.roots ==> w.roots[n].target.Some?
  }

  ghost predicate Sane(w: World, boots: seq<Boot>) {
    AllWhole(w, boots) && Told(w)
  }

  ghost predicate SaneThroughout(w: World, acts: seq<Act>, boots: seq<Boot>) {
    Sane(DoAll(w, acts), boots) && (acts != [] ==> SaneThroughout(w, acts[..|acts| - 1], boots))
  }

  lemma {:induction false} SanePrefix(w: World, acts: seq<Act>, boots: seq<Boot>, k: nat)
    requires SaneThroughout(w, acts, boots) && k <= |acts|
    ensures Sane(DoAll(w, acts[..k]), boots)
  {
    if k == |acts| {
      assert acts[..k] == acts;
    } else {
      SanePrefix(w, acts[..|acts| - 1], boots, k);
      assert acts[..|acts| - 1][..k] == acts[..k];
    }
  }

  // A root is met as it is when its turn comes.
  ghost predicate MeetsNext(w: World, before: Outcome, name: string, scans: map<string, Scan>) {
    var w1 := DoAll(w, before.acts);
    name in w1.roots && name in scans && Meets(w1.roots[name], scans[name])
  }

  ghost predicate MeetsAll(w: World, order: seq<string>, scans: map<string, Scan>) {
    order == [] ||
    (&& MeetsAll(w, order[..|order| - 1], scans)
     && MeetsNext(w, MigrateRoots(w, order[..|order| - 1], scans), order[|order| - 1], scans))
  }

  lemma {:induction false} SaneConcat(w: World, xs: seq<Act>, ys: seq<Act>, boots: seq<Boot>)
    requires SaneThroughout(w, xs, boots) && SaneThroughout(DoAll(w, xs), ys, boots)
    ensures SaneThroughout(w, xs + ys, boots)
  {
    if ys == [] {
      assert xs + ys == xs;
    } else {
      DoSplit(w, xs, ys);
      SaneConcat(w, xs, ys[..|ys| - 1], boots);
      assert (xs + ys)[..|xs + ys| - 1] == xs + ys[..|ys| - 1];
    }
  }

  lemma SaneOne(w: World, a: Act, boots: seq<Boot>)
    requires Sane(w, boots) && Sane(Do(w, a), boots)
    ensures SaneThroughout(w, [a], boots) && DoAll(w, [a]) == Do(w, a)
  {
    assert [a][..0] == [];
  }

  lemma {:induction false} TagSane(w: World, name: string, steps: seq<Step>, boots: seq<Boot>)
    requires Sane(w, boots) && w.journal == Open && name in w.roots && WholeThroughout(w.roots[name], steps, ScansOf(boots, name))
    ensures SaneThroughout(w, Tag(name, steps), boots)
  {
    TagEffect(w, name, steps);
    if steps != [] {
      TagSane(w, name, steps[..|steps| - 1], boots);
      assert Tag(name, steps)[..|steps| - 1] == Tag(name, steps[..|steps| - 1]);
    }
  }

  // The scans of this start have been added to `boots` last.
  ghost predicate Current(boots: seq<Boot>, scans: map<string, Scan>) {
    boots != [] && boots[|boots| - 1].scans == scans
  }

  ghost predicate Loop(w: World, names: seq<string>, boots: seq<Boot>, loop: Outcome) {
    var w1 := DoAll(w, loop.acts);
    && SaneThroughout(w, loop.acts, boots) && w1.journal == w.journal && w1.roots.Keys == w.roots.Keys
    && (loop.error.None? ==> forall n :: n in names ==> n in w1.roots && w1.roots[n].target.Some?)
  }

  // Roots not met yet in this start, seen against the starts before it.
  lemma EarlierScans(boots: seq<Boot>, name: string)
    requires boots != [] && name in boots[|boots| - 1].scans
    ensures ScansOf(boots, name) == ScansOf(boots[..|boots| - 1], name) + [boots[|boots| - 1].scans[name]]
  {
  }

  // A second scan in the same list does no harm.
  lemma OneRoot(w: World, name: string, scans: map<string, Scan>, boots: seq<Boot>)
    requires Sane(w, boots) && w.journal == Open && name in w.roots && name in scans && Current(boots, scans)
    requires Meets(w.roots[name], scans[name])
    ensures var a := MigrateRoot(w.roots[name], scans[name]);
            && SaneThroughout(w, Tag(name, a.steps), boots)
            && DoAll(w, Tag(name, a.steps)) == w.(roots := w.roots[name := ApplyAll(w.roots[name], a.steps)])
            && (a.error.None? ==> ApplyAll(w.roots[name], a.steps).target.Some?)
  {
    var r, scan := w.roots[name], scans[name];
    var a := MigrateRoot(r, scan);
    EarlierScans(boots, name);
    RootStaysWhole(r, scan, ScansOf(boots, name));
    SeenTwice(r, a.steps, ScansOf(boots[..|boots| - 1], name), scan);
    TagSane(w, name, a.steps, boots);
    TagEffect(w, name, a.steps);
  }

  lemma {:induction false} SeenTwice(r: Root, steps: seq<Step>, seen: seq<Scan>, scan: Scan)
    requires WholeThroughout(r, steps, seen + [scan] + [scan])
    ensures WholeThroughout(r, steps, seen + [scan])
  {
    var r1, twice, once := ApplyAll(r, steps), seen + [scan] + [scan], seen + [scan];
    if r1.target.Some? {
      var i :| 0 <= i < |twice| && Accepted(r1.target.value, twice[i]);
      assert once[if i < |once| then i else |seen|] == twice[i];
    }
    if steps != [] {
      SeenTwice(r, steps[..|steps| - 1], seen, scan);
    }
  }

  lemma {:induction false} LoopIsSane(w: World, order: seq<string>, scans: map<string, Scan>, boots: seq<Boot>)
    requires Sane(w, boots) && w.journal == Open && Current(boots, scans) && MeetsAll(w, order, scans)
    ensures Loop(w, order, boots, MigrateRoots(w, order, scans))
  {
    if order != [] {
      var init, last := order[..|order| - 1], order[|order| - 1];
      LoopIsSane(w, init, scans, boots);
      var before := MigrateRoots(w, init, scans);
      NextIsSane(w, init, last, scans, boots, before);
      OrderLast(order);
      assert MigrateRoots(w, order, scans) == MigrateNext(w, before, last, scans);
    }
  }

  lemma OrderLast<T>(order: seq<T>)
    requires order != []
    ensures order[..|order| - 1] + [order[|order| - 1]] == order
  {
  }

  lemma NextIsSane(w: World, names: seq<string>, name: string, scans: map<string, Scan>, boots: seq<Boot>, before: Outcome)
    requires w.journal == Open && Current(boots, scans) && Loop(w, names, boots, before) && MeetsNext(w, before, name, scans)
    ensures Loop(w, names + [name], boots, MigrateNext(w, before, name, scans))
  {
    if before.error.None? {
      var w1 := DoAll(w, before.acts);
      OneRoot(w1, name, scans, boots);
      var acts := Tag(name, MigrateRoot(w1.roots[name], scans[name]).steps);
      SaneConcat(w, before.acts, acts, boots);
      DoSplit(w, before.acts, acts);
      assert DoAll(w, before.acts + acts).journal == w.journal;
      AllThere(w1, names, name, scans);
    }
  }

  // What was in the data folder stays there while the next root is worked on.
  lemma AllThere(w1: World, names: seq<string>, name: string, scans: map<string, Scan>)
    requires name in w1.roots && name in scans && forall n :: n in names ==> n in w1.roots && w1.roots[n].target.Some?
    ensures var a := MigrateRoot(w1.roots[name], scans[name]);
            var r' := ApplyAll(w1.roots[name], a.steps);
            var roots := w1.roots[name := r'];
            r'.target.Some? ==> forall n :: n in names + [name] ==> n in roots && roots[n].target.Some?
  {
  }

  // Every root named by the journal is in the data folder.
  ghost predicate Named(w: World, order: seq<string>) {
    forall n :: n in w.roots ==> n in order
  }

  // What a start finds and meets.
  ghost predicate Starts(w: World, order: seq<string>, scans: map<string, Scan>) {
    Named(w, order) && (w.journal == Complete || MeetsAll(w.(journal := Open), order, scans))
  }

  lemma FinishIsSane(w: World, order: seq<string>, boots: seq<Boot>, loop: Outcome)
    requires Named(w, order) && w.journal == Open && Loop(w, order, boots, loop) && loop.error.None?
    ensures SaneThroughout(w, loop.acts + [Finish], boots)
  {
    var w1 := DoAll(w, loop.acts);
    SaneOne(w1, Finish, boots);
    SaneConcat(w, loop.acts, [Finish], boots);
  }

  // What is done once the journal is open.
  function Rest(w: World, order: seq<string>, scans: map<string, Scan>): seq<Act> {
    var loop := MigrateRoots(w, order, scans);
    if loop.error.None? then loop.acts + [Finish] else loop.acts
  }

  lemma RestIsSane(w: World, order: seq<string>, scans: map<string, Scan>, boots: seq<Boot>)
    requires Sane(w, boots) && Current(boots, scans) && Named(w, order) && w.journal == Open && MeetsAll(w, order, scans)
    ensures SaneThroughout(w, Rest(w, order, scans), boots)
  {
    LoopIsSane(w, order, scans, boots);
    var loop := MigrateRoots(w, order, scans);
    if loop.error.None? {
      FinishIsSane(w, order, boots, loop);
    }
  }

  lemma MigrateIsRest(w: World, order: seq<string>, scans: map<string, Scan>)
    ensures var acts := Migrate(w, order, scans).acts;
            acts == if w.journal == Complete || (w.journal == Absent && !Eligible(w)) then []
                    else (if w.journal == Absent then [Begin] else []) + Rest(w.(journal := Open), order, scans)
  {
    var w1 := w.(journal := Open);
    var begin := if w.journal == Absent then [Begin] else [];
    assert begin != [] ==> begin[..0] == [];
    assert DoAll(w, begin) == w1 || w.journal == Complete;
    Associative(begin, MigrateRoots(w1, order, scans).acts, [Finish]);
  }

  lemma RunIsSane(w: World, order: seq<string>, scans: map<string, Scan>, boots: seq<Boot>)
    requires Sane(w, boots) && Current(boots, scans) && Starts(w, order, scans)
    ensures SaneThroughout(w, Migrate(w, order, scans).acts, boots)
  {
    MigrateIsRest(w, order, scans);
    if w.journal == Open {
      RestIsSane(w, order, scans, boots);
      assert w.(journal := Open) == w && [] + Rest(w, order, scans) == Rest(w, order, scans);
    } else if w.journal == Absent && Eligible(w) {
      SaneOne(w, Begin, boots);
      RestIsSane(w.(journal := Open), order, scans, boots);
      SaneConcat(w, [Begin], Rest(w.(journal := Open), order, scans), boots);
    }
  }

  ghost predicate AllStart(w: World, order: seq<string>, boots: seq<Boot>) {
    boots == [] ||
    (&& AllStart(w, order, boots[..|boots| - 1])
     && Starts(AfterBoots(w, order, boots[..|boots| - 1]), order, boots[|boots| - 1].scans))
  }

  lemma MoreBoots(w: World, boots: seq<Boot>, b: Boot)
    requires Sane(w, boots)
    ensures Sane(w, boots + [b])
  {
    assert (boots + [b])[..|boots|] == boots;
    forall n | n in w.roots ensures Whole(w.roots[n], ScansOf(boots + [b], n)) {
      if n in b.scans {
        MoreSeen(w.roots[n], ScansOf(boots, n), b.scans[n]);
      }
    }
  }

  lemma BootIsSane(w: World, order: seq<string>, boots: seq<Boot>, b: Boot)
    requires Sane(w, boots) && Starts(w, order, b.scans)
    ensures Sane(Interrupted(w, order, b), boots + [b])
  {
    MoreBoots(w, boots, b);
    RunIsSane(w, order, b.scans, boots + [b]);
    CutIsSane(w, Migrate(w, order, b.scans).acts, boots + [b], b.cut);
  }

  lemma CutIsSane(w: World, acts: seq<Act>, boots: seq<Boot>, cut: nat)
    requires SaneThroughout(w, acts, boots)
    ensures Sane(DoAll(w, if cut <= |acts| then acts[..cut] else acts), boots)
  {
    if cut <= |acts| {
      SanePrefix(w, acts, boots, cut);
    }
  }

  lemma {:induction false} BootsAreSane(w: World, order: seq<string>, boots: seq<Boot>)
    requires Sane(w, []) && AllStart(w, order, boots)
    ensures Sane(AfterBoots(w, order, boots), boots)
  {
    if boots != [] {
      var init, b := boots[..|boots| - 1], boots[|boots| - 1];
      BootsAreSane(w, order, init);
      BootIsSane(AfterBoots(w, order, init), order, init, b);
      assert init + [b] == boots;
    }
  }

  lemma {:induction false} SameRoots(w: World, acts: seq<Act>)
    ensures DoAll(w, acts).roots.Keys == w.roots.Keys
  {
    if acts != [] {
      SameRoots(w, acts[..|acts| - 1]);
    }
  }

  lemma {:induction false} SameRootsAfter(w: World, order: seq<string>, boots: seq<Boot>)
    ensures AfterBoots(w, order, boots).roots.Keys == w.roots.Keys
  {
    if boots != [] {
      var w1, b := AfterBoots(w, order, boots[..|boots| - 1]), boots[|boots| - 1];
      SameRootsAfter(w, order, boots[..|boots| - 1]);
      var acts := Migrate(w1, order, b.scans).acts;
      SameRoots(w1, if b.cut <= |acts| then acts[..b.cut] else acts);
    }
  }

  // However often it was cut short and whatever others did to the sources meanwhile, a root is absent or one
  // copy that was accepted in one of the runs; when the journal is complete, all of them are there.
  lemma MigratedIsWhole(sources: map<string, Tree>, order: seq<string>, boots: seq<Boot>, name: string)
    requires name in sources && AllStart(Fresh(sources), order, boots)
    ensures var w := AfterBoots(Fresh(sources), order, boots);
            && name in w.roots
            && (w.roots[name].target.Some? ==> AcceptedOnce(w.roots[name].target.value, ScansOf(boots, name)))
            && (w.journal == Complete ==> w.roots[name].target.Some?)
  {
    SameRootsAfter(Fresh(sources), order, boots);
    BootsAreSane(Fresh(sources), order, boots);
  }
}
