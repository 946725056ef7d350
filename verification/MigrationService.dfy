// The migration as it changes the data folder, one mkdir, copy, removal, rename or journal write at a time
// (desktop_app/environment.py, lines 103-127 and 145-183).
module MigrationService {
  import opened Prelude
  import opened DirectoryTree
  import opened Migration
  import opened MigrationRun

  lemma TagConcat(name: string, xs: seq<Step>, ys: seq<Step>)
    ensures Tag(name, xs + ys) == Tag(name, xs) + Tag(name, ys)
  {
  }

  class LegacyFolder {
    var journal: Journal
    const taken: bool
    var roots: map<string, Root>
    ghost var log: seq<Act>

    constructor (taken: bool, roots: map<string, Root>)
      ensures Now() == World(Absent, taken, roots) && log == []
    {
      this.journal, this.taken, this.roots, this.log := Absent, taken, roots, [];
    }

    ghost function Now(): World
      reads this
    {
      World(journal, taken, roots)
    }

    // `acts` is what has been changed since the given state, in order.
    ghost predicate Performed(w: World, log0: seq<Act>, acts: seq<Act>)
      reads this
    {
      Now() == DoAll(w, acts) && log == log0 + acts
    }

    // The same, where only one root was changed.
    ghost predicate Changed(name: string, w: World, log0: seq<Act>, steps: seq<Step>)
      reads this
    {
      && name in w.roots && name in roots && roots[name] == ApplyAll(w.roots[name], steps)
      && Now() == w.(roots := w.roots[name := roots[name]]) && log == log0 + Tag(name, steps)
    }

    lemma ChangedLast(name: string, w: World, w1: World, log0: seq<Act>, log1: seq<Act>, xs: seq<Step>, ys: seq<Step>)
      requires name in w.roots && name in w1.roots
      requires w1 == w.(roots := w.roots[name := ApplyAll(w.roots[name], xs)]) && log1 == log0 + Tag(name, xs)
      requires Changed(name, w1, log1, ys)
      ensures Changed(name, w, log0, xs + ys)
    {
      ApplySplit(w.roots[name], xs, ys);
      TagConcat(name, xs, ys);
      Associative(log0, Tag(name, xs), Tag(name, ys));
    }

    method Change(name: string, s: Step)
      requires name in roots
      modifies this`roots, this`log
      ensures Changed(name, old(Now()), old(log), [s])
    {
      assert [s][..0] == [];
      roots := roots[name := Apply(roots[name], s)];
      log := log + [On(name, s)];
    }

    ghost method Unchanged(name: string)
      requires name in roots
      ensures Changed(name, Now(), log, [])
    {
      assert log + Tag(name, []) == log;
      assert roots[name := roots[name]] == roots;
    }

    // `mkdir(parents=True, exist_ok=True)` in the copy.
    method MakeParents(name: string, p: Path) returns (ok: bool)
      requires name in roots
      modifies this`roots, this`log
      ensures ok == Mkdir(old(roots)[name].copied, p).Some?
      ensures Changed(name, old(Now()), old(log), if ok then Mkdir(old(roots)[name].copied, p).value else [])
      decreases |p|
    {
      var t := roots[name].copied;
      Unchanged(name);
      if p in t {
        return t[p] == Folder;
      }
      if p == [] {
        Change(name, MakeFolder([]));
        assert [MakeFolder([])] + MakeFolders(Missing(t, [])) == [MakeFolder([])];
        return true;
      }
      ok := MakeParents(name, Parent(p));
      if ok {
        ghost var w1, log1 := Now(), log;
        ghost var above := Mkdir(t, Parent(p)).value;
        Change(name, MakeFolder(p));
        ChangedLast(name, old(Now()), w1, old(log), log1, above, [MakeFolder(p)]);
        Associative([MakeFolder([])], MakeFolders(Missing(t, Parent(p))), [MakeFolder(p)]);
      }
    }

    // One listed entry. `verified` is its digest, if it was a file and the digests agreed.
    method CopyEntry(name: string, v: Visit) returns (verified: map<Path, seq<bv8>>, error: Option<string>)
      requires name in roots
      modifies this`roots, this`log
      ensures var a := CopyOne(old(roots)[name], v);
              verified == a.verified && error == a.error && Changed(name, old(Now()), old(log), a.steps)
    {
      Unchanged(name);
      verified := map[];
      error := None;
      match v.seen {
        case None =>
        case Some(Link(_)) =>
          error := Some("Migration cannot follow symbolic links");
        case Some(Folder) =>
          var made := MakeParents(name, v.path);
          error := if made then None else Some("not a directory");
        case Some(File(bytes)) =>
          if v.path == [] {
            return map[], Some("not a directory");
          }
          var made := MakeParents(name, Parent(v.path));
          if !made {
            return map[], Some("not a directory");
          }
          ghost var w1, log1 := Now(), log;
          Change(name, CopyFile(v.path, bytes));
          ChangedLast(name, old(Now()), w1, old(log), log1,
                      Mkdir(old(roots)[name].copied, Parent(v.path)).value, [CopyFile(v.path, bytes)]);
          if v.again == Some(File(bytes)) {
            verified := map[v.path := bytes];
          } else {
            error := Some("Migration verification failed");
          }
      }
    }

    lemma ListedNext(r: Root, visits: seq<Visit>, i: nat)
      requires i < |visits| && CopyListed(r, visits[..i]).error.None?
      ensures var before := CopyListed(r, visits[..i]);
              var last := CopyOne(ApplyAll(r, before.steps), visits[i]);
              CopyListed(r, visits[..i + 1]) == Copying(before.steps + last.steps, before.verified + last.verified, last.error)
    {
      assert visits[..i + 1][..i] == visits[..i] && visits[..i + 1][i] == visits[i];
    }

    lemma {:induction false} ListedStops(r: Root, visits: seq<Visit>, i: nat)
      requires i <= |visits| && CopyListed(r, visits[..i]).error.Some?
      ensures CopyListed(r, visits) == CopyListed(r, visits[..i])
    {
      if i == |visits| {
        assert visits[..i] == visits;
      } else {
        assert visits[..|visits| - 1][..i] == visits[..i];
        ListedStops(r, visits[..|visits| - 1], i);
      }
    }

    // The loop of `copy_verified`.
    method CopyEntries(name: string, visits: seq<Visit>) returns (verified: map<Path, seq<bv8>>, error: Option<string>)
      requires name in roots
      modifies this`roots, this`log
      ensures var a := CopyListed(old(roots)[name], visits);
              verified == a.verified && error == a.error && Changed(name, old(Now()), old(log), a.steps)
    {
      ghost var r := roots[name];
      Unchanged(name);
      verified := map[];
      for i := 0 to |visits|
        invariant CopyListed(r, visits[..i]).error.None? && verified == CopyListed(r, visits[..i]).verified
        invariant Changed(name, old(Now()), old(log), CopyListed(r, visits[..i]).steps)
      {
        ListedNext(r, visits, i);
        ghost var w1, log1 := Now(), log;
        var more;
        more, error := CopyEntry(name, visits[i]);
        ChangedLast(name, old(Now()), w1, old(log), log1, CopyListed(r, visits[..i]).steps, CopyOne(w1.roots[name], visits[i]).steps);
        verified := verified + more;
        if error.Some? {
          ListedStops(r, visits, i + 1);
          return;
        }
      }
      assert visits[..|visits|] == visits;
      error := None;
    }

    // `copy_verified`.
    method CopyChecked(name: string, visits: seq<Visit>, finally: Tree) returns (error: Option<string>)
      requires name in roots
      modifies this`roots, this`log
      ensures error == CopyVerified(old(roots)[name], visits, finally).error
      ensures Changed(name, old(Now()), old(log), CopyVerified(old(roots)[name], visits, finally).steps)
    {
      var made := MakeParents(name, []);
      if !made {
        return Some("not a directory");
      }
      ghost var w1, log1 := Now(), log;
      var verified;
      verified, error := CopyEntries(name, visits);
      ChangedLast(name, old(Now()), w1, old(log), log1, Mkdir(old(roots)[name].copied, []).value,
                  CopyListed(w1.roots[name], visits).steps);
      if error.None? && !StillThere(verified, finally) {
        error := Some("source changed");
      }
    }

    // `shutil.rmtree`.
    method RemoveTree(name: string, removal: seq<Path>)
      requires name in roots && [] in roots[name].copied
      modifies this`roots, this`log
      ensures Changed(name, old(Now()), old(log), Clear(old(roots)[name], removal))
    {
      ghost var r := roots[name];
      Unchanged(name);
      for i := 0 to |removal|
        invariant Changed(name, old(Now()), old(log), ClearBelow(r, removal[..i]))
      {
        assert removal[..i + 1][..i] == removal[..i] && removal[..i + 1][i] == removal[i];
        if removal[i] != [] && removal[i] in roots[name].copied {
          ghost var w1, log1 := Now(), log;
          Change(name, Remove(removal[i]));
          ChangedLast(name, old(Now()), w1, old(log), log1, ClearBelow(r, removal[..i]), [Remove(removal[i])]);
        }
      }
      assert removal[..|removal|] == removal;
      ghost var w1, log1 := Now(), log;
      Change(name, Remove([]));
      ChangedLast(name, old(Now()), w1, old(log), log1, ClearBelow(r, removal), [Remove([])]);
    }

    method MigrateOne(name: string, scan: Scan) returns (error: Option<string>)
      requires name in roots
      modifies this`roots, this`log
      ensures error == MigrateRoot(old(roots)[name], scan).error
      ensures Changed(name, old(Now()), old(log), MigrateRoot(old(roots)[name], scan).steps)
    {
      Unchanged(name);
      if roots[name].committed {
        return None;
      }
      if roots[name].target.Some? {
        if [] in roots[name].copied || !roots[name].marked {
          return Some("migration target has data");
        }
        Change(name, Commit);
        return None;
      }
      ghost var clear := Clear(roots[name], scan.removal);
      if [] in roots[name].copied {
        RemoveTree(name, scan.removal);
      }
      ghost var w1, log1 := Now(), log;
      error := CopyChecked(name, scan.visits, scan.finally);
      ghost var copying := CopyVerified(w1.roots[name], scan.visits, scan.finally);
      ChangedLast(name, old(Now()), w1, old(log), log1, clear, copying.steps);
      if error.None? {
        PutInPlace(name, old(Now()), old(log), clear + copying.steps);
      }
    }

    // The marker, the rename, the journal entry.
    method PutInPlace(name: string, ghost w: World, ghost log0: seq<Act>, ghost steps: seq<Step>)
      requires Changed(name, w, log0, steps)
      modifies this`roots, this`log
      ensures Changed(name, w, log0, steps + [Mark, Install, Commit])
    {
      ghost var w1, log1 := Now(), log;
      Change(name, Mark);
      ChangedLast(name, w, w1, log0, log1, steps, [Mark]);
      ghost var w2, log2 := Now(), log;
      Change(name, Install);
      ChangedLast(name, w, w2, log0, log2, steps + [Mark], [Install]);
      ghost var w3, log3 := Now(), log;
      Change(name, Commit);
      ChangedLast(name, w, w3, log0, log3, steps + [Mark] + [Install], [Commit]);
      assert steps + [Mark] + [Install] + [Commit] == steps + [Mark, Install, Commit];
    }

    lemma RootsNext(w: World, order: seq<string>, i: nat, scans: map<string, Scan>)
      requires i < |order|
      ensures MigrateRoots(w, order[..i + 1], scans) == MigrateNext(w, MigrateRoots(w, order[..i], scans), order[i], scans)
    {
      assert order[..i + 1][..i] == order[..i] && order[..i + 1][i] == order[i];
    }

    lemma {:induction false} RootsStop(w: World, order: seq<string>, i: nat, scans: map<string, Scan>)
      requires i <= |order| && MigrateRoots(w, order[..i], scans).error.Some?
      ensures MigrateRoots(w, order, scans) == MigrateRoots(w, order[..i], scans)
    {
      if i == |order| {
        assert order[..i] == order;
      } else {
        assert order[..|order| - 1][..i] == order[..i];
        RootsStop(w, order[..|order| - 1], i, scans);
      }
    }

    lemma PerformedNext(name: string, w: World, w1: World, log0: seq<Act>, log1: seq<Act>, acts: seq<Act>, steps: seq<Step>)
      requires w1 == DoAll(w, acts) && log1 == log0 + acts && Changed(name, w1, log1, steps)
      ensures Performed(w, log0, acts + Tag(name, steps))
    {
      TagEffect(w1, name, steps);
      DoSplit(w, acts, Tag(name, steps));
      Associative(log0, acts, Tag(name, steps));
    }

    method MigrateInOrder(order: seq<string>, scans: map<string, Scan>) returns (error: Option<string>)
      requires forall n :: n in order ==> n in roots && n in scans
      modifies this`roots, this`log
      ensures error == MigrateRoots(old(Now()), order, scans).error
      ensures Performed(old(Now()), old(log), MigrateRoots(old(Now()), order, scans).acts)
    {
      ghost var w, log0 := Now(), log;
      for i := 0 to |order|
        invariant forall n :: n in order ==> n in roots
        invariant MigrateRoots(w, order[..i], scans).error.None?
        invariant Performed(w, log0, MigrateRoots(w, order[..i], scans).acts)
      {
        RootsNext(w, order, i, scans);
        ghost var w1, log1 := Now(), log;
        error := MigrateOne(order[i], scans[order[i]]);
        PerformedNext(order[i], w, w1, log0, log1, MigrateRoots(w, order[..i], scans).acts,
                      MigrateRoot(w1.roots[order[i]], scans[order[i]]).steps);
        if error.Some? {
          RootsStop(w, order, i + 1, scans);
          return;
        }
      }
      assert order[..|order|] == order;
      error := None;
    }

    method WriteJournal(state: Journal)
      requires state == Open || state == Complete
      modifies this`journal, this`log
      ensures Performed(old(Now()), old(log), if state == Open then [Begin] else [Finish])
    {
      assert forall a: Act :: [a][..0] == [];
      journal := state;
      log := log + if state == Open then [Begin] else [Finish];
    }

    lemma PerformedMore(w: World, w1: World, log0: seq<Act>, log1: seq<Act>, xs: seq<Act>, ys: seq<Act>)
      requires w1 == DoAll(w, xs) && log1 == log0 + xs && Performed(w1, log1, ys)
      ensures Performed(w, log0, xs + ys)
    {
      DoSplit(w, xs, ys);
      Associative(log0, xs, ys);
    }

    // Everything after the journal has been opened.
    method RunToEnd(order: seq<string>, scans: map<string, Scan>) returns (error: Option<string>)
      requires forall n :: n in order ==> n in roots && n in scans
      modifies this
      ensures var loop := MigrateRoots(old(Now()), order, scans);
              && error == loop.error
              && Performed(old(Now()), old(log), if error.None? then loop.acts + [Finish] else loop.acts)
    {
      error := MigrateInOrder(order, scans);
      if error.None? {
        ghost var w1, log1 := Now(), log;
        WriteJournal(Complete);
        PerformedMore(old(Now()), w1, old(log), log1, MigrateRoots(old(Now()), order, scans).acts, [Finish]);
      }
    }

    // `_migrate_legacy`.
    method MigrateLegacy(order: seq<string>, scans: map<string, Scan>) returns (error: Option<string>)
      requires forall n :: n in order ==> n in roots && n in scans
      modifies this
      ensures error == Migrate(old(Now()), order, scans).error
      ensures Performed(old(Now()), old(log), Migrate(old(Now()), order, scans).acts)
    {
      if journal == Complete {
        return None;
      }
      ghost var begin := [];
      if journal == Absent {
        if "workspaces" !in roots || taken || exists n :: n in roots && roots[n].target.Some? {
          return None;
        }
        WriteJournal(Open);
        begin := [Begin];
      }
      ghost var w1, log1 := Now(), log;
      error := RunToEnd(order, scans);
      ghost var acts := MigrateRoots(w1, order, scans).acts;
      PerformedMore(old(Now()), w1, old(log), log1, begin, if error.None? then acts + [Finish] else acts);
      Associative(begin, acts, [Finish]);
    }
  }
}
