// The restore as it changes the data folder, one rename, mkdir, copy or journal write at a time
// (desktop_app/backup.py, lines 264-306).
module RestoreService {
  import opened Prelude
  import opened DirectoryTree
  import opened Restore
  import opened RestoreRun

  lemma TagConcat(name: string, xs: seq<Step>, ys: seq<Step>)
    ensures Tag(name, xs + ys) == Tag(name, xs) + Tag(name, ys)
  {
  }

  class DataFolder {
    var pending: bool
    var staged: bool
    var roots: map<string, Root>
    ghost var log: seq<Act>

    ghost function Now(): World
      reads this
    {
      World(pending, staged, roots)
    }

    // `acts` is what has been changed since the given state, in order.
    ghost predicate Performed(w: World, log0: seq<Act>, acts: seq<Act>)
      reads this
    {
      Now() == DoAll(w, acts) && log == log0 + acts
    }

    // The same, where only one root was changed.
    ghost predicate Changed(name: string, w: World, log0: seq<Act>, steps: seq<Step>)
      reads this
    {
      && name in w.roots && name in roots && roots[name] == ApplyAll(w.roots[name], steps)
      && Now() == w.(roots := w.roots[name := roots[name]]) && log == log0 + Tag(name, steps)
    }

    lemma ChangedLast(name: string, w: World, w1: World, log0: seq<Act>, log1: seq<Act>, xs: seq<Step>, ys: seq<Step>)
      requires name in w.roots && name in w1.roots
      requires w1 == w.(roots := w.roots[name := ApplyAll(w.roots[name], xs)]) && log1 == log0 + Tag(name, xs)
      requires Changed(name, w1, log1, ys)
      ensures Changed(name, w, log0, xs + ys)
    {
      ApplySplit(w.roots[name], xs, ys);
      TagConcat(name, xs, ys);
      Associative(log0, Tag(name, xs), Tag(name, ys));
    }

    method Change(name: string, s: Step)
      requires name in roots
      modifies this`roots, this`log
      ensures Changed(name, old(Now()), old(log), [s])
    {
      assert [s][..0] == [];
      roots := roots[name := Apply(roots[name], s)];
      log := log + [On(name, s)];
    }

    // `mkdir(parents=True, exist_ok=True)` in the staged tree.
    method MakeParents(name: string, p: Path) returns (ok: bool)
      requires name in roots && roots[name].replacement.Some?
      modifies this`roots, this`log
      ensures var t := old(roots)[name].replacement.value;
              && ok == (Standing(t, p) in t && t[Standing(t, p)] == Folder)
              && Changed(name, old(Now()), old(log), if ok then MakeFolders(Missing(t, p)) else [])
      ensures name in roots && roots[name].replacement.Some?
      decreases |p|
    {
      var t := roots[name].replacement.value;
      assert log + Tag(name, []) == log;
      assert roots[name := roots[name]] == roots;
      if p in t || p == [] {
        return p in t && t[p] == Folder;
      }
      ok := MakeParents(name, Parent(p));
      if ok {
        ghost var w1, log1 := Now(), log;
        Change(name, MakeFolder(p));
        ChangedLast(name, old(Now()), w1, old(log), log1, MakeFolders(Missing(t, Parent(p))), [MakeFolder(p)]);
        MakeFoldersKeepReplacement(old(roots)[name], Missing(t, p));
      }
    }

    // One visited entry below a `secrets` folder.
    method CarryOne(name: string, kept: Tree, p: Path) returns (error: Option<string>)
      requires name in roots && roots[name].replacement.Some?
      modifies this`roots, this`log
      ensures error == Carry(kept, old(roots)[name], p).error
      ensures Changed(name, old(Now()), old(log), Carry(kept, old(roots)[name], p).steps)
    {
      var t := roots[name].replacement.value;
      assert log + Tag(name, []) == log;
      assert roots[name := roots[name]] == roots;
      if p !in kept || !kept[p].File? || p in t || p == [] {
        return None;
      }
      var made := MakeParents(name, Parent(p));
      if !made {
        return Some("not a directory");
      }
      ghost var w1, log1 := Now(), log;
      Change(name, CopyFile(p, kept[p].bytes));
      ChangedLast(name, old(Now()), w1, old(log), log1, MakeFolders(Missing(t, Parent(p))), [CopyFile(p, kept[p].bytes)]);
      error := None;
    }

    lemma CarryNext(kept: Tree, r: Root, listing: seq<Path>, i: nat)
      requires i < |listing| && r.replacement.Some? && CarryAll(kept, r, listing[..i]).error.None?
      ensures var before := CarryAll(kept, r, listing[..i]);
              var last := Carry(kept, ApplyAll(r, before.steps), listing[i]);
              CarryAll(kept, r, listing[..i + 1]) == Restore.Attempt(before.steps + last.steps, last.error)
    {
      assert listing[..i + 1][..i] == listing[..i] && listing[..i + 1][i] == listing[i];
    }

    lemma {:induction false} CarryStops(kept: Tree, r: Root, listing: seq<Path>, i: nat)
      requires i <= |listing| && r.replacement.Some? && CarryAll(kept, r, listing[..i]).error.Some?
      ensures CarryAll(kept, r, listing) == CarryAll(kept, r, listing[..i])
    {
      if i == |listing| {
        assert listing[..i] == listing;
      } else {
        assert listing[..|listing| - 1][..i] == listing[..i];
        CarryStops(kept, r, listing[..|listing| - 1], i);
      }
    }

    // The credential files of the kept original that the staged tree lacks.
    method CarryOver(name: string, kept: Tree, listing: seq<Path>) returns (error: Option<string>)
      requires name in roots && roots[name].replacement.Some?
      modifies this`roots, this`log
      ensures error == CarryAll(kept, old(roots)[name], listing).error
      ensures Changed(name, old(Now()), old(log), CarryAll(kept, old(roots)[name], listing).steps)
    {
      ghost var r := roots[name];
      assert log + Tag(name, []) == log;
      assert roots[name := roots[name]] == roots;
      for i := 0 to |listing|
        invariant CarryAll(kept, r, listing[..i]).error.None?
        invariant Changed(name, old(Now()), old(log), CarryAll(kept, r, listing[..i]).steps)
      {
        CarryNext(kept, r, listing, i);
        ghost var w1, log1 := Now(), log;
        error := CarryOne(name, kept, listing[i]);
        ChangedLast(name, old(Now()), w1, old(log), log1, CarryAll(kept, r, listing[..i]).steps,
                    Carry(kept, w1.roots[name], listing[i]).steps);
        if error.Some? {
          CarryStops(kept, r, listing, i + 1);
          return;
        }
      }
      assert listing[..|listing|] == listing;
      error := None;
    }

    method RestoreOne(name: string, listing: seq<Path>) returns (error: Option<string>)
      requires name in roots
      modifies this`roots, this`log
      ensures error == RestoreRoot(name, old(roots)[name], listing).error
      ensures Changed(name, old(Now()), old(log), RestoreRoot(name, old(roots)[name], listing).steps)
    {
      assert log + Tag(name, []) == log;
      assert roots[name := roots[name]] == roots;
      if roots[name].committed {
        return None;
      }
      if roots[name].replacement.Some? {
        ghost var w, log0 := Now(), log;
        ghost var steps := [];
        if roots[name].target.Some? && roots[name].kept.None? {
          Change(name, MoveAside);
          steps := [MoveAside];
        }
        if roots[name].target.Some? || roots[name].replacement.None? {
          return Some("restore target changed");
        }
        if Carries(name, roots[name].kept) {
          ghost var w1, log1 := Now(), log;
          ghost var merge := CarryAll(roots[name].kept.value, roots[name], listing);
          error := CarryOver(name, roots[name].kept.value, listing);
          ChangedLast(name, w, w1, log0, log1, steps, merge.steps);
          steps := steps + merge.steps;
          if error.Some? {
            return;
          }
        } else {
          assert steps + [] == steps;
        }
        Finish(name, w, log0, steps);
      } else if roots[name].target.None? {
        return Some("restore data missing");
      } else {
        Change(name, Commit);
      }
      error := None;
    }

    // Putting the staged tree in place, and the journal entry for it.
    method Finish(name: string, ghost w: World, ghost log0: seq<Act>, ghost steps: seq<Step>)
      requires Changed(name, w, log0, steps)
      modifies this`roots, this`log
      ensures Changed(name, w, log0, steps + [Install, Commit])
    {
      ghost var w1, log1 := Now(), log;
      Change(name, Install);
      ChangedLast(name, w, w1, log0, log1, steps, [Install]);
      ghost var w2, log2 := Now(), log;
      Change(name, Commit);
      ChangedLast(name, w, w2, log0, log2, steps + [Install], [Commit]);
      assert steps + [Install] + [Commit] == steps + [Install, Commit];
    }

    lemma RootsNext(w: World, order: seq<string>, i: nat, listings: map<string, seq<Path>>)
      requires i < |order|
      ensures RestoreRoots(w, order[..i + 1], listings)
           == RestoreNext(w, RestoreRoots(w, order[..i], listings), order[i], listings)
    {
      assert order[..i + 1][..i] == order[..i] && order[..i + 1][i] == order[i];
    }

    lemma {:induction false} RootsStop(w: World, order: seq<string>, i: nat, listings: map<string, seq<Path>>)
      requires i <= |order| && RestoreRoots(w, order[..i], listings).error.Some?
      ensures RestoreRoots(w, order, listings) == RestoreRoots(w, order[..i], listings)
    {
      if i == |order| {
        assert order[..i] == order;
      } else {
        assert order[..|order| - 1][..i] == order[..i];
        RootsStop(w, order[..|order| - 1], i, listings);
      }
    }

    lemma PerformedNext(name: string, w: World, w1: World, log0: seq<Act>, log1: seq<Act>, acts: seq<Act>, steps: seq<Step>)
      requires w1 == DoAll(w, acts) && log1 == log0 + acts && Changed(name, w1, log1, steps)
      ensures Performed(w, log0, acts + Tag(name, steps))
    {
      TagEffect(w1, name, steps);
      DoSplit(w, acts, Tag(name, steps));
      Associative(log0, acts, Tag(name, steps));
    }

    // Clearing the request, then removing what was staged for it.
    method Close()
      modifies this`pending, this`staged, this`log
      ensures Performed(old(Now()), old(log), [ClearPending, DropStage])
    {
      assert [ClearPending, DropStage] == [ClearPending] + [DropStage];
      DoSplit(Now(), [ClearPending], [DropStage]);
      assert forall a: Act :: [a][..0] == [];
      pending := false;
      staged := false;
      log := log + [ClearPending, DropStage];
    }

    method RestoreInOrder(order: seq<string>, listings: map<string, seq<Path>>) returns (error: Option<string>)
      requires forall n :: n in order ==> n in roots
      modifies this`roots, this`log
      ensures error == RestoreRoots(old(Now()), order, listings).error
      ensures Performed(old(Now()), old(log), RestoreRoots(old(Now()), order, listings).acts)
    {
      ghost var w, log0 := Now(), log;
      for i := 0 to |order|
        invariant forall n :: n in order ==> n in roots
        invariant RestoreRoots(w, order[..i], listings).error.None?
        invariant Performed(w, log0, RestoreRoots(w, order[..i], listings).acts)
      {
        RootsNext(w, order, i, listings);
        ghost var w1, log1 := Now(), log;
        error := RestoreOne(order[i], Listing(listings, order[i]));
        PerformedNext(order[i], w, w1, log0, log1, RestoreRoots(w, order[..i], listings).acts,
                      RestoreRoot(order[i], w1.roots[order[i]], Listing(listings, order[i])).steps);
        if error.Some? {
          RootsStop(w, order, i + 1, listings);
          return;
        }
      }
      assert order[..|order|] == order;
      error := None;
    }

    // `apply_pending_restore`.
    method ApplyPendingRestore(order: seq<string>, listings: map<string, seq<Path>>) returns (error: Option<string>)
      requires forall n :: n in order ==> n in roots
      modifies this
      ensures error == RestoreAll(old(Now()), order, listings).error
      ensures Performed(old(Now()), old(log), RestoreAll(old(Now()), order, listings).acts)
    {
      if !pending {
        return None;
      }
      error := RestoreInOrder(order, listings);
      if error.None? {
        Close();
        DoSplit(old(Now()), RestoreRoots(old(Now()), order, listings).acts, [ClearPending, DropStage]);
      }
    }
  }
}
