// Whole runs of the start-up restore over all planned roots, across any number of crashes
// (desktop_app/backup.py, lines 264-306).
module RestoreRun {
  import opened Prelude
  import opened DirectoryTree
  import opened Restore

  // `staged`: the folder of the request, with its plan, still exists.
  datatype World = World(pending: bool, staged: bool, roots: map<string, Root>)

  datatype Act = On(name: string, step: Step) | ClearPending | DropStage

  function Do(w: World, a: Act): World {
    match a
    case On(n, s) => if n in w.roots then w.(roots := w.roots[n := Apply(w.roots[n], s)]) else w
    case ClearPending => w.(pending := false)
    case DropStage => w.(staged := false)
  }

  function DoAll(w: World, acts: seq<Act>): World {
    if acts == [] then w else Do(DoAll(w, acts[..|acts| - 1]), acts[|acts| - 1])
  }

  function Tag(name: string, steps: seq<Step>): (acts: seq<Act>)
    ensures |acts| == |steps| && forall i :: 0 <= i < |steps| ==> acts[i] == On(name, steps[i])
  {
    seq(|steps|, i requires 0 <= i < |steps| => On(name, steps[i]))
  }

  datatype Outcome = Outcome(acts: seq<Act>, error: Option<string>)

  function Listing(listings: map<string, seq<Path>>, name: string): seq<Path> {
    if name in listings then listings[name] else []
  }

  function RestoreNext(w: World, before: Outcome, name: string, listings: map<string, seq<Path>>): Outcome {
    var w1 := DoAll(w, before.acts);
    if before.error.Some? || name !in w1.roots then before
    else
      var last := RestoreRoot(name, w1.roots[name], Listing(listings, name));
      Outcome(before.acts + Tag(name, last.steps), last.error)
  }

  // The loop over the planned roots, up to the first that raises.
  function RestoreRoots(w: World, order: seq<string>, listings: map<string, seq<Path>>): Outcome {
    if order == [] then Outcome([], None)
    else
      RestoreNext(w, RestoreRoots(w, order[..|order| - 1], listings), order[|order| - 1], listings)
  }

  // `apply_pending_restore`.
  function RestoreAll(w: World, order: seq<string>, listings: map<string, seq<Path>>): Outcome {
    if !w.pending then Outcome([], None)
    else
      var loop := RestoreRoots(w, order, listings);
      if loop.error.Some? then loop else Outcome(loop.acts + [ClearPending, DropStage], None)
  }

  // One start of the program, stopped after `cut` single changes if it gets that far.
  datatype Boot = Boot(listings: map<string, seq<Path>>, cut: nat)

  function Interrupted(w: World, order: seq<string>, b: Boot): World {
    var acts := RestoreAll(w, order, b.listings).acts;
    DoAll(w, if b.cut <= |acts| then acts[..b.cut] else acts)
  }

  function AfterBoots(w: World, order: seq<string>, boots: seq<Boot>): World {
    if boots == [] then w else Interrupted(AfterBoots(w, order, boots[..|boots| - 1]), order, boots[|boots| - 1])
  }

  // ---- Setting ----

  ghost predicate Planned(plans: map<string, Plan>, order: seq<string>) {
    && (forall n :: n in order <==> n in plans)
    && (forall n :: n in plans ==> plans[n].name == n && Sound(plans[n]))
  }

  // Every listing shows the original tree, in whatever order.
  ghost predicate Shows(plans: map<string, Plan>, listings: map<string, seq<Path>>) {
    forall n :: n in plans && Carries(n, plans[n].original) ==> n in listings && IsListing(plans[n].original.value, listings[n])
  }

  function Queued(plans: map<string, Plan>): World {
    World(true, true, map n | n in plans :: Root(plans[n].original, None, Some(plans[n].payload), false))
  }

  ghost predicate AnyClash(plans: map<string, Plan>) {
    exists n :: n in plans && Clash(plans[n])
  }

  ghost function Restored(plans: map<string, Plan>): map<string, Root> {
    map n | n in plans :: Root(Some(Final(plans[n])), plans[n].original, None, true)
  }

  ghost predicate Inv(plans: map<string, Plan>, w: World) {
    && w.roots.Keys == plans.Keys
    && (forall n :: n in plans ==> Stage(plans[n], w.roots[n]))
    && (!w.pending ==> w.roots == Restored(plans) && !AnyClash(plans))
  }

  // ---- Every single change keeps the invariant ----

  ghost predicate Fits(plans: map<string, Plan>, w: World, a: Act) {
    match a
    case On(n, s) => w.pending && n in plans && n in w.roots && Legal(plans[n], w.roots[n], s)
    case ClearPending => w.roots == Restored(plans) && !AnyClash(plans)
    case DropStage => !w.pending
  }

  ghost predicate AllFit(plans: map<string, Plan>, w: World, acts: seq<Act>) {
    acts == [] || (AllFit(plans, w, acts[..|acts| - 1]) && Fits(plans, DoAll(w, acts[..|acts| - 1]), acts[|acts| - 1]))
  }

  lemma FitKeeps(plans: map<string, Plan>, w: World, a: Act)
    requires (forall n :: n in plans ==> Sound(plans[n])) && Inv(plans, w) && Fits(plans, w, a)
    ensures Inv(plans, Do(w, a))
  {
    if a.On? {
      LegalKeeps(plans[a.name], w.roots[a.name], a.step);
    }
  }

  lemma {:induction false} FitPrefix(plans: map<string, Plan>, w: World, acts: seq<Act>, k: nat)
    requires (forall n :: n in plans ==> Sound(plans[n])) && Inv(plans, w) && AllFit(plans, w, acts) && k <= |acts|
    ensures Inv(plans, DoAll(w, acts[..k]))
  {
    if acts == [] {
    } else {
      var init := acts[..|acts| - 1];
      if k == |acts| {
        FitPrefix(plans, w, init, k - 1);
        assert init[..k - 1] == init && acts[..k] == acts;
        FitKeeps(plans, DoAll(w, init), acts[|acts| - 1]);
      } else {
        assert init[..k] == acts[..k];
        FitPrefix(plans, w, init, k);
      }
    }
  }

  lemma {:induction false} DoSplit(w: World, xs: seq<Act>, ys: seq<Act>)
    ensures DoAll(w, xs + ys) == DoAll(DoAll(w, xs), ys)
  {
    if ys == [] {
      assert xs + ys == xs;
    } else {
      assert (xs + ys)[..|xs + ys| - 1] == xs + ys[..|ys| - 1];
      DoSplit(w, xs, ys[..|ys| - 1]);
    }
  }

  lemma {:induction false} FitConcat(plans: map<string, Plan>, w: World, xs: seq<Act>, ys: seq<Act>)
    requires AllFit(plans, w, xs) && AllFit(plans, DoAll(w, xs), ys)
    ensures AllFit(plans, w, xs + ys)
  {
    if ys == [] {
      assert xs + ys == xs;
    } else {
      var init := ys[..|ys| - 1];
      FitConcat(plans, w, xs, init);
      DoSplit(w, xs, init);
      assert (xs + ys)[..|xs + ys| - 1] == xs + init;
    }
  }

  lemma {:induction false} TagEffect(w: World, name: string, steps: seq<Step>)
    requires name in w.roots
    ensures DoAll(w, Tag(name, steps)) == w.(roots := w.roots[name := ApplyAll(w.roots[name], steps)])
  {
    if steps == [] {
      assert w.roots[name := w.roots[name]] == w.roots;
    } else {
      TagEffect(w, name, steps[..|steps| - 1]);
      assert Tag(name, steps)[..|steps| - 1] == Tag(name, steps[..|steps| - 1]);
    }
  }

  lemma {:induction false} OneRoot(plans: map<string, Plan>, w: World, name: string, steps: seq<Step>)
    requires w.pending && name in plans && name in w.roots && AllLegal(plans[name], w.roots[name], steps)
    ensures AllFit(plans, w, Tag(name, steps))
  {
    if steps != [] {
      var init := steps[..|steps| - 1];
      OneRoot(plans, w, name, init);
      TagEffect(w, name, init);
      assert Tag(name, steps)[..|steps| - 1] == Tag(name, init);
    }
  }

  lemma NextRoot(plans: map<string, Plan>, w: World, name: string, listing: seq<Path>)
    requires Inv(plans, w) && w.pending && name in plans && plans[name].name == name && Sound(plans[name])
    requires Carries(name, plans[name].original) ==> IsListing(plans[name].original.value, listing)
    ensures var a := RestoreRoot(name, w.roots[name], listing);
            var w' := DoAll(w, Tag(name, a.steps));
            && AllFit(plans, w, Tag(name, a.steps)) && Inv(plans, w') && w'.pending && w'.staged == w.staged
            && (a.error.Some? <==> Clash(plans[name]))
            && (a.error.None? ==> w'.roots[name] == Root(Some(Final(plans[name])), plans[name].original, None, true))
            && (forall n :: n in plans && n != name ==> w'.roots[n] == w.roots[n])
  {
    RestoreRootOutcome(plans[name], w.roots[name], listing);
    var steps := RestoreRoot(name, w.roots[name], listing).steps;
    OneRoot(plans, w, name, steps);
    TagEffect(w, name, steps);
    LegalPrefix(plans[name], w.roots[name], steps, |steps|);
    assert steps[..|steps|] == steps;
  }

  ghost predicate ClashIn(plans: map<string, Plan>, names: seq<string>)
    requires forall n :: n in names ==> n in plans
  {
    exists n :: n in names && Clash(plans[n])
  }

  ghost predicate Finished(plans: map<string, Plan>, w: World, names: seq<string>)
    requires forall n :: n in names ==> n in plans
  {
    forall n :: n in names ==> n in w.roots && w.roots[n] == Root(Some(Final(plans[n])), plans[n].original, None, true)
  }

  lemma OneMoreName(plans: map<string, Plan>, w: World, w': World, names: seq<string>, name: string)
    requires (forall n :: n in names ==> n in plans) && name in plans && w.roots.Keys == plans.Keys
    requires name in w'.roots && forall n :: n in plans && n != name ==> n in w'.roots && w'.roots[n] == w.roots[n]
    ensures ClashIn(plans, names + [name]) <==> ClashIn(plans, names) || Clash(plans[name])
    ensures Finished(plans, w, names) && w'.roots[name] == Root(Some(Final(plans[name])), plans[name].original, None, true) ==>
              Finished(plans, w', names + [name])
  {
    forall n ensures n in names + [name] <==> n in names || n == name {
    }
  }

  ghost predicate Reached(plans: map<string, Plan>, w: World, names: seq<string>, loop: Outcome)
    requires forall n :: n in names ==> n in plans
  {
    var w1 := DoAll(w, loop.acts);
    && AllFit(plans, w, loop.acts) && Inv(plans, w1) && w1.pending && w1.staged == w.staged
    && (loop.error.Some? <==> ClashIn(plans, names))
    && (loop.error.None? ==> Finished(plans, w1, names))
  }

  lemma ReachesNext(plans: map<string, Plan>, w: World, names: seq<string>, before: Outcome, name: string, listings: map<string, seq<Path>>)
    requires (forall n :: n in names ==> n in plans) && name in plans && Shows(plans, listings)
    requires (forall n :: n in plans ==> plans[n].name == n && Sound(plans[n]))
    requires Reached(plans, w, names, before)
    ensures Reached(plans, w, names + [name], RestoreNext(w, before, name, listings))
  {
    var w1 := DoAll(w, before.acts);
    if before.error.None? {
      NextRoot(plans, w1, name, Listing(listings, name));
      var acts := Tag(name, RestoreRoot(name, w1.roots[name], Listing(listings, name)).steps);
      OneMoreName(plans, w1, DoAll(w1, acts), names, name);
      DoSplit(w, before.acts, acts);
      FitConcat(plans, w, before.acts, acts);
    } else {
      OneMoreName(plans, w1, w1, names, name);
    }
  }

  lemma ReachedFirst(plans: map<string, Plan>, w: World)
    requires Inv(plans, w) && w.pending
    ensures Reached(plans, w, [], Outcome([], None))
  {
  }

  lemma {:induction false} RootsOutcome(plans: map<string, Plan>, w: World, names: seq<string>, listings: map<string, seq<Path>>)
    requires (forall n :: n in names ==> n in plans) && Shows(plans, listings)
    requires (forall n :: n in plans ==> plans[n].name == n && Sound(plans[n])) && Inv(plans, w) && w.pending
    ensures Reached(plans, w, names, RestoreRoots(w, names, listings))
  {
    if names == [] {
      ReachedFirst(plans, w);
    } else {
      var init, name := names[..|names| - 1], names[|names| - 1];
      assert names == init + [name];
      assert init <= names && name in names;
      RootsOutcome(plans, w, init, listings);
      ReachesNext(plans, w, init, RestoreRoots(w, init, listings), name, listings);
    }
  }

  // What a whole run does, from wherever earlier runs stopped.
  lemma RunOutcome(plans: map<string, Plan>, w: World, order: seq<string>, listings: map<string, seq<Path>>)
    requires Planned(plans, order) && Shows(plans, listings) && Inv(plans, w)
    ensures var run := RestoreAll(w, order, listings);
            && AllFit(plans, w, run.acts)
            && (run.error.Some? <==> AnyClash(plans))
            && (run.error.None? ==> DoAll(w, run.acts).roots == Restored(plans) && !DoAll(w, run.acts).pending)
  {
    if w.pending {
      RootsOutcome(plans, w, order, listings);
      LastActs(plans, w, order, RestoreRoots(w, order, listings));
    }
  }

  lemma LastActs(plans: map<string, Plan>, w: World, order: seq<string>, loop: Outcome)
    requires Planned(plans, order) && Reached(plans, w, order, loop)
    ensures loop.error.Some? <==> AnyClash(plans)
    ensures AllFit(plans, w, loop.acts)
    ensures loop.error.None? ==>
              && AllFit(plans, w, loop.acts + [ClearPending, DropStage])
              && DoAll(w, loop.acts + [ClearPending, DropStage]) == World(false, false, Restored(plans))
  {
    if loop.error.None? {
      var w1 := DoAll(w, loop.acts);
      AllFinished(plans, w1, order);
      Closing(plans, w1);
      DoSplit(w, loop.acts, [ClearPending, DropStage]);
      FitConcat(plans, w, loop.acts, [ClearPending, DropStage]);
    }
  }

  lemma AllFinished(plans: map<string, Plan>, w: World, order: seq<string>)
    requires Planned(plans, order) && w.roots.Keys == plans.Keys && Finished(plans, w, order)
    ensures w.roots == Restored(plans)
  {
  }

  lemma FitLast(plans: map<string, Plan>, w: World, acts: seq<Act>, a: Act)
    requires AllFit(plans, w, acts) && Fits(plans, DoAll(w, acts), a)
    ensures AllFit(plans, w, acts + [a]) && DoAll(w, acts + [a]) == Do(DoAll(w, acts), a)
  {
    assert (acts + [a])[..|acts|] == acts;
  }

  lemma Closing(plans: map<string, Plan>, w: World)
    requires w.roots == Restored(plans) && !AnyClash(plans)
    ensures AllFit(plans, w, [ClearPending, DropStage])
    ensures DoAll(w, [ClearPending, DropStage]) == World(false, false, w.roots)
  {
    FitLast(plans, w, [], ClearPending);
    FitLast(plans, w, [ClearPending], DropStage);
    assert [] + [ClearPending] == [ClearPending];
    assert [ClearPending] + [DropStage] == [ClearPending, DropStage];
  }

  lemma {:induction false} BootsKeep(plans: map<string, Plan>, w: World, order: seq<string>, boots: seq<Boot>)
    requires Planned(plans, order) && Inv(plans, w)
    requires forall i :: 0 <= i < |boots| ==> Shows(plans, boots[i].listings)
    ensures Inv(plans, AfterBoots(w, order, boots))
  {
    if boots != [] {
      var b := boots[|boots| - 1];
      BootsKeep(plans, w, order, boots[..|boots| - 1]);
      var w1 := AfterBoots(w, order, boots[..|boots| - 1]);
      RunOutcome(plans, w1, order, b.listings);
      var acts := RestoreAll(w1, order, b.listings).acts;
      assert acts[..|acts|] == acts;
      FitPrefix(plans, w1, acts, if b.cut <= |acts| then b.cut else |acts|);
    }
  }

  lemma QueuedInv(plans: map<string, Plan>)
    ensures Inv(plans, Queued(plans))
  {
  }

  // However often and wherever earlier starts were cut short, a root is the whole original, absent, or the
  // whole final tree, and the original is in place or kept for recovery.
  lemma RestoreNeverMixes(plans: map<string, Plan>, order: seq<string>, boots: seq<Boot>, name: string)
    requires Planned(plans, order) && name in plans
    requires forall i :: 0 <= i < |boots| ==> Shows(plans, boots[i].listings)
    ensures var w := AfterBoots(Queued(plans), order, boots);
            && name in w.roots
            && (w.roots[name].target == plans[name].original || w.roots[name].target.None?
                || w.roots[name].target == Some(Final(plans[name])))
            && (plans[name].original.Some? ==>
                  plans[name].original in {w.roots[name].target, w.roots[name].kept})
  {
    QueuedInv(plans);
    BootsKeep(plans, Queued(plans), order, boots);
    var w := AfterBoots(Queued(plans), order, boots);
    assert Stage(plans[name], w.roots[name]);
  }

  // The next start that is not cut short completes without raising exactly when no payload file blocks a
  // credential file, and its result does not depend on where the earlier ones stopped.
  lemma RestoreConverges(plans: map<string, Plan>, order: seq<string>, boots: seq<Boot>, listings: map<string, seq<Path>>)
    requires Planned(plans, order) && Shows(plans, listings)
    requires forall i :: 0 <= i < |boots| ==> Shows(plans, boots[i].listings)
    ensures var w := AfterBoots(Queued(plans), order, boots);
            var run := RestoreAll(w, order, listings);
            && (run.error.None? <==> !AnyClash(plans))
            && (run.error.None? ==>
                  var w' := DoAll(w, run.acts);
                  w'.roots == Restored(plans) && !w'.pending && RestoreAll(w', order, listings) == Outcome([], None))
  {
    QueuedInv(plans);
    BootsKeep(plans, Queued(plans), order, boots);
    RunOutcome(plans, AfterBoots(Queued(plans), order, boots), order, listings);
  }

  // A payload file where the original has a folder of credentials: no start ever completes, and nothing of
  // that payload ever comes into use.
  lemma ClashNeverCompletes(plans: map<string, Plan>, order: seq<string>, boots: seq<Boot>, name: string)
    requires Planned(plans, order) && name in plans && Clash(plans[name])
    requires forall i :: 0 <= i < |boots| ==> Shows(plans, boots[i].listings)
    ensures var w := AfterBoots(Queued(plans), order, boots);
            && w.pending && name in w.roots && !w.roots[name].committed
            && (w.roots[name].target.None? || w.roots[name].target == plans[name].original)
  {
    QueuedInv(plans);
    BootsKeep(plans, Queued(plans), order, boots);
  }

  function Workspace(): Tree {
    map[[] := Folder, ["w"] := Folder, ["w", "secrets"] := Folder, ["w", "secrets", "key"] := File([])]
  }

  // Such a plan exists.
  lemma ClashExists() returns (plan: Plan)
    ensures Sound(plan) && Clash(plan)
  {
    plan := Plan("workspaces", Some(Workspace()), map[[] := Folder, ["w"] := File([])]);
    assert Parent(["w"]) == [] && Parent(["w", "secrets"]) == ["w"] && Parent(["w", "secrets", "key"]) == ["w", "secrets"];
    assert ["w", "secrets", "key"][1] == "secrets";
    assert ["w"] < ["w", "secrets", "key"];
    assert Blocks(plan, ["w"], ["w", "secrets", "key"]);
  }
}
