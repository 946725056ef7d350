// Journaled restore at start-up, interrupted anywhere and started again
// (desktop_app/backup.py, lines 264-306).
module Restore {
  import opened Prelude
  import opened DirectoryTree

  // One planned root: the directory in use, the one kept for recovery, the staged one, the journal.
  datatype Root = Root(target: Option<Tree>, kept: Option<Tree>, replacement: Option<Tree>, committed: bool)

  // What was staged for one root, over what was there.
  datatype Plan = Plan(name: string, original: Option<Tree>, payload: Tree)

  // The single changes a run makes to one root.
  datatype Step = MoveAside | MakeFolder(path: Path) | CopyFile(path: Path, bytes: seq<bv8>) | Install | Commit

  function Apply(r: Root, s: Step): Root {
    match s
    case MoveAside => r.(target := None, kept := r.target)
    case MakeFolder(p) => if r.replacement.None? then r else r.(replacement := Some(r.replacement.value[p := Folder]))
    case CopyFile(p, bytes) => if r.replacement.None? then r else r.(replacement := Some(r.replacement.value[p := File(bytes)]))
    case Install => r.(target := r.replacement, replacement := None)
    case Commit => r.(committed := true)
  }

  function ApplyAll(r: Root, steps: seq<Step>): Root {
    if steps == [] then r else Apply(ApplyAll(r, steps[..|steps| - 1]), steps[|steps| - 1])
  }

  datatype Attempt = Attempt(steps: seq<Step>, error: Option<string>)

  // ---- What one run does to one root ----

  // Below a folder named `secrets`, itself below the root.
  predicate UnderSecrets(p: Path) {
    exists i :: 0 <= i < |p| - 1 && p[i] == "secrets"
  }

  // The entries the nested recursive listing visits, in any order, any number of times.
  ghost predicate IsListing(kept: Tree, listing: seq<Path>) {
    forall p :: p in listing <==> p in kept && UnderSecrets(p)
  }

  function MakeFolders(paths: seq<Path>): seq<Step> {
    if paths == [] then [] else MakeFolders(paths[..|paths| - 1]) + [MakeFolder(paths[|paths| - 1])]
  }

  // One visited entry: a file the replacement has nothing for is copied into it.
  function Carry(kept: Tree, r: Root, p: Path): Attempt
    requires r.replacement.Some?
  {
    var t := r.replacement.value;
    if p !in kept || !kept[p].File? || p in t || p == [] then Attempt([], None)
    else
      var ground := Standing(t, Parent(p));
      if ground in t && t[ground] == Folder
      then Attempt(MakeFolders(Missing(t, Parent(p))) + [CopyFile(p, kept[p].bytes)], None)
      else Attempt([], Some("not a directory"))
  }

  function CarryAll(kept: Tree, r: Root, listing: seq<Path>): Attempt
    requires r.replacement.Some?
    ensures ApplyAll(r, CarryAll(kept, r, listing).steps).replacement.Some?
  {
    if listing == [] then Attempt([], None)
    else
      var before := CarryAll(kept, r, listing[..|listing| - 1]);
      if before.error.Some? then before
      else
        var last := Carry(kept, ApplyAll(r, before.steps), listing[|listing| - 1]);
        CarryKeepsReplacement(kept, r, before.steps, listing[|listing| - 1]);
        Attempt(before.steps + last.steps, last.error)
  }

  lemma {:induction false} ApplySplit(r: Root, xs: seq<Step>, ys: seq<Step>)
    ensures ApplyAll(r, xs + ys) == ApplyAll(ApplyAll(r, xs), ys)
  {
    if ys == [] {
      assert xs + ys == xs;
    } else {
      assert (xs + ys)[..|xs + ys| - 1] == xs + ys[..|ys| - 1];
      ApplySplit(r, xs, ys[..|ys| - 1]);
    }
  }

  lemma ApplyLast(r: Root, xs: seq<Step>, s: Step)
    ensures ApplyAll(r, xs + [s]) == Apply(ApplyAll(r, xs), s)
  {
    assert (xs + [s])[..|xs|] == xs;
  }

  lemma {:induction false} MakeFoldersKeepReplacement(r: Root, paths: seq<Path>)
    requires r.replacement.Some?
    ensures ApplyAll(r, MakeFolders(paths)).replacement.Some?
  {
    if paths != [] {
      MakeFoldersKeepReplacement(r, paths[..|paths| - 1]);
      ApplyLast(r, MakeFolders(paths[..|paths| - 1]), MakeFolder(paths[|paths| - 1]));
    }
  }

  lemma CarryKeepsReplacement(kept: Tree, r0: Root, before: seq<Step>, p: Path)
    requires ApplyAll(r0, before).replacement.Some?
    ensures ApplyAll(r0, before + Carry(kept, ApplyAll(r0, before), p).steps).replacement.Some?
  {
    var r := ApplyAll(r0, before);
    var steps := Carry(kept, r, p).steps;
    ApplySplit(r0, before, steps);
    if steps != [] {
      var folders := MakeFolders(Missing(r.replacement.value, Parent(p)));
      MakeFoldersKeepReplacement(r, Missing(r.replacement.value, Parent(p)));
      ApplyLast(r, folders, CopyFile(p, kept[p].bytes));
    }
  }

  // Only the workspaces carry credentials over.
  predicate Carries(name: string, kept: Option<Tree>) {
    name == "workspaces" && kept.Some? && [] in kept.value && kept.value[[]] == Folder
  }

  // `apply_pending_restore`, the loop body.
  function RestoreRoot(name: string, r: Root, listing: seq<Path>): Attempt {
    if r.committed then Attempt([], None)
    else if r.replacement.Some? then
      var aside := if r.target.Some? && r.kept.None? then [MoveAside] else [];
      var r1 := ApplyAll(r, aside);
      if r1.target.Some? || r1.replacement.None? then Attempt(aside, Some("restore target changed"))
      else
        var merge := if Carries(name, r1.kept) then CarryAll(r1.kept.value, r1, listing) else Attempt([], None);
        if merge.error.Some? then Attempt(aside + merge.steps, merge.error)
        else Attempt(aside + merge.steps + [Install, Commit], None)
    else if r.target.None? then Attempt([], Some("restore data missing"))
    else Attempt([Commit], None)
  }

  // ---- What the restored root must be ----

  ghost predicate Sound(pl: Plan) {
    && WellFormed(pl.payload) && NoLinks(pl.payload)
    && (pl.original.Some? ==> WellFormed(pl.original.value))
  }

  // An original file below a `secrets` folder that the payload has nothing for.
  ghost predicate Needed(pl: Plan, p: Path) {
    && Carries(pl.name, pl.original)
    && p in pl.original.value && pl.original.value[p].File? && UnderSecrets(p) && p !in pl.payload
  }

  ghost predicate LeadsToNeeded(pl: Plan, p: Path) {
    exists q :: p <= q && Needed(pl, q)
  }

  // An entry to carry over: such a file, or a folder on the way to one.
  ghost predicate Rescued(pl: Plan, p: Path) {
    pl.original.Some? && p in pl.original.value && p !in pl.payload && LeadsToNeeded(pl, p)
  }

  ghost function Final(pl: Plan): Tree {
    if pl.original.None? then pl.payload
    else pl.payload + map p | p in pl.original.value && Rescued(pl, p) :: pl.original.value[p]
  }

  // The payload has a file where the original has a folder with a credential file below it.
  ghost predicate Blocks(pl: Plan, q: Path, p: Path) {
    && Carries(pl.name, pl.original)
    && p in pl.original.value && pl.original.value[p].File? && UnderSecrets(p)
    && q < p && q in pl.payload && pl.payload[q] != Folder
  }

  ghost predicate Clash(pl: Plan) {
    exists q, p :: Blocks(pl, q, p)
  }

  // The final tree is the payload plus exactly the original credential files the payload lacks.
  lemma FinalFiles(pl: Plan, p: Path)
    requires Sound(pl)
    ensures p in pl.payload ==> p in Final(pl) && Final(pl)[p] == pl.payload[p]
    ensures p !in pl.payload ==> (p in Final(pl) && Final(pl)[p] != Folder <==> Needed(pl, p))
    ensures Needed(pl, p) ==> Final(pl)[p] == pl.original.value[p]
  {
    if p !in pl.payload && p in Final(pl) && Final(pl)[p] != Folder {
      var q :| p <= q && Needed(pl, q);
      AboveIsFolder(pl.original.value, q, p);
    }
    if Needed(pl, p) {
      assert p <= p;
    }
  }

  // ---- Every step of the protocol ----

  ghost predicate Partial(pl: Plan, t: Tree) {
    && WellFormed(t)
    && (forall p :: p in pl.payload ==> p in t && t[p] == pl.payload[p])
    && (forall p :: p in t && p !in pl.payload ==> Rescued(pl, p) && t[p] == pl.original.value[p])
  }

  ghost predicate Untouched(pl: Plan, r: Root) {
    r == Root(pl.original, None, Some(pl.payload), false)
  }

  ghost predicate Aside(pl: Plan, r: Root) {
    && r.target.None? && r.kept == pl.original && !r.committed
    && r.replacement.Some? && Partial(pl, r.replacement.value)
  }

  ghost predicate Installed(pl: Plan, r: Root) {
    r == Root(Some(Final(pl)), pl.original, None, r.committed) && !Clash(pl)
  }

  ghost predicate Stage(pl: Plan, r: Root) {
    Untouched(pl, r) || Aside(pl, r) || Installed(pl, r)
  }

  ghost predicate CanAdd(pl: Plan, r: Root, p: Path, n: Node) {
    && Aside(pl, r) && p != [] && p !in r.replacement.value
    && Rescued(pl, p) && pl.original.value[p] == n
    && Parent(p) in r.replacement.value && r.replacement.value[Parent(p)] == Folder
  }

  // When a step is right.
  ghost predicate Legal(pl: Plan, r: Root, s: Step) {
    match s
    case MoveAside => Untouched(pl, r)
    case MakeFolder(p) => CanAdd(pl, r, p, Folder)
    case CopyFile(p, bytes) => CanAdd(pl, r, p, File(bytes))
    case Install => r == Root(None, pl.original, Some(Final(pl)), false) && !Clash(pl)
    case Commit => Installed(pl, r)
  }

  ghost predicate AllLegal(pl: Plan, r: Root, steps: seq<Step>) {
    steps == [] || (AllLegal(pl, r, steps[..|steps| - 1]) && Legal(pl, ApplyAll(r, steps[..|steps| - 1]), steps[|steps| - 1]))
  }

  lemma AddKeeps(pl: Plan, r: Root, p: Path, n: Node)
    requires CanAdd(pl, r, p, n)
    ensures Aside(pl, r.(replacement := Some(r.replacement.value[p := n])))
  {
    AddedEntry(r.replacement.value, p, n);
  }

  lemma LegalKeeps(pl: Plan, r: Root, s: Step)
    requires Sound(pl) && Stage(pl, r) && Legal(pl, r, s)
    ensures Stage(pl, Apply(r, s))
  {
    match s
    case MakeFolder(p) => AddKeeps(pl, r, p, Folder);
    case CopyFile(p, bytes) => AddKeeps(pl, r, p, File(bytes));
    case MoveAside => assert Partial(pl, pl.payload);
    case Install =>
    case Commit =>
  }

  lemma {:induction false} LegalPrefix(pl: Plan, r: Root, steps: seq<Step>, k: nat)
    requires Sound(pl) && Stage(pl, r) && AllLegal(pl, r, steps) && k <= |steps|
    ensures AllLegal(pl, r, steps[..k]) && Stage(pl, ApplyAll(r, steps[..k]))
  {
    if steps == [] {
    } else {
      var init := steps[..|steps| - 1];
      if k == |steps| {
        LegalPrefix(pl, r, init, k - 1);
        assert init[..k - 1] == init && steps[..k] == steps;
        LegalKeeps(pl, ApplyAll(r, init), steps[|steps| - 1]);
      } else {
        assert init[..k] == steps[..k];
        LegalPrefix(pl, r, init, k);
      }
    }
  }

  lemma {:induction false} LegalConcat(pl: Plan, r: Root, xs: seq<Step>, ys: seq<Step>)
    requires AllLegal(pl, r, xs) && AllLegal(pl, ApplyAll(r, xs), ys)
    ensures AllLegal(pl, r, xs + ys)
  {
    if ys == [] {
      assert xs + ys == xs;
    } else {
      var init := ys[..|ys| - 1];
      LegalConcat(pl, r, xs, init);
      ApplySplit(r, xs, init);
      assert (xs + ys)[..|xs + ys| - 1] == xs + init;
    }
  }

  lemma LegalOne(pl: Plan, r: Root, s: Step)
    requires Legal(pl, r, s)
    ensures AllLegal(pl, r, [s]) && ApplyAll(r, [s]) == Apply(r, s)
  {
    assert [s][..0] == [];
  }

  // ---- Carrying credentials over ----

  ghost predicate Grown(r: Root, r': Root)
    requires r.replacement.Some?
  {
    r'.replacement.Some? && r.replacement.value.Keys <= r'.replacement.value.Keys
  }

  lemma {:induction false} MakeFoldersLegal(pl: Plan, r: Root, x: Path, p: Path)
    requires Sound(pl) && Aside(pl, r) && Needed(pl, p) && x < p
    requires var t := r.replacement.value; Standing(t, x) in t && t[Standing(t, x)] == Folder
    ensures var t := r.replacement.value;
            var steps := MakeFolders(Missing(t, x));
            var r' := ApplyAll(r, steps);
            && AllLegal(pl, r, steps) && Aside(pl, r') && Grown(r, r')
            && x in r'.replacement.value && r'.replacement.value[x] == Folder
            && forall y :: y in r'.replacement.value ==> y in t || y <= x
    decreases |x|
  {
    var t := r.replacement.value;
    if x !in t && x != [] {
      assert Parent(x) < x;
      MakeFoldersLegal(pl, r, Parent(x), p);
      var above := MakeFolders(Missing(t, Parent(x)));
      MakeOneFolder(pl, ApplyAll(r, above), x, p);
      ApplyLast(r, above, MakeFolder(x));
      LegalConcat(pl, r, above, [MakeFolder(x)]);
    }
  }

  lemma OnTheWay(pl: Plan, x: Path, p: Path)
    requires Sound(pl) && Needed(pl, p) && x <= p && x !in pl.payload
    ensures Rescued(pl, x) && (x != p ==> pl.original.value[x] == Folder)
  {
    AboveIsFolder(pl.original.value, p, x);
  }

  lemma MakeOneFolder(pl: Plan, r: Root, x: Path, p: Path)
    requires Sound(pl) && Aside(pl, r) && Needed(pl, p) && x < p && x != [] && x !in r.replacement.value
    requires Parent(x) in r.replacement.value && r.replacement.value[Parent(x)] == Folder
    ensures AllLegal(pl, r, [MakeFolder(x)]) && Aside(pl, Apply(r, MakeFolder(x)))
  {
    OnTheWay(pl, x, p);
    AddKeeps(pl, r, x, Folder);
    LegalOne(pl, r, MakeFolder(x));
  }

  lemma CarryOutcome(pl: Plan, r: Root, p: Path)
    requires Sound(pl) && Aside(pl, r) && Carries(pl.name, pl.original)
    requires p in pl.original.value && UnderSecrets(p)
    ensures var a := Carry(pl.original.value, r, p);
            var r' := ApplyAll(r, a.steps);
            && AllLegal(pl, r, a.steps) && Aside(pl, r') && Grown(r, r')
            && (a.error.None? && pl.original.value[p].File? ==> p in r'.replacement.value)
            && (a.error.Some? ==> Clash(pl))
  {
    var t := r.replacement.value;
    if pl.original.value[p].File? && p !in t {
      assert Needed(pl, p);
      var x := Parent(p);
      var ground := Standing(t, x);
      if t[ground] == Folder {
        MakeFoldersLegal(pl, r, x, p);
        var folders := MakeFolders(Missing(t, x));
        var r1 := ApplyAll(r, folders);
        var last := CopyFile(p, pl.original.value[p].bytes);
        assert p <= p;
        assert CanAdd(pl, r1, p, pl.original.value[p]);
        AddKeeps(pl, r1, p, pl.original.value[p]);
        ApplyLast(r, folders, last);
        LegalOne(pl, r1, last);
        LegalConcat(pl, r, folders, [last]);
      } else {
        if ground !in pl.payload {
          AboveIsFolder(pl.original.value, p, ground);
        }
        assert Blocks(pl, ground, p);
      }
    }
  }

  lemma {:induction false} CarryAllOutcome(pl: Plan, r: Root, listing: seq<Path>)
    requires Sound(pl) && Aside(pl, r) && Carries(pl.name, pl.original)
    requires forall p :: p in listing ==> p in pl.original.value && UnderSecrets(p)
    ensures var a := CarryAll(pl.original.value, r, listing);
            var r' := ApplyAll(r, a.steps);
            && AllLegal(pl, r, a.steps) && Aside(pl, r') && Grown(r, r')
            && (a.error.None? ==> forall p :: p in listing && pl.original.value[p].File? ==> p in r'.replacement.value)
            && (a.error.Some? ==> Clash(pl))
  {
    if listing != [] {
      var init, p := listing[..|listing| - 1], listing[|listing| - 1];
      CarryAllOutcome(pl, r, init);
      var before := CarryAll(pl.original.value, r, init);
      if before.error.None? {
        CarryOutcome(pl, ApplyAll(r, before.steps), p);
        var last := Carry(pl.original.value, ApplyAll(r, before.steps), p);
        ApplySplit(r, before.steps, last.steps);
        LegalConcat(pl, r, before.steps, last.steps);
        forall x | x in listing ensures x in init || x == p {
        }
      }
    }
  }

  // A replacement that has every needed file is the final tree, and nothing blocked it.
  lemma Complete(pl: Plan, t: Tree)
    requires Sound(pl) && Partial(pl, t)
    requires forall p :: Needed(pl, p) ==> p in t
    ensures t == Final(pl) && !Clash(pl)
  {
    WholeFinal(pl, t);
    if q, p :| Blocks(pl, q, p) {
      NotBlocked(pl, t, q, p);
    }
  }

  lemma WholeFinal(pl: Plan, t: Tree)
    requires Sound(pl) && Partial(pl, t)
    requires forall p :: Needed(pl, p) ==> p in t
    ensures t == Final(pl)
  {
    forall x | Rescued(pl, x) ensures x in t {
      var q :| x <= q && Needed(pl, q);
      AboveIsFolder(t, q, x);
    }
    assert forall x :: x in t <==> x in Final(pl);
    assert forall x :: x in t ==> t[x] == Final(pl)[x];
  }

  lemma NotBlocked(pl: Plan, t: Tree, q: Path, p: Path)
    requires Partial(pl, t) && (Needed(pl, p) ==> p in t)
    ensures !Blocks(pl, q, p)
  {
    if Blocks(pl, q, p) {
      assert p in pl.payload || Needed(pl, p);
      AboveIsFolder(t, p, q);
    }
  }

  lemma MergeOutcome(pl: Plan, r: Root, listing: seq<Path>)
    requires Sound(pl) && Aside(pl, r)
    requires Carries(pl.name, pl.original) ==> IsListing(pl.original.value, listing)
    ensures var merge := if Carries(pl.name, r.kept) then CarryAll(r.kept.value, r, listing) else Attempt([], None);
            var r' := ApplyAll(r, merge.steps);
            && AllLegal(pl, r, merge.steps) && Aside(pl, r')
            && (merge.error.Some? <==> Clash(pl))
            && (merge.error.None? ==> r'.replacement == Some(Final(pl)))
  {
    if Carries(pl.name, pl.original) {
      CarryAllOutcome(pl, r, listing);
      var merge := CarryAll(pl.original.value, r, listing);
      if merge.error.None? {
        Complete(pl, ApplyAll(r, merge.steps).replacement.value);
      }
    } else {
      Complete(pl, r.replacement.value);
    }
  }

  // From any stage a run either completes the root, or the payload blocks a credential file.
  lemma RestoreRootOutcome(pl: Plan, r: Root, listing: seq<Path>)
    requires Sound(pl) && Stage(pl, r)
    requires Carries(pl.name, pl.original) ==> IsListing(pl.original.value, listing)
    ensures var a := RestoreRoot(pl.name, r, listing);
            && AllLegal(pl, r, a.steps)
            && (a.error.Some? <==> Clash(pl))
            && (a.error.None? ==> ApplyAll(r, a.steps) == Root(Some(Final(pl)), pl.original, None, true))
  {
    if !Installed(pl, r) {
      var aside := if r.target.Some? && r.kept.None? then [MoveAside] else [];
      var r1 := ApplyAll(r, aside);
      if aside != [] { LegalOne(pl, r, MoveAside); }
      assert Partial(pl, pl.payload);
      assert Aside(pl, r1);
      MergeOutcome(pl, r1, listing);
      var merge := if Carries(pl.name, r1.kept) then CarryAll(r1.kept.value, r1, listing) else Attempt([], None);
      LegalConcat(pl, r, aside, merge.steps);
      ApplySplit(r, aside, merge.steps);
      if merge.error.None? {
        Finishing(pl, ApplyAll(r1, merge.steps));
        LegalConcat(pl, r, aside + merge.steps, [Install, Commit]);
        ApplySplit(r, aside + merge.steps, [Install, Commit]);
      }
    } else if !r.committed {
      LegalOne(pl, r, Commit);
    }
  }

  lemma Finishing(pl: Plan, r: Root)
    requires r == Root(None, pl.original, Some(Final(pl)), false) && !Clash(pl)
    ensures AllLegal(pl, r, [Install, Commit])
    ensures ApplyAll(r, [Install, Commit]) == Root(Some(Final(pl)), pl.original, None, true)
  {
    LegalOne(pl, r, Install);
    LegalOne(pl, Apply(r, Install), Commit);
    LegalConcat(pl, r, [Install], [Commit]);
    ApplyLast(r, [Install], Commit);
    assert [Install] + [Commit] == [Install, Commit];
  }
}
