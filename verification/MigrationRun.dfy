// Whole runs of the migration over its journal, across any number of crashes
// (desktop_app/environment.py, lines 138-183).
module MigrationRun {
  import opened Prelude
  import opened DirectoryTree
  import opened Migration

  // ---- One root ----

  // What one run meets while it works on a root: the order of `rmtree`, what the copy sees, and the
  // source when the digests are compared at the end.
  datatype Scan = Scan(removal: seq<Path>, visits: seq<Visit>, finally: Tree)

  datatype Attempt = Attempt(steps: seq<Step>, error: Option<string>)

  // `shutil.rmtree`: everything below, then the directory itself.
  function ClearBelow(r: Root, removal: seq<Path>): seq<Step> {
    if removal == [] then []
    else
      var before := ClearBelow(r, removal[..|removal| - 1]);
      var p := removal[|removal| - 1];
      if p != [] && p in ApplyAll(r, before).copied then before + [Remove(p)] else before
  }

  function Clear(r: Root, removal: seq<Path>): seq<Step> {
    if [] in r.copied then ClearBelow(r, removal) + [Remove([])] else []
  }

  // `_migrate_legacy`, the loop body.
  function MigrateRoot(r: Root, scan: Scan): Attempt {
    if r.committed then Attempt([], None)
    else if r.target.Some? then
      if [] in r.copied || !r.marked then Attempt([], Some("migration target has data")) else Attempt([Commit], None)
    else
      var clear := Clear(r, scan.removal);
      var copying := CopyVerified(ApplyAll(r, clear), scan.visits, scan.finally);
      if copying.error.Some? then Attempt(clear + copying.steps, copying.error)
      else Attempt(clear + copying.steps + [Mark, Install, Commit], None)
  }

  ghost predicate Quiet(source: Tree, scan: Scan) {
    && (forall p :: p in source && p != [] ==> p in scan.removal)
    && Lists(scan.visits, source) && scan.finally == source
  }

  // The target is absent, or the whole source.
  ghost predicate Stage(source: Tree, r: Root) {
    || (r.target.None? && !r.committed && r.copied.Keys <= source.Keys && (r.copied == map[] || [] in r.copied))
    || (r == Root(Some(source), map[], true, r.committed) && NoLinks(source))
  }

  ghost predicate Legal(source: Tree, r: Root, s: Step) {
    match s
    case Remove(p) => r.target.None? && (p != [] || r.copied.Keys <= {[]})
    case MakeFolder(p) => r.target.None? && p in source && (p == [] || [] in r.copied)
    case CopyFile(p, _) => r.target.None? && p in source && [] in r.copied
    case Mark => r.target.None?
    case Install => r.target.None? && r.marked && r.copied == source && NoLinks(source)
    case Commit => r.target.Some?
  }

  ghost predicate AllLegal(source: Tree, r: Root, steps: seq<Step>) {
    steps == [] || (AllLegal(source, r, steps[..|steps| - 1]) && Legal(source, ApplyAll(r, steps[..|steps| - 1]), steps[|steps| - 1]))
  }

  lemma LegalKeeps(source: Tree, r: Root, s: Step)
    requires Stage(source, r) && Legal(source, r, s)
    ensures Stage(source, Apply(r, s))
  {
    if s == Remove([]) {
      assert forall p :: p in (r.copied - {[]}) ==> p in r.copied && p != [];
      assert r.copied - {[]} == map[];
    }
  }

  lemma {:induction false} LegalConcat(source: Tree, r: Root, xs: seq<Step>, ys: seq<Step>)
    requires AllLegal(source, r, xs) && AllLegal(source, ApplyAll(r, xs), ys)
    ensures AllLegal(source, r, xs + ys)
  {
    if ys == [] {
      assert xs + ys == xs;
    } else {
      var init := ys[..|ys| - 1];
      LegalConcat(source, r, xs, init);
      ApplySplit(r, xs, init);
      assert (xs + ys)[..|xs + ys| - 1] == xs + init;
    }
  }

  lemma LegalLast(source: Tree, r: Root, steps: seq<Step>, s: Step)
    requires AllLegal(source, r, steps) && Legal(source, ApplyAll(r, steps), s)
    ensures AllLegal(source, r, steps + [s])
  {
    assert (steps + [s])[..|steps|] == steps;
  }

  // Steps that only add entries the source has.
  ghost predicate Adds(source: Tree, steps: seq<Step>) {
    forall i :: 0 <= i < |steps| ==>
      (steps[i].MakeFolder? && steps[i].path in source) || (steps[i].CopyFile? && steps[i].path in source)
  }

  lemma {:induction false} AddsLegal(source: Tree, r: Root, steps: seq<Step>)
    requires Adds(source, steps) && r.target.None? && [] in r.copied
    ensures AllLegal(source, r, steps)
    ensures ApplyAll(r, steps).target.None? && [] in ApplyAll(r, steps).copied
    ensures ApplyAll(r, steps) == r.(copied := ApplyAll(r, steps).copied)
  {
    if steps != [] {
      AddsLegal(source, r, steps[..|steps| - 1]);
    }
  }

  lemma {:induction false} MkdirAdds(source: Tree, t: Tree, p: Path)
    requires WellFormed(source) && p in source
    ensures Adds(source, MakeFolders(Missing(t, p)))
    decreases |p|
  {
    if p !in t && p != [] {
      MkdirAdds(source, t, Parent(p));
    }
  }

  lemma AddsConcat(source: Tree, xs: seq<Step>, ys: seq<Step>)
    requires Adds(source, xs) && Adds(source, ys)
    ensures Adds(source, xs + ys)
  {
  }

  lemma MkdirWholeAdds(source: Tree, t: Tree, p: Path)
    requires WellFormed(source) && p in source && Mkdir(t, p).Some?
    ensures Adds(source, Mkdir(t, p).value)
  {
    MkdirAdds(source, t, p);
    assert Adds(source, [MakeFolder([])]);
    AddsConcat(source, [MakeFolder([])], MakeFolders(Missing(t, p)));
  }

  lemma VisitAdds(source: Tree, r: Root, v: Visit)
    requires WellFormed(source) && v.path in source && v.path != []
    ensures Adds(source, CopyOne(r, v).steps)
  {
    var p := if v.seen == Some(Folder) then v.path else Parent(v.path);
    assert p in source;
    if v.seen.Some? && !v.seen.value.Link? && Mkdir(r.copied, p).Some? {
      MkdirWholeAdds(source, r.copied, p);
      if v.seen.value.File? {
        AddsConcat(source, Mkdir(r.copied, p).value, [CopyFile(v.path, v.seen.value.bytes)]);
      }
    }
  }

  lemma {:induction false} CopyAdds(source: Tree, r: Root, visits: seq<Visit>)
    requires WellFormed(source) && Sorted(visits) && Steady(visits, source)
    ensures Adds(source, CopyListed(r, visits).steps)
  {
    if visits != [] {
      var init, v := visits[..|visits| - 1], visits[|visits| - 1];
      ListedInit(visits, source);
      CopyAdds(source, r, init);
      VisitAdds(source, ApplyAll(r, CopyListed(r, init).steps), v);
      AddsConcat(source, CopyListed(r, init).steps, CopyOne(ApplyAll(r, CopyListed(r, init).steps), v).steps);
    }
  }

  lemma ListedInit(visits: seq<Visit>, source: Tree)
    requires visits != [] && Sorted(visits) && Steady(visits, source)
    ensures var init, v := visits[..|visits| - 1], visits[|visits| - 1];
            Sorted(init) && Steady(init, source) && v.path in source && v.path != []
  {
    var init, v := visits[..|visits| - 1], visits[|visits| - 1];
    assert visits == init + [v];
    SortedPrefix(init, v);
    LinkFreeNext(init, v, source);
  }

  // ---- Clearing what an earlier run left ----

  lemma {:induction false} ClearBelowLegal(source: Tree, r: Root, removal: seq<Path>)
    requires r.target.None? && [] in r.copied
    ensures AllLegal(source, r, ClearBelow(r, removal))
    ensures var r' := ApplyAll(r, ClearBelow(r, removal));
            && r' == r.(copied := r'.copied) && [] in r'.copied && r'.copied.Keys <= r.copied.Keys
            && forall p :: p in removal && p != [] ==> p !in r'.copied
  {
    if removal != [] {
      var init, p := removal[..|removal| - 1], removal[|removal| - 1];
      assert removal == init + [p];
      ClearBelowLegal(source, r, init);
      var before := ClearBelow(r, init);
      if p != [] && p in ApplyAll(r, before).copied {
        LegalLast(source, r, before, Remove(p));
        ApplyLast(r, before, Remove(p));
      }
    }
  }

  lemma ClearLegal(source: Tree, r: Root, removal: seq<Path>)
    requires Stage(source, r) && r.target.None? && forall p :: p in source && p != [] ==> p in removal
    ensures AllLegal(source, r, Clear(r, removal))
    ensures ApplyAll(r, Clear(r, removal)) == r.(copied := map[])
  {
    if [] in r.copied {
      ClearBelowLegal(source, r, removal);
      var below := ClearBelow(r, removal);
      LegalLast(source, r, below, Remove([]));
      ApplyLast(r, below, Remove([]));
    }
  }

  // From any stage, a run that sees a quiet source completes the root, unless the source has a link.
  lemma MigrateRootOutcome(source: Tree, r: Root, scan: Scan)
    requires WellFormed(source) && source[[]] == Folder && Stage(source, r) && Quiet(source, scan)
    ensures var a := MigrateRoot(r, scan);
            && AllLegal(source, r, a.steps)
            && (a.error.None? <==> NoLinks(source))
            && (a.error.None? ==> ApplyAll(r, a.steps) == Root(Some(source), map[], true, true))
  {
    if r.target.Some? {
      if !r.committed { LegalLast(source, r, [], Commit); ApplyLast(r, [], Commit); assert [] + [Commit] == [Commit]; }
    } else {
      var clear := Clear(r, scan.removal);
      ClearLegal(source, r, scan.removal);
      var r1 := r.(copied := map[]);
      var copying := CopyVerified(r1, scan.visits, source);
      CopyLegal(source, r1, scan.visits);
      QuietCopy(r1, scan.visits, source);
      ApplySplit(r, clear, copying.steps);
      LegalConcat(source, r, clear, copying.steps);
      if copying.error.None? {
        Finishing(source, r, clear + copying.steps);
      }
    }
  }

  lemma CopyLegal(source: Tree, r: Root, visits: seq<Visit>)
    requires WellFormed(source) && r.target.None? && r.copied == map[] && Lists(visits, source)
    ensures AllLegal(source, r, CopyVerified(r, visits, source).steps)
  {
    var r1 := r.(copied := map[[] := Folder]);
    CopyAdds(source, r1, visits);
    AddingLegal(source, r, CopyListed(r1, visits).steps);
    CopySteps(r, visits, source);
  }

  lemma CopySteps(r: Root, visits: seq<Visit>, finally: Tree)
    requires r.copied == map[]
    ensures CopyVerified(r, visits, finally).steps
         == [MakeFolder([])] + CopyListed(r.(copied := map[[] := Folder]), visits).steps
  {
    Started(r);
  }

  lemma AddingLegal(source: Tree, r: Root, steps: seq<Step>)
    requires [] in source && r.target.None? && r.copied == map[] && Adds(source, steps)
    ensures AllLegal(source, r, [MakeFolder([])] + steps)
  {
    Started(r);
    StartLegal(source, r);
    AddsLegal(source, r.(copied := map[[] := Folder]), steps);
    LegalConcat(source, r, [MakeFolder([])], steps);
  }

  lemma StartLegal(source: Tree, r: Root)
    requires [] in source && r.target.None?
    ensures AllLegal(source, r, [MakeFolder([])])
  {
    LegalLast(source, r, [], MakeFolder([]));
    assert [] + [MakeFolder([])] == [MakeFolder([])];
  }

  lemma Finishing(source: Tree, r: Root, steps: seq<Step>)
    requires AllLegal(source, r, steps) && ApplyAll(r, steps).target.None? && ApplyAll(r, steps).copied == source && NoLinks(source)
    ensures AllLegal(source, r, steps + [Mark, Install, Commit])
    ensures ApplyAll(r, steps + [Mark, Install, Commit]) == Root(Some(source), map[], true, true)
  {
    LegalLast(source, r, steps, Mark);
    ApplyLast(r, steps, Mark);
    LegalLast(source, r, steps + [Mark], Install);
    ApplyLast(r, steps + [Mark], Install);
    LegalLast(source, r, steps + [Mark] + [Install], Commit);
    ApplyLast(r, steps + [Mark] + [Install], Commit);
    assert steps + [Mark] + [Install] + [Commit] == steps + [Mark, Install, Commit];
  }

  // ---- All roots, under the journal ----

  datatype Journal = Absent | Open | Complete

  // `taken`: the data folder has one of the two directories although no legacy one corresponds to it.
  datatype World = World(journal: Journal, taken: bool, roots: map<string, Root>)

  datatype Act = Begin | On(name: string, step: Step) | Finish

  function Do(w: World, a: Act): World {
    match a
    case Begin => w.(journal := Open)
    case On(n, s) => if n in w.roots then w.(roots := w.roots[n := Apply(w.roots[n], s)]) else w
    case Finish => w.(journal := Complete)
  }

  function DoAll(w: World, acts: seq<Act>): World {
    if acts == [] then w else Do(DoAll(w, acts[..|acts| - 1]), acts[|acts| - 1])
  }

  function Tag(name: string, steps: seq<Step>): (acts: seq<Act>)
    ensures |acts| == |steps| && forall i :: 0 <= i < |steps| ==> acts[i] == On(name, steps[i])
  {
    seq(|steps|, i requires 0 <= i < |steps| => On(name, steps[i]))
  }

  datatype Outcome = Outcome(acts: seq<Act>, error: Option<string>)

  function MigrateNext(w: World, before: Outcome, name: string, scans: map<string, Scan>): Outcome {
    var w1 := DoAll(w, before.acts);
    if before.error.Some? || name !in w1.roots || name !in scans then before
    else
      var last := MigrateRoot(w1.roots[name], scans[name]);
      Outcome(before.acts + Tag(name, last.steps), last.error)
  }

  function MigrateRoots(w: World, order: seq<string>, scans: map<string, Scan>): Outcome {
    if order == [] then Outcome([], None)
    else MigrateNext(w, MigrateRoots(w, order[..|order| - 1], scans), order[|order| - 1], scans)
  }

  // Only a data folder with neither directory takes legacy ones over.
  predicate Eligible(w: World) {
    "workspaces" in w.roots && !w.taken && forall n :: n in w.roots ==> w.roots[n].target.None?
  }

  // `_migrate_legacy`.
  function Migrate(w: World, order: seq<string>, scans: map<string, Scan>): Outcome {
    if w.journal == Complete || (w.journal == Absent && !Eligible(w)) then Outcome([], None)
    else
      var begin := if w.journal == Absent then [Begin] else [];
      var loop := MigrateRoots(DoAll(w, begin), order, scans);
      if loop.error.Some? then Outcome(begin + loop.acts, loop.error)
      else Outcome(begin + loop.acts + [Finish], None)
  }

  datatype Boot = Boot(scans: map<string, Scan>, cut: nat)

  function Interrupted(w: World, order: seq<string>, b: Boot): World {
    var acts := Migrate(w, order, b.scans).acts;
    DoAll(w, if b.cut <= |acts| then acts[..b.cut] else acts)
  }

  function AfterBoots(w: World, order: seq<string>, boots: seq<Boot>): World {
    if boots == [] then w
    else Interrupted(AfterBoots(w, order, boots[..|boots| - 1]), order, boots[|boots| - 1])
  }

  ghost predicate Sources(sources: map<string, Tree>, order: seq<string>) {
    && "workspaces" in sources && (forall n :: n in order <==> n in sources)
    && (forall n :: n in sources ==> WellFormed(sources[n]) && sources[n][[]] == Folder)
  }

  ghost predicate AllQuiet(sources: map<string, Tree>, scans: map<string, Scan>) {
    forall n :: n in sources ==> n in scans && Quiet(sources[n], scans[n])
  }

  ghost predicate LinkFreeSources(sources: map<string, Tree>) {
    forall n :: n in sources ==> NoLinks(sources[n])
  }

  function Fresh(sources: map<string, Tree>): World {
    World(Absent, false, map n | n in sources :: Root(None, map[], false, false))
  }

  function Migrated(sources: map<string, Tree>): map<string, Root> {
    map n | n in sources :: Root(Some(sources[n]), map[], true, true)
  }

  ghost predicate Inv(sources: map<string, Tree>, w: World) {
    && w.roots.Keys == sources.Keys && !w.taken
    && (forall n :: n in sources ==> Stage(sources[n], w.roots[n]))
    && (w.journal == Absent ==> forall n :: n in sources ==> w.roots[n].target.None?)
    && (w.journal == Complete ==> w.roots == Migrated(sources) && LinkFreeSources(sources))
  }

  ghost predicate Fits(sources: map<string, Tree>, w: World, a: Act) {
    match a
    case Begin => w.journal == Absent
    case On(n, s) => w.journal == Open && n in sources && n in w.roots && Legal(sources[n], w.roots[n], s)
    case Finish => w.roots == Migrated(sources) && LinkFreeSources(sources)
  }

  ghost predicate AllFit(sources: map<string, Tree>, w: World, acts: seq<Act>) {
    acts == [] || (AllFit(sources, w, acts[..|acts| - 1]) && Fits(sources, DoAll(w, acts[..|acts| - 1]), acts[|acts| - 1]))
  }

  lemma FitKeeps(sources: map<string, Tree>, w: World, a: Act)
    requires Inv(sources, w) && Fits(sources, w, a)
    ensures Inv(sources, Do(w, a))
  {
    if a.On? {
      LegalKeeps(sources[a.name], w.roots[a.name], a.step);
    }
  }

  lemma {:induction false} FitPrefix(sources: map<string, Tree>, w: World, acts: seq<Act>, k: nat)
    requires Inv(sources, w) && AllFit(sources, w, acts) && k <= |acts|
    ensures Inv(sources, DoAll(w, acts[..k]))
  {
    if acts != [] {
      var init := acts[..|acts| - 1];
      if k == |acts| {
        FitPrefix(sources, w, init, k - 1);
        assert init[..k - 1] == init && acts[..k] == acts;
        FitKeeps(sources, DoAll(w, init), acts[|acts| - 1]);
      } else {
        assert init[..k] == acts[..k];
        FitPrefix(sources, w, init, k);
      }
    }
  }

  lemma {:induction false} DoSplit(w: World, xs: seq<Act>, ys: seq<Act>)
    ensures DoAll(w, xs + ys) == DoAll(DoAll(w, xs), ys)
  {
    if ys == [] {
      assert xs + ys == xs;
    } else {
      assert (xs + ys)[..|xs + ys| - 1] == xs + ys[..|ys| - 1];
      DoSplit(w, xs, ys[..|ys| - 1]);
    }
  }

  lemma {:induction false} FitConcat(sources: map<string, Tree>, w: World, xs: seq<Act>, ys: seq<Act>)
    requires AllFit(sources, w, xs) && AllFit(sources, DoAll(w, xs), ys)
    ensures AllFit(sources, w, xs + ys)
  {
    if ys == [] {
      assert xs + ys == xs;
    } else {
      var init := ys[..|ys| - 1];
      FitConcat(sources, w, xs, init);
      DoSplit(w, xs, init);
      assert (xs + ys)[..|xs + ys| - 1] == xs + init;
    }
  }

  lemma {:induction false} TagEffect(w: World, name: string, steps: seq<Step>)
    requires name in w.roots
    ensures DoAll(w, Tag(name, steps)) == w.(roots := w.roots[name := ApplyAll(w.roots[name], steps)])
  {
    if steps == [] {
      assert w.roots[name := w.roots[name]] == w.roots;
    } else {
      TagEffect(w, name, steps[..|steps| - 1]);
      assert Tag(name, steps)[..|steps| - 1] == Tag(name, steps[..|steps| - 1]);
    }
  }

  lemma {:induction false} TagFits(sources: map<string, Tree>, w: World, name: string, steps: seq<Step>)
    requires w.journal == Open && name in sources && name in w.roots && AllLegal(sources[name], w.roots[name], steps)
    ensures AllFit(sources, w, Tag(name, steps))
  {
    if steps != [] {
      TagFits(sources, w, name, steps[..|steps| - 1]);
      TagEffect(w, name, steps[..|steps| - 1]);
      assert Tag(name, steps)[..|steps| - 1] == Tag(name, steps[..|steps| - 1]);
    }
  }

  lemma NextRoot(sources: map<string, Tree>, w: World, name: string, scan: Scan)
    requires Inv(sources, w) && w.journal == Open && name in sources
    requires WellFormed(sources[name]) && sources[name][[]] == Folder && Quiet(sources[name], scan)
    ensures var a := MigrateRoot(w.roots[name], scan);
            var w' := DoAll(w, Tag(name, a.steps));
            && AllFit(sources, w, Tag(name, a.steps)) && Inv(sources, w') && w'.journal == Open
            && (a.error.None? <==> NoLinks(sources[name]))
            && (a.error.None? ==> w'.roots == w.roots[name := Migrated(sources)[name]])
  {
    MigrateRootOutcome(sources[name], w.roots[name], scan);
    var steps := MigrateRoot(w.roots[name], scan).steps;
    TagEffect(w, name, steps);
    TagFits(sources, w, name, steps);
    FitPrefix(sources, w, Tag(name, steps), |steps|);
    assert Tag(name, steps)[..|steps|] == Tag(name, steps);
  }

  ghost predicate Reached(sources: map<string, Tree>, w: World, names: seq<string>, loop: Outcome) {
    var w1 := DoAll(w, loop.acts);
    && AllFit(sources, w, loop.acts) && Inv(sources, w1) && w1.journal == Open
    && (loop.error.None? <==> forall n :: n in names && n in sources ==> NoLinks(sources[n]))
    && (loop.error.None? ==> forall n :: n in names && n in sources ==> w1.roots[n] == Root(Some(sources[n]), map[], true, true))
  }

  lemma ReachesNext(sources: map<string, Tree>, w: World, names: seq<string>, before: Outcome, name: string, scans: map<string, Scan>)
    requires name in sources && AllQuiet(sources, scans) && Reached(sources, w, names, before)
    requires WellFormed(sources[name]) && sources[name][[]] == Folder
    ensures Reached(sources, w, names + [name], MigrateNext(w, before, name, scans))
  {
    forall n ensures n in names + [name] <==> n in names || n == name {
    }
    if before.error.None? {
      var w1 := DoAll(w, before.acts);
      NextRoot(sources, w1, name, scans[name]);
      var acts := Tag(name, MigrateRoot(w1.roots[name], scans[name]).steps);
      DoSplit(w, before.acts, acts);
      FitConcat(sources, w, before.acts, acts);
    }
  }

  lemma {:induction false} RootsOutcome(sources: map<string, Tree>, w: World, names: seq<string>, scans: map<string, Scan>)
    requires (forall n :: n in names ==> n in sources && WellFormed(sources[n]) && sources[n][[]] == Folder)
    requires AllQuiet(sources, scans) && Inv(sources, w) && w.journal == Open
    ensures Reached(sources, w, names, MigrateRoots(w, names, scans))
  {
    if names != [] {
      var init, name := names[..|names| - 1], names[|names| - 1];
      assert names == init + [name];
      assert name in names;
      RootsOutcome(sources, w, init, scans);
      ReachesNext(sources, w, init, MigrateRoots(w, init, scans), name, scans);
    }
  }

  // What a whole run does, from wherever earlier runs stopped.
  lemma RunOutcome(sources: map<string, Tree>, w: World, order: seq<string>, scans: map<string, Scan>)
    requires Sources(sources, order) && AllQuiet(sources, scans) && Inv(sources, w)
    ensures var run := Migrate(w, order, scans);
            && AllFit(sources, w, run.acts)
            && (run.error.None? <==> LinkFreeSources(sources))
            && (run.error.None? ==> DoAll(w, run.acts) == World(Complete, false, Migrated(sources)))
  {
    if w.journal == Open {
      OpenRun(w, order, scans);
      Resumes(sources, w, order, [], scans);
    } else if w.journal == Absent {
      FirstJournal(sources, w);
      FreshIsEligible(sources, w, order);
      FirstRun(w, order, scans);
      Resumes(sources, w, order, [Begin], scans);
    }
  }

  // A whole run, split into opening the journal, the loop, and closing it.
  function WholeRun(w: World, begin: seq<Act>, order: seq<string>, scans: map<string, Scan>): Outcome {
    var loop := MigrateRoots(DoAll(w, begin), order, scans);
    Outcome(if loop.error.None? then begin + loop.acts + [Finish] else begin + loop.acts, loop.error)
  }

  lemma OpenRun(w: World, order: seq<string>, scans: map<string, Scan>)
    requires w.journal == Open
    ensures Migrate(w, order, scans) == WholeRun(w, [], order, scans)
  {
    assert [] + MigrateRoots(w, order, scans).acts == MigrateRoots(w, order, scans).acts;
  }

  lemma FirstRun(w: World, order: seq<string>, scans: map<string, Scan>)
    requires w.journal == Absent && Eligible(w)
    ensures Migrate(w, order, scans) == WholeRun(w, [Begin], order, scans)
  {
  }

  lemma FreshIsEligible(sources: map<string, Tree>, w: World, order: seq<string>)
    requires Sources(sources, order) && Inv(sources, w) && w.journal == Absent
    ensures Eligible(w)
  {
  }

  lemma FirstJournal(sources: map<string, Tree>, w: World)
    requires Inv(sources, w) && w.journal == Absent
    ensures AllFit(sources, w, [Begin]) && DoAll(w, [Begin]) == Do(w, Begin) && Inv(sources, Do(w, Begin))
  {
    FitLast(sources, w, [], Begin);
    assert [] + [Begin] == [Begin];
  }

  lemma FitLast(sources: map<string, Tree>, w: World, acts: seq<Act>, a: Act)
    requires AllFit(sources, w, acts) && Fits(sources, DoAll(w, acts), a)
    ensures AllFit(sources, w, acts + [a]) && DoAll(w, acts + [a]) == Do(DoAll(w, acts), a)
  {
    assert (acts + [a])[..|acts|] == acts;
  }

  lemma Resumes(sources: map<string, Tree>, w: World, order: seq<string>, begin: seq<Act>, scans: map<string, Scan>)
    requires Sources(sources, order) && AllQuiet(sources, scans)
    requires AllFit(sources, w, begin) && Inv(sources, DoAll(w, begin)) && DoAll(w, begin).journal == Open
    ensures var loop := MigrateRoots(DoAll(w, begin), order, scans);
            && AllFit(sources, w, begin + loop.acts)
            && (loop.error.None? <==> LinkFreeSources(sources))
            && (loop.error.None? ==>
                  && AllFit(sources, w, begin + loop.acts + [Finish])
                  && DoAll(w, begin + loop.acts + [Finish]) == World(Complete, false, Migrated(sources)))
  {
    RootsOutcome(sources, DoAll(w, begin), order, scans);
    LastActs(sources, w, order, begin, MigrateRoots(DoAll(w, begin), order, scans));
  }

  lemma LastActs(sources: map<string, Tree>, w: World, order: seq<string>, begin: seq<Act>, loop: Outcome)
    requires Sources(sources, order) && AllFit(sources, w, begin) && Reached(sources, DoAll(w, begin), order, loop)
    ensures AllFit(sources, w, begin + loop.acts)
    ensures loop.error.None? <==> LinkFreeSources(sources)
    ensures loop.error.None? ==>
              && AllFit(sources, w, begin + loop.acts + [Finish])
              && DoAll(w, begin + loop.acts + [Finish]) == World(Complete, false, Migrated(sources))
  {
    var w1 := DoAll(w, begin);
    FitConcat(sources, w, begin, loop.acts);
    DoSplit(w, begin, loop.acts);
    if loop.error.None? {
      var w2 := DoAll(w1, loop.acts);
      assert w2.roots == Migrated(sources);
      FitLast(sources, w, begin + loop.acts, Finish);
    }
  }

  lemma BootKeeps(sources: map<string, Tree>, w: World, order: seq<string>, b: Boot)
    requires Sources(sources, order) && Inv(sources, w) && AllQuiet(sources, b.scans)
    ensures Inv(sources, Interrupted(w, order, b))
  {
    RunOutcome(sources, w, order, b.scans);
    CutKeeps(sources, w, Migrate(w, order, b.scans).acts, b.cut);
  }

  lemma CutKeeps(sources: map<string, Tree>, w: World, acts: seq<Act>, cut: nat)
    requires Inv(sources, w) && AllFit(sources, w, acts)
    ensures Inv(sources, DoAll(w, if cut <= |acts| then acts[..cut] else acts))
  {
    FitPrefix(sources, w, acts, if cut <= |acts| then cut else |acts|);
    assert acts[..|acts|] == acts;
  }

  lemma {:induction false} BootsKeep(sources: map<string, Tree>, w: World, order: seq<string>, boots: seq<Boot>)
    requires Sources(sources, order) && Inv(sources, w)
    requires forall i :: 0 <= i < |boots| ==> AllQuiet(sources, boots[i].scans)
    ensures Inv(sources, AfterBoots(w, order, boots))
  {
    if boots != [] {
      BootsKeep(sources, w, order, boots[..|boots| - 1]);
      BootKeeps(sources, AfterBoots(w, order, boots[..|boots| - 1]), order, boots[|boots| - 1]);
    }
  }

  // However often and wherever it was cut short, a migrated root is absent or a whole copy of its source.
  lemma MigrationNeverPartial(sources: map<string, Tree>, order: seq<string>, boots: seq<Boot>, name: string)
    requires Sources(sources, order) && name in sources
    requires forall i :: 0 <= i < |boots| ==> AllQuiet(sources, boots[i].scans)
    ensures var w := AfterBoots(Fresh(sources), order, boots);
            name in w.roots && w.roots[name].target in {None, Some(sources[name])}
  {
    BootsKeep(sources, Fresh(sources), order, boots);
    assert Stage(sources[name], AfterBoots(Fresh(sources), order, boots).roots[name]);
  }

  // The next run that is not cut short completes exactly when no source has a symbolic link, always with the
  // same result, and runs after it change nothing.
  lemma MigrationConverges(sources: map<string, Tree>, order: seq<string>, boots: seq<Boot>, scans: map<string, Scan>)
    requires Sources(sources, order) && AllQuiet(sources, scans)
    requires forall i :: 0 <= i < |boots| ==> AllQuiet(sources, boots[i].scans)
    ensures var w := AfterBoots(Fresh(sources), order, boots);
            var run := Migrate(w, order, scans);
            && (run.error.None? <==> LinkFreeSources(sources))
            && (run.error.None? ==>
                  var w' := DoAll(w, run.acts);
                  w' == World(Complete, false, Migrated(sources)) && Migrate(w', order, scans) == Outcome([], None))
  {
    BootsKeep(sources, Fresh(sources), order, boots);
    RunOutcome(sources, AfterBoots(Fresh(sources), order, boots), order, scans);
  }
}
