// Settlement interrupted anywhere and picked up again by later reconciliations
// (storage/file_mutations.py, lines 62-71 and 138-163; storage/file_audit.py, lines 146-175 and 200-201).
module FileReconcile {
  import opened Prelude
  import opened FileIndex
  import opened FileSettlement

  // ---- What the passes write ----

  // One pending file commit: verified against the file it names, then indexed and closed.
  function CommitWrites(w: World, ws: string, id: string): Result<seq<Write>, string>
    requires id in w.commits
  {
    var record := w.commits[id];
    if record.workspace != ws || record.id != id then Err("commit_identity_mismatch")
    else if record.path !in w.disk then Err("No such file")
    else if record.sha != HashAt(w, record.path) || record.size != |w.disk[record.path]| then Err("commit_payload_mismatch")
    else if id in w.index && w.index[id] != record then Err("commit_record_conflict")
    else Ok((if id in w.index then [] else [SetRecord(id, record)]) + [CloseCommit(id)])
  }

  // The commit pass, in directory order; a commit that does not check out is left for review.
  function CommitPass(w: World, ws: string, order: seq<string>): seq<Write> {
    if order == [] then []
    else
      var before := CommitPass(w, ws, order[..|order| - 1]);
      var w1 := ApplyAll(w, before);
      var id := order[|order| - 1];
      if id in w1.commits && CommitWrites(w1, ws, id).Ok? then before + CommitWrites(w1, ws, id).value else before
  }

  // All items of an intent in order, up to the first that raises.
  function SettleAll(w: World, ws: string, items: seq<Item>, clock: int): Attempt {
    if items == [] then Attempt([], [], None)
    else
      var before := SettleAll(w, ws, items[..|items| - 1], clock);
      if before.error.Some? then before
      else
        var last := Settle(ApplyAll(w, before.writes), ws, items[|items| - 1], clock);
        Attempt(before.writes + last.writes, before.changes + last.changes, last.error)
  }

  // ---- The invariant ----

  ghost predicate Independent(ws: string, items: seq<Item>) {
    && (forall i :: 0 <= i < |items| ==> Good(ws, items[i]))
    && (forall i, j :: 0 <= i < |items| && 0 <= j < |items| && i != j ==> Apart(items[i], items[j]))
  }

  ghost predicate OwnsPath(items: seq<Item>, p: string) {
    exists i :: 0 <= i < |items| && items[i].version == p && p != ""
  }

  ghost predicate OwnsId(items: seq<Item>, id: string) {
    exists i :: 0 <= i < |items| && (items[i].record.id == id || items[i].currentId == id)
  }

  ghost predicate OwnsCommit(items: seq<Item>, id: string) {
    exists i :: 0 <= i < |items| && items[i].currentId == id && items[i].version != ""
  }

  // Nothing outside the items has moved since settlement began, and no kept copy has changed.
  ghost predicate Framed(w0: World, w: World, items: seq<Item>) {
    && (forall p :: !OwnsPath(items, p) ==> (p in w.disk <==> p in w0.disk) && (p in w.disk ==> w.disk[p] == w0.disk[p]))
    && (forall p :: OwnsPath(items, p) && p in w.disk ==> p in w0.disk && w.disk[p] == w0.disk[p])
    && (forall id :: !OwnsId(items, id) ==> (id in w.index <==> id in w0.index) && (id in w.index ==> w.index[id] == w0.index[id]))
    && (forall id :: id in w.commits ==> OwnsCommit(items, id))
  }

  ghost predicate Inv(w0: World, w: World, items: seq<Item>)
    requires forall i :: 0 <= i < |items| ==> items[i].before.Sha256?
  {
    Framed(w0, w, items) && forall i :: 0 <= i < |items| ==> Stage(w, items[i])
  }

  ghost predicate AllDone(w: World, items: seq<Item>)
    requires forall i :: 0 <= i < |items| ==> items[i].before.Sha256?
  {
    forall i :: 0 <= i < |items| ==> Done(w, items[i])
  }

  ghost predicate Safe(w0: World, w: World, xs: seq<Write>, items: seq<Item>)
    requires forall i :: 0 <= i < |items| ==> items[i].before.Sha256?
  {
    forall k :: 0 <= k <= |xs| ==> Inv(w0, ApplyAll(w, xs[..k]), items)
  }

  lemma FramedStep(w0: World, w: World, x: Write, items: seq<Item>, i: nat)
    requires i < |items| && Framed(w0, w, items) && Within(x, items[i])
    ensures Framed(w0, Apply(w, x), items)
  {
    assert x.SetRecord? ==> OwnsId(items, x.id);
    assert x.OpenCommit? ==> OwnsCommit(items, x.id);
    assert x.Remove? ==> OwnsPath(items, x.path);
  }

  lemma {:induction false} FramedSteps(w0: World, w: World, xs: seq<Write>, items: seq<Item>, i: nat)
    requires i < |items| && Framed(w0, w, items) && forall h :: 0 <= h < |xs| ==> Within(xs[h], items[i])
    ensures Framed(w0, ApplyAll(w, xs), items)
  {
    if xs != [] {
      FramedSteps(w0, w, xs[..|xs| - 1], items, i);
      FramedStep(w0, ApplyAll(w, xs[..|xs| - 1]), xs[|xs| - 1], items, i);
    }
  }

  // Writes of one item that keep that item at a stage keep the whole invariant.
  lemma SafeFromOne(ws: string, w0: World, w: World, xs: seq<Write>, items: seq<Item>, i: nat)
    requires i < |items| && Independent(ws, items) && Inv(w0, w, items)
    requires StaysAlong(w, xs, items[i]) && forall h :: 0 <= h < |xs| ==> Within(xs[h], items[i])
    ensures Safe(w0, w, xs, items)
    ensures forall j :: 0 <= j < |items| && j != i ==> Alike(w, ApplyAll(w, xs), items[j])
  {
    forall k | 0 <= k <= |xs| ensures Inv(w0, ApplyAll(w, xs[..k]), items) {
      FramedSteps(w0, w, xs[..k], items, i);
      forall j | 0 <= j < |items| ensures Stage(ApplyAll(w, xs[..k]), items[j]) {
        if j != i {
          WritesElsewhere(w, xs[..k], items[i], items[j]);
          AlikeSame(w, ApplyAll(w, xs[..k]), items[j]);
        }
      }
    }
    forall j | 0 <= j < |items| && j != i ensures Alike(w, ApplyAll(w, xs), items[j]) {
      WritesElsewhere(w, xs, items[i], items[j]);
    }
  }

  lemma SafeEnd(w0: World, w: World, xs: seq<Write>, items: seq<Item>)
    requires forall i :: 0 <= i < |items| ==> items[i].before.Sha256?
    requires Safe(w0, w, xs, items)
    ensures Inv(w0, w, items) && Inv(w0, ApplyAll(w, xs), items)
  {
    assert xs[..0] == [] && xs[..|xs|] == xs;
  }

  lemma SafeConcat(w0: World, w: World, a: seq<Write>, b: seq<Write>, items: seq<Item>)
    requires forall i :: 0 <= i < |items| ==> items[i].before.Sha256?
    requires Safe(w0, w, a, items) && Safe(w0, ApplyAll(w, a), b, items)
    ensures Safe(w0, w, a + b, items)
  {
    forall k | 0 <= k <= |a + b| ensures Inv(w0, ApplyAll(w, (a + b)[..k]), items) {
      if k <= |a| {
        assert (a + b)[..k] == a[..k];
      } else {
        assert (a + b)[..k] == a + b[..k - |a|];
        ApplySplit(w, a, b[..k - |a|]);
      }
    }
  }

  // ---- The settlement pass ----

  // Settling one more item finishes it and leaves the others as they were.
  lemma SettleOneMore(ws: string, w0: World, w: World, items: seq<Item>, i: nat, clock: int)
    requires i < |items| && Independent(ws, items) && Inv(w0, w, items) && Calm(w, items[i])
    ensures Settle(w, ws, items[i], clock).error.None?
    ensures var xs := Settle(w, ws, items[i], clock).writes;
            && Safe(w0, w, xs, items) && Done(ApplyAll(w, xs), items[i])
            && forall j :: 0 <= j < |items| && j != i ==>
                 && (Done(w, items[j]) ==> Done(ApplyAll(w, xs), items[j]))
                 && (Calm(w, items[j]) ==> Calm(ApplyAll(w, xs), items[j]))
  {
    SettleFromStage(w, ws, items[i], clock);
    SettleWithin(w, ws, items[i], clock);
    var xs := Settle(w, ws, items[i], clock).writes;
    SafeFromOne(ws, w0, w, xs, items, i);
    forall j | 0 <= j < |items| && j != i
      ensures Done(w, items[j]) ==> Done(ApplyAll(w, xs), items[j])
      ensures Calm(w, items[j]) ==> Calm(ApplyAll(w, xs), items[j])
    {
      AlikeSame(w, ApplyAll(w, xs), items[j]);
    }
  }

  // With no commit pending, settling every item raises nothing and finishes all of them.
  lemma {:induction false} SettlePassFinishes(ws: string, w0: World, w: World, items: seq<Item>, n: nat, clock: int)
    requires n <= |items| && Independent(ws, items) && Inv(w0, w, items) && w.commits == map[]
    ensures var a := SettleAll(w, ws, items[..n], clock);
            && a.error.None? && Safe(w0, w, a.writes, items)
            && (forall i :: 0 <= i < n ==> Done(ApplyAll(w, a.writes), items[i]))
            && (forall i :: n <= i < |items| ==> Calm(ApplyAll(w, a.writes), items[i]))
  {
    if n == 0 {
      assert items[..0] == [];
    } else {
      SettlePassFinishes(ws, w0, w, items, n - 1, clock);
      var done := SettleAll(w, ws, items[..n - 1], clock).writes;
      var w1 := ApplyAll(w, done);
      SafeEnd(w0, w, done, items);
      SettleOneMore(ws, w0, w1, items, n - 1, clock);
      var xs := Settle(w1, ws, items[n - 1], clock).writes;
      SafeConcat(w0, w, done, xs, items);
      SettleAllStep(w, ws, items, n, clock);
    }
  }

  lemma SettleAllStep(w: World, ws: string, items: seq<Item>, n: nat, clock: int)
    requires 0 < n <= |items| && SettleAll(w, ws, items[..n - 1], clock).error.None?
    ensures var done := SettleAll(w, ws, items[..n - 1], clock).writes;
            var xs := Settle(ApplyAll(w, done), ws, items[n - 1], clock).writes;
            && SettleAll(w, ws, items[..n], clock).error == Settle(ApplyAll(w, done), ws, items[n - 1], clock).error
            && SettleAll(w, ws, items[..n], clock).writes == done + xs
            && ApplyAll(w, done + xs) == ApplyAll(ApplyAll(w, done), xs)
  {
    assert items[..n][..n - 1] == items[..n - 1] && items[..n][n - 1] == items[n - 1];
    var done := SettleAll(w, ws, items[..n - 1], clock).writes;
    ApplySplit(w, done, Settle(ApplyAll(w, done), ws, items[n - 1], clock).writes);
  }

  // ---- The commit pass ----

  lemma CommitFromStage(ws: string, w: World, it: Item)
    requires Good(ws, it) && it.version != "" && Stage(w, it) && it.currentId in w.commits
    ensures CommitWrites(w, ws, it.currentId).Ok?
    ensures var xs := CommitWrites(w, ws, it.currentId).value;
            && StaysAlong(w, xs, it) && it.currentId !in ApplyAll(w, xs).commits
            && forall h :: 0 <= h < |xs| ==> Within(xs[h], it)
  {
    var id := it.currentId;
    var r := w.commits[id];
    var put, close := SetRecord(id, r), CloseCommit(id);
    if id in w.index {
      StaysNone(Apply(w, close), it);
      StaysOneMore(w, close, [], it);
      assert [close] + [] == [] + [close];
    } else {
      var w1 := Apply(w, put);
      StaysNone(Apply(w1, close), it);
      StaysOneMore(w1, close, [], it);
      assert [close] + [] == [close];
      StaysOneMore(w, put, [close], it);
    }
  }

  lemma CommitOneMore(ws: string, w0: World, w: World, items: seq<Item>, id: string)
    requires Independent(ws, items) && Inv(w0, w, items) && id in w.commits
    ensures CommitWrites(w, ws, id).Ok?
    ensures Safe(w0, w, CommitWrites(w, ws, id).value, items)
    ensures ApplyAll(w, CommitWrites(w, ws, id).value).commits == w.commits - {id}
  {
    var i :| 0 <= i < |items| && items[i].currentId == id && items[i].version != "";
    CommitFromStage(ws, w, items[i]);
    SafeFromOne(ws, w0, w, CommitWrites(w, ws, id).value, items, i);
    OnlyThisCommit(w, ws, id);
  }

  lemma OnlyThisCommit(w: World, ws: string, id: string)
    requires id in w.commits && CommitWrites(w, ws, id).Ok?
    ensures ApplyAll(w, CommitWrites(w, ws, id).value).commits == w.commits - {id}
  {
    var put, close := SetRecord(id, w.commits[id]), CloseCommit(id);
    ApplyOne(w, close);
    ApplyTwo(w, put, close);
    assert CommitWrites(w, ws, id).value == if id in w.index then [close] else [put, close];
  }

  // Every pending commit is one of ours and is carried through.
  lemma {:induction false} CommitPassClears(ws: string, w0: World, w: World, items: seq<Item>, order: seq<string>)
    requires Independent(ws, items) && Inv(w0, w, items)
    ensures Safe(w0, w, CommitPass(w, ws, order), items)
    ensures forall id :: id in ApplyAll(w, CommitPass(w, ws, order)).commits <==> id in w.commits && id !in order
  {
    if order != [] {
      var init, last := order[..|order| - 1], order[|order| - 1];
      CommitPassClears(ws, w0, w, items, init);
      var before := CommitPass(w, ws, init);
      var w1 := ApplyAll(w, before);
      SafeEnd(w0, w, before, items);
      assert forall id :: id in order <==> id in init || id == last;
      if last in w1.commits {
        CommitOneMore(ws, w0, w1, items, last);
        var xs := CommitWrites(w1, ws, last).value;
        SafeConcat(w0, w, before, xs, items);
        ApplySplit(w, before, xs);
      }
    }
  }

  // ---- Runs with interruptions ----

  // A workspace with one pending mutation intent, or none.
  datatype Pending = Pending(world: World, open: bool)

  function Cut(xs: seq<Write>, k: nat): seq<Write> {
    if k < |xs| then xs[..k] else xs
  }

  // Settlement right after the writer, stopped after at most k writes; the last one closes the intent.
  function SettleRun(p: Pending, ws: string, items: seq<Item>, clock: int, k: nat): Pending {
    var a := SettleAll(p.world, ws, items, clock);
    Pending(ApplyAll(p.world, Cut(a.writes, k)), k <= |a.writes| || a.error.Some?)
  }

  // One reconciliation, likewise: commits first, then the intent if it is still there.
  function ReconcileRun(p: Pending, ws: string, items: seq<Item>, order: seq<string>, clock: int, k: nat): Pending {
    var commits := CommitPass(p.world, ws, order);
    var w1 := ApplyAll(p.world, commits);
    var a := if p.open then SettleAll(w1, ws, items, clock) else Attempt([], [], None);
    Pending(ApplyAll(p.world, Cut(commits + a.writes, k)),
            p.open && (k <= |commits + a.writes| || a.error.Some?))
  }

  // The error a reconciliation run to its end reports for the intent.
  function ReconcileError(p: Pending, ws: string, items: seq<Item>, order: seq<string>, clock: int): Option<string> {
    if p.open then SettleAll(ApplyAll(p.world, CommitPass(p.world, ws, order)), ws, items, clock).error else None
  }

  datatype Round = Round(order: seq<string>, clock: int, cut: nat)

  function Rounds(p: Pending, ws: string, items: seq<Item>, rounds: seq<Round>): Pending {
    if rounds == [] then p
    else
      var last := rounds[|rounds| - 1];
      ReconcileRun(Rounds(p, ws, items, rounds[..|rounds| - 1]), ws, items, last.order, last.clock, last.cut)
  }

  // A directory scan finds every pending commit.
  ghost predicate Scans(w: World, order: seq<string>) {
    forall id :: id in w.commits ==> id in order
  }

  ghost predicate Scanned(p: Pending, ws: string, items: seq<Item>, rounds: seq<Round>) {
    rounds == [] ||
    (&& Scanned(p, ws, items, rounds[..|rounds| - 1])
     && Scans(Rounds(p, ws, items, rounds[..|rounds| - 1]).world, rounds[|rounds| - 1].order))
  }

  ghost predicate Recoverable(w0: World, p: Pending, items: seq<Item>)
    requires forall i :: 0 <= i < |items| ==> items[i].before.Sha256?
  {
    Inv(w0, p.world, items) && (!p.open ==> AllDone(p.world, items) && p.world.commits == map[])
  }

  lemma NoCommits(w: World)
    requires forall id :: id !in w.commits
    ensures w.commits == map[]
  {
  }

  // After the last item nothing is pending either.
  lemma DoneLeavesNoCommit(ws: string, w0: World, w: World, items: seq<Item>)
    requires Independent(ws, items) && Inv(w0, w, items) && AllDone(w, items)
    ensures w.commits == map[]
  {
    forall id ensures id !in w.commits {
    }
    NoCommits(w);
  }

  lemma SafeCut(w0: World, w: World, xs: seq<Write>, items: seq<Item>, k: nat)
    requires forall i :: 0 <= i < |items| ==> items[i].before.Sha256?
    requires Safe(w0, w, xs, items)
    ensures Inv(w0, ApplyAll(w, Cut(xs, k)), items)
  {
    assert xs[..|xs|] == xs;
  }

  lemma SettleRunRecoverable(ws: string, w0: World, w: World, items: seq<Item>, clock: int, k: nat)
    requires Independent(ws, items) && Inv(w0, w, items) && w.commits == map[]
    ensures SettleAll(w, ws, items, clock).error.None?
    ensures Recoverable(w0, SettleRun(Pending(w, true), ws, items, clock, k), items)
  {
    SettlePassFinishes(ws, w0, w, items, |items|, clock);
    assert items[..|items|] == items;
    var a := SettleAll(w, ws, items, clock);
    SafeCut(w0, w, a.writes, items, k);
    if k > |a.writes| {
      DoneLeavesNoCommit(ws, w0, ApplyAll(w, a.writes), items);
    }
  }

  lemma ReconcileRunRecoverable(ws: string, w0: World, p: Pending, items: seq<Item>, order: seq<string>, clock: int, k: nat)
    requires Independent(ws, items) && Recoverable(w0, p, items) && Scans(p.world, order)
    ensures ReconcileError(p, ws, items, order, clock).None?
    ensures Recoverable(w0, ReconcileRun(p, ws, items, order, clock, k), items)
  {
    CommitPassClears(ws, w0, p.world, items, order);
    var commits := CommitPass(p.world, ws, order);
    var w1 := ApplyAll(p.world, commits);
    SafeEnd(w0, p.world, commits, items);
    NoCommits(w1);
    if p.open {
      SettlePassFinishes(ws, w0, w1, items, |items|, clock);
      assert items[..|items|] == items;
      var a := SettleAll(w1, ws, items, clock);
      SafeConcat(w0, p.world, commits, a.writes, items);
      SafeCut(w0, p.world, commits + a.writes, items, k);
      ApplySplit(p.world, commits, a.writes);
      if k > |commits + a.writes| {
        DoneLeavesNoCommit(ws, w0, ApplyAll(w1, a.writes), items);
      }
    } else {
      NothingToCommit(p.world, ws, order);
      assert commits + [] == [];
    }
  }

  lemma {:induction false} NothingToCommit(w: World, ws: string, order: seq<string>)
    requires w.commits == map[]
    ensures CommitPass(w, ws, order) == []
  {
    if order != [] {
      NothingToCommit(w, ws, order[..|order| - 1]);
    }
  }

  lemma {:induction false} RoundsRecoverable(ws: string, w0: World, p: Pending, items: seq<Item>, rounds: seq<Round>)
    requires Independent(ws, items) && Recoverable(w0, p, items) && Scanned(p, ws, items, rounds)
    ensures Recoverable(w0, Rounds(p, ws, items, rounds), items)
  {
    if rounds != [] {
      var init, last := rounds[..|rounds| - 1], rounds[|rounds| - 1];
      RoundsRecoverable(ws, w0, p, items, init);
      ReconcileRunRecoverable(ws, w0, Rounds(p, ws, items, init), items, last.order, last.clock, last.cut);
    }
  }

  // ---- The end does not depend on the interruptions ----

  ghost predicate SameButClock(a: FileRecord, b: FileRecord) {
    a.(createdAt := 0) == b.(createdAt := 0)
  }

  ghost predicate SameUpToClock(a: World, b: World) {
    && a.disk == b.disk && a.commits == b.commits && a.index.Keys == b.index.Keys
    && forall id :: id in a.index ==> SameButClock(a.index[id], b.index[id])
  }

  lemma PathNotOwned(ws: string, items: seq<Item>, i: nat)
    requires i < |items| && Independent(ws, items)
    ensures !OwnsPath(items, items[i].record.path)
  {
    forall j | 0 <= j < |items| && items[j].version != "" ensures items[j].version != items[i].record.path {
      if j != i { assert Apart(items[j], items[i]); }
    }
  }

  // A finished item looks the same in any two finished worlds.
  lemma DoneAgree(ws: string, w0: World, a: World, b: World, items: seq<Item>, i: nat)
    requires i < |items| && Independent(ws, items)
    requires Inv(w0, a, items) && Inv(w0, b, items) && AllDone(a, items) && AllDone(b, items)
    ensures var it := items[i];
            && a.index[it.record.id] == b.index[it.record.id]
            && (it.currentId in a.index <==> it.currentId in b.index)
            && (it.currentId in a.index ==> SameButClock(a.index[it.currentId], b.index[it.currentId]))
            && (it.version != "" ==> (it.version in a.disk <==> it.version in b.disk))
  {
    var it := items[i];
    PathNotOwned(ws, items, i);
    assert HashAt(a, it.record.path) == HashAt(b, it.record.path);
    assert Done(a, it) && Done(b, it);
    if it.version == "" {
      assert Refreshed(a, it) == Refreshed(b, it);
    } else if !Unchanged(a, it) && it.record.path in a.disk {
      assert Created(a, it, 0) == Created(b, it, 0);
    }
  }

  lemma DoneWorldsAgree(ws: string, w0: World, a: World, b: World, items: seq<Item>)
    requires Independent(ws, items)
    requires Inv(w0, a, items) && Inv(w0, b, items) && AllDone(a, items) && AllDone(b, items)
    requires a.commits == map[] && b.commits == map[]
    ensures SameUpToClock(a, b)
  {
    forall id
      ensures id in a.index <==> id in b.index
      ensures id in a.index ==> SameButClock(a.index[id], b.index[id])
    {
      if OwnsId(items, id) {
        var i :| 0 <= i < |items| && (items[i].record.id == id || items[i].currentId == id);
        DoneAgree(ws, w0, a, b, items, i);
      }
    }
    forall p
      ensures p in a.disk <==> p in b.disk
      ensures p in a.disk ==> a.disk[p] == b.disk[p]
    {
      if OwnsPath(items, p) {
        var i :| 0 <= i < |items| && items[i].version == p && p != "";
        DoneAgree(ws, w0, a, b, items, i);
      }
    }
    assert a.index.Keys == b.index.Keys;
  }

  // A reconciliation that is not interrupted.
  function Reconciled(p: Pending, ws: string, items: seq<Item>, order: seq<string>, clock: int): Pending {
    var commits := CommitPass(p.world, ws, order);
    var a := if p.open then SettleAll(ApplyAll(p.world, commits), ws, items, clock) else Attempt([], [], None);
    ReconcileRun(p, ws, items, order, clock, |commits + a.writes| + 1)
  }

  // Settlement stopped after any write, followed by any number of reconciliations each stopped after any
  // write, then one that is not stopped: nothing is raised, no intent is left, and index and disk are those
  // of the settlement that was never interrupted, but for creation times.
  lemma SettlementConverges(ws: string, w0: World, items: seq<Item>, clock0: int, cut0: nat, rounds: seq<Round>,
                            order: seq<string>, clock: int)
    requires Independent(ws, items) && w0.commits == map[]
    requires forall i :: 0 <= i < |items| ==> Stage(w0, items[i])
    requires var p := SettleRun(Pending(w0, true), ws, items, clock0, cut0);
             Scanned(p, ws, items, rounds) && Scans(Rounds(p, ws, items, rounds).world, order)
    ensures var p := Rounds(SettleRun(Pending(w0, true), ws, items, clock0, cut0), ws, items, rounds);
            && ReconcileError(p, ws, items, order, clock).None?
            && !Reconciled(p, ws, items, order, clock).open
            && SameUpToClock(Reconciled(p, ws, items, order, clock).world,
                             ApplyAll(w0, SettleAll(w0, ws, items, clock0).writes))
  {
    assert Inv(w0, w0, items);
    SettleRunRecoverable(ws, w0, w0, items, clock0, cut0);
    var p1 := SettleRun(Pending(w0, true), ws, items, clock0, cut0);
    RoundsRecoverable(ws, w0, p1, items, rounds);
    var p := Rounds(p1, ws, items, rounds);
    var whole := |CommitPass(p.world, ws, order)
                  + (if p.open then SettleAll(ApplyAll(p.world, CommitPass(p.world, ws, order)), ws, items, clock)
                     else Attempt([], [], None)).writes| + 1;
    ReconcileRunRecoverable(ws, w0, p, items, order, clock, whole);
    SettleRunRecoverable(ws, w0, w0, items, clock0, |SettleAll(w0, ws, items, clock0).writes| + 1);
    DoneWorldsAgree(ws, w0, Reconciled(p, ws, items, order, clock).world,
                    ApplyAll(w0, SettleAll(w0, ws, items, clock0).writes), items);
  }

  // ---- Who owns a path at the end ----

  ghost predicate Owner(w: World, id: string, p: string) {
    id in w.index && w.index[id].lifecycle == Active && w.index[id].path == p
  }

  // The record describes the file at its path.
  ghost predicate Accurate(w: World, r: FileRecord) {
    r.path in w.disk && r.sha == Sha256(w.disk[r.path]) && r.size == |w.disk[r.path]|
  }

  // Each settled path that still exists has exactly one active owner, and its record matches the disk. The
  // size of an unchanged referenced file is not looked at: it matches if it did before.
  lemma SettledPathHasOneOwner(ws: string, w0: World, w: World, items: seq<Item>, i: nat, owner: string)
    requires i < |items| && Independent(ws, items) && Inv(w0, w, items) && AllDone(w, items)
    requires forall j :: 0 <= j < |items| ==> items[j].record.lifecycle == Active
    requires forall id :: Owner(w0, id, items[i].record.path) ==> id == items[i].record.id
    requires items[i].record.path in w.disk
    requires owner == if items[i].version == "" || Unchanged(w, items[i]) then items[i].record.id else items[i].currentId
    ensures forall id :: Owner(w, id, items[i].record.path) <==> id == owner
    ensures w.index[owner].sha == Sha256(w.disk[items[i].record.path])
    ensures Accurate(w, w.index[owner]) <==>
              (items[i].version != "" && Unchanged(w, items[i]) ==> items[i].record.size == |w.disk[items[i].record.path]|)
  {
    var it := items[i];
    var p := it.record.path;
    assert Done(w, it);
    forall id | Owner(w, id, p) ensures id == owner {
      if OwnsId(items, id) {
        var j :| 0 <= j < |items| && (items[j].record.id == id || items[j].currentId == id);
        assert Done(w, items[j]);
        assert j == i || Apart(items[j], it);
      } else {
        assert Owner(w0, id, p);
      }
    }
  }
}
