// Settling the metadata of a governed file mutation (storage/file_mutations.py, lines 86-135, with
// storage/file_store.py, lines 106-167).
//
// The workspace is a value: file contents by path, the index as the map it refines (FileIndex), and the
// pending file-commit intents. Every atomic save, append, rename or unlink is one write.
module FileSettlement {
  import opened Prelude
  import opened FileIndex

  datatype World = World(
    disk: map<string, Bytes>,
    index: map<string, FileRecord>,
    commits: map<string, FileRecord>)

  datatype Write =
    | SetRecord(id: string, record: FileRecord)
    | OpenCommit(id: string, record: FileRecord)
    | CloseCommit(id: string)
    | Remove(path: string)
    | Copy(path: string, bytes: Bytes)

  function Apply(w: World, x: Write): World {
    match x
    case SetRecord(id, r) => w.(index := w.index[id := r])
    case OpenCommit(id, r) => w.(commits := w.commits[id := r])
    case CloseCommit(id) => w.(commits := w.commits - {id})
    case Remove(p) => w.(disk := w.disk - {p})
    case Copy(p, b) => w.(disk := w.disk[p := b])
  }

  function ApplyAll(w: World, xs: seq<Write>): World {
    if xs == [] then w else Apply(ApplyAll(w, xs[..|xs| - 1]), xs[|xs| - 1])
  }

  lemma {:induction false} ApplySplit(w: World, a: seq<Write>, b: seq<Write>)
    ensures ApplyAll(w, a + b) == ApplyAll(ApplyAll(w, a), b)
  {
    if b == [] {
      assert a + b == a;
    } else {
      assert (a + b)[..|a + b| - 1] == a + b[..|b| - 1];
      ApplySplit(w, a, b[..|b| - 1]);
    }
  }

  lemma ApplyOne(w: World, x: Write)
    ensures ApplyAll(w, [x]) == Apply(w, x)
  {
    assert [x][..0] == [];
  }

  lemma ApplyTwo(w: World, x: Write, y: Write)
    ensures ApplyAll(w, [x, y]) == Apply(Apply(w, x), y)
  {
    ApplyOne(w, x);
    assert [x, y][..1] == [x];
  }

  // What an intent remembers of one file: its record, its digest, where a copy was kept if the record is
  // referenced (else ""), and the id the current path gets.
  datatype Item = Item(record: FileRecord, before: Digest, version: string, currentId: string)

  datatype Change =
    | Superseded(id: string, previous: string, path: string)
    | PathRemoved(id: string, path: string)
    | Updated(id: string, path: string)
    | Gone(id: string)

  // What a pass wrote, what it reports, and what it raised if it was cut short.
  datatype Attempt = Attempt(writes: seq<Write>, changes: seq<Change>, error: Option<string>)

  function Raised(writes: seq<Write>, error: string): Attempt {
    Attempt(writes, [], Some(error))
  }

  function HashAt(w: World, p: string): Digest {
    if p in w.disk then Sha256(w.disk[p]) else Text("")
  }

  // The record once it has become a historical version.
  function Historical(w: World, it: Item): FileRecord {
    it.record.(path := it.version, sha := it.before,
               size := if it.version != "" && it.version in w.disk then |w.disk[it.version]| else it.record.size,
               metadata := it.record.metadata["historical_version" := "true"])
  }

  // The record `create_file_record` builds for the current path.
  function Created(w: World, it: Item, clock: int): FileRecord
    requires it.record.path in w.disk
  {
    var normalized := it.record.logicalType == "knowledge_normalized";
    FileRecord(
      it.currentId, it.record.workspace,
      if normalized then "knowledge_normalized" else "working_file",
      it.record.fileKind, it.record.path, it.record.name, it.record.mime, it.record.binary,
      |w.disk[it.record.path]|, Sha256(w.disk[it.record.path]), clock, "workspace_mutation",
      it.record.sensitivity, Active,
      (if normalized then it.record.metadata else map[])["previous_file_id" := it.record.id])
  }

  // `_settle`, branch by branch.
  function Settle(w: World, ws: string, it: Item, clock: int): Attempt {
    var record := it.record;
    var fid := record.id;
    if record.workspace != ws then Raised([], "mutation_workspace_mismatch")
    else
      var versioned := it.version != "";
      var present := record.path in w.disk;
      var digest := HashAt(w, record.path);
      var historical := Historical(w, it);
      if !(fid in w.index && w.index[fid] in {record, historical})
         && (versioned || fid !in w.index || w.index[fid].path != record.path
             || (w.index[fid].sha != digest && !(!present && w.index[fid].lifecycle == Purged)))
      then Raised([], "mutation_record_conflict")
      else
        var actual := w.index[fid];
        if present && digest == it.before then
          if actual == historical then Raised([], "mutation_current_path_reverted_requires_review")
          else
            var size := |w.disk[record.path]|;
            Attempt(
              (if !versioned && (record.sha != digest || record.size != size)
               then [SetRecord(fid, actual.(sha := digest, size := size))] else [])
              + (if versioned then [Remove(it.version)] else []),
              [], None)
        else if versioned then
          if it.version !in w.disk || HashAt(w, it.version) != it.before
          then Raised([], "mutation_historical_bytes_unavailable")
          else SettleVersion(w, it, clock)
        else if present then
          Attempt([SetRecord(fid, actual.(sha := digest, size := |w.disk[record.path]|))], [Updated(fid, record.path)], None)
        else
          Attempt([SetRecord(fid, actual.(lifecycle := Purged))], [Gone(fid)], None)
  }

  // The referenced file has changed: its record moves to the kept copy, and the current path, if there is
  // one, gets its own record.
  function SettleVersion(w: World, it: Item, clock: int): Attempt
    requires it.record.id in w.index
  {
    var record := it.record;
    var fid := record.id;
    var actual := w.index[fid];
    var historical := Historical(w, it);
    var move := if actual != historical
      then [SetRecord(fid, actual.(path := historical.path, sha := historical.sha,
                                   size := historical.size, metadata := historical.metadata))]
      else [];
    if record.path !in w.disk then Attempt(move, [PathRemoved(fid, historical.path)], None)
    else
      var index := ApplyAll(w, move).index;
      if it.currentId in index then
        if index[it.currentId].path != record.path || index[it.currentId].sha != HashAt(w, record.path)
        then Raised(move, "mutation_current_version_conflict")
        else Attempt(move, [Superseded(index[it.currentId].id, fid, record.path)], None)
      else
        var created := Created(w, it, clock);
        Attempt(
          move + [OpenCommit(it.currentId, created), SetRecord(it.currentId, created), CloseCommit(it.currentId)],
          [Superseded(it.currentId, fid, record.path)], None)
  }

  // ---- How far one item has been settled ----

  // What an intent guarantees of an item it records.
  ghost predicate Good(ws: string, it: Item) {
    && it.record.workspace == ws && it.record.path != "" && it.before.Sha256?
    && (it.version == "" ==> it.currentId == it.record.id)
    && (it.version != "" ==> it.currentId != it.record.id && it.version != it.record.path && it.record.sha == it.before)
  }

  ghost predicate Unchanged(w: World, it: Item) {
    HashAt(w, it.record.path) == it.before
  }

  // The kept copy holds the original bytes.
  ghost predicate Kept(w: World, it: Item) {
    it.version in w.disk && Sha256(w.disk[it.version]) == it.before
  }

  function Hist(it: Item): FileRecord
    requires it.before.Sha256?
  {
    it.record.(path := it.version, sha := it.before, size := |it.before.of|,
               metadata := it.record.metadata["historical_version" := "true"])
  }

  function Refreshed(w: World, it: Item): FileRecord {
    if it.record.path in w.disk
    then it.record.(sha := Sha256(w.disk[it.record.path]), size := |w.disk[it.record.path]|)
    else it.record.(lifecycle := Purged)
  }

  ghost predicate IsCreated(w: World, it: Item, r: FileRecord) {
    it.record.path in w.disk && r == Created(w, it, r.createdAt)
  }

  ghost predicate Fresh(w: World, it: Item) {
    it.currentId !in w.index && it.currentId !in w.commits
  }

  // The new identity is unused, committed, indexed, or both, and always the record its file calls for.
  ghost predicate Underway(w: World, it: Item) {
    && (it.currentId in w.commits ==> IsCreated(w, it, w.commits[it.currentId]))
    && (it.currentId in w.index ==> IsCreated(w, it, w.index[it.currentId]))
    && (it.currentId in w.commits && it.currentId in w.index ==> w.commits[it.currentId] == w.index[it.currentId])
  }

  // Somewhere between the start of settlement and its end.
  ghost predicate Stage(w: World, it: Item)
    requires it.before.Sha256?
  {
    var fid := it.record.id;
    && fid in w.index
    && if it.version == "" then w.index[fid] in {it.record, Refreshed(w, it)}
       else if Unchanged(w, it) then
         w.index[fid] == it.record && Fresh(w, it) && (it.version in w.disk ==> Kept(w, it))
       else
         Kept(w, it) && ((w.index[fid] == it.record && Fresh(w, it)) || (w.index[fid] == Hist(it) && Underway(w, it)))
  }

  // The end of settlement.
  ghost predicate Done(w: World, it: Item)
    requires it.before.Sha256?
  {
    var fid := it.record.id;
    && fid in w.index
    && if it.version == "" then w.index[fid] == Refreshed(w, it)
       else if Unchanged(w, it) then w.index[fid] == it.record && Fresh(w, it) && it.version !in w.disk
       else
         && Kept(w, it) && w.index[fid] == Hist(it) && it.currentId !in w.commits
         && (it.record.path in w.disk <==> it.currentId in w.index)
         && (it.currentId in w.index ==> IsCreated(w, it, w.index[it.currentId]))
  }

  // No file commit of this item is pending.
  ghost predicate Calm(w: World, it: Item) {
    it.version != "" ==> it.currentId !in w.commits
  }

  // Every prefix of the writes leaves the item at some stage.
  ghost predicate StaysAlong(w: World, xs: seq<Write>, it: Item)
    requires it.before.Sha256?
  {
    forall k :: 0 <= k <= |xs| ==> Stage(ApplyAll(w, xs[..k]), it)
  }

  lemma StaysNone(w: World, it: Item)
    requires it.before.Sha256? && Stage(w, it)
    ensures StaysAlong(w, [], it)
  {
  }

  lemma StaysOneMore(w: World, x: Write, xs: seq<Write>, it: Item)
    requires it.before.Sha256? && Stage(w, it) && StaysAlong(Apply(w, x), xs, it)
    ensures StaysAlong(w, [x] + xs, it) && ApplyAll(w, [x] + xs) == ApplyAll(Apply(w, x), xs)
  {
    assert [x][..0] == [];
    assert ApplyAll(w, [x]) == Apply(w, x);
    ApplySplit(w, [x], xs);
    forall k | 0 <= k <= |xs| + 1 ensures Stage(ApplyAll(w, ([x] + xs)[..k]), it) {
      if k > 0 {
        assert ([x] + xs)[..k] == [x] + xs[..k - 1];
        ApplySplit(w, [x], xs[..k - 1]);
      }
    }
  }

  lemma SettlePlain(w: World, ws: string, it: Item, clock: int)
    requires Good(ws, it) && Stage(w, it) && it.version == ""
    ensures Settle(w, ws, it, clock).error.None?
    ensures var xs := Settle(w, ws, it, clock).writes;
            StaysAlong(w, xs, it) && Done(ApplyAll(w, xs), it)
  {
    var xs := Settle(w, ws, it, clock).writes;
    if xs == [] {
      StaysNone(w, it);
    } else {
      assert xs == [xs[0]] + [];
      assert Refreshed(Apply(w, xs[0]), it) == Refreshed(w, it);
      StaysNone(Apply(w, xs[0]), it);
      StaysOneMore(w, xs[0], [], it);
    }
  }

  lemma SettleUnchanged(w: World, ws: string, it: Item, clock: int)
    requires Good(ws, it) && Stage(w, it) && it.version != "" && Unchanged(w, it)
    ensures Settle(w, ws, it, clock).error.None?
    ensures var xs := Settle(w, ws, it, clock).writes;
            StaysAlong(w, xs, it) && Done(ApplyAll(w, xs), it)
  {
    var xs := Settle(w, ws, it, clock).writes;
    assert xs == [Remove(it.version)] + [];
    StaysNone(Apply(w, xs[0]), it);
    StaysOneMore(w, xs[0], [], it);
  }

  // From the historical record on: the new identity is committed, indexed, and its commit closed.
  lemma SettleTail(w: World, it: Item, clock: int)
    requires it.before.Sha256? && it.version != "" && it.currentId != it.record.id
    requires it.record.id in w.index && w.index[it.record.id] == Hist(it) && Kept(w, it) && !Unchanged(w, it)
    requires it.record.path in w.disk && Fresh(w, it)
    ensures var created := Created(w, it, clock);
            var xs := [OpenCommit(it.currentId, created), SetRecord(it.currentId, created), CloseCommit(it.currentId)];
            StaysAlong(w, xs, it) && Done(ApplyAll(w, xs), it)
  {
    var created := Created(w, it, clock);
    var x1, x2, x3 := OpenCommit(it.currentId, created), SetRecord(it.currentId, created), CloseCommit(it.currentId);
    var w1 := Apply(w, x1);
    var w2 := Apply(w1, x2);
    var w3 := Apply(w2, x3);
    StaysNone(w3, it);
    StaysOneMore(w2, x3, [], it);
    assert [x3] + [] == [x3];
    StaysOneMore(w1, x2, [x3], it);
    assert [x2] + [x3] == [x2, x3];
    StaysOneMore(w, x1, [x2, x3], it);
    assert [x1] + [x2, x3] == [x1, x2, x3];
  }

  lemma SettleChanged(w: World, ws: string, it: Item, clock: int)
    requires Good(ws, it) && Stage(w, it) && it.version != "" && !Unchanged(w, it) && Calm(w, it)
    ensures Settle(w, ws, it, clock).error.None?
    ensures var xs := Settle(w, ws, it, clock).writes;
            StaysAlong(w, xs, it) && Done(ApplyAll(w, xs), it)
  {
    var fid := it.record.id;
    var historical := Historical(w, it);
    assert historical == Hist(it);
    var actual := w.index[fid];
    var move := if actual != historical
      then [SetRecord(fid, actual.(path := historical.path, sha := historical.sha,
                                   size := historical.size, metadata := historical.metadata))]
      else [];
    var w1 := w.(index := w.index[fid := historical]);
    if move != [] {
      assert move == [SetRecord(fid, historical)];
      assert move[..0] == [];
    }
    assert ApplyAll(w, move) == w1 by {
      if move == [] { assert w.index[fid := historical] == w.index; }
    }
    var xs := Settle(w, ws, it, clock).writes;
    if it.record.path in w.disk && it.currentId !in w.index {
      SettleTail(w1, it, clock);
      assert Created(w1, it, clock) == Created(w, it, clock);
    } else {
      StaysNone(w1, it);
    }
    var rest := xs[|move|..];
    assert xs == move + rest;
    if move != [] {
      StaysOneMore(w, move[0], rest, it);
      assert [move[0]] + rest == xs;
    } else {
      assert xs == rest;
    }
  }

  // From any stage, settlement raises nothing, passes only through stages, and ends done.
  lemma SettleFromStage(w: World, ws: string, it: Item, clock: int)
    requires Good(ws, it) && Stage(w, it) && Calm(w, it)
    ensures Settle(w, ws, it, clock).error.None?
    ensures var xs := Settle(w, ws, it, clock).writes;
            StaysAlong(w, xs, it) && Done(ApplyAll(w, xs), it)
  {
    if it.version == "" {
      SettlePlain(w, ws, it, clock);
    } else if Unchanged(w, it) {
      SettleUnchanged(w, ws, it, clock);
    } else {
      SettleChanged(w, ws, it, clock);
    }
  }

  // ---- Items do not disturb each other ----

  // The writes belong to this item.
  ghost predicate Within(x: Write, it: Item) {
    match x
    case SetRecord(id, _) => id == it.record.id || id == it.currentId
    case OpenCommit(id, _) => id == it.currentId && it.version != ""
    case CloseCommit(id) => id == it.currentId && it.version != ""
    case Remove(p) => p == it.version && it.version != ""
    case Copy(_, _) => false
  }

  ghost predicate Apart(a: Item, b: Item) {
    && a.record.id != b.record.id && a.record.id != b.currentId
    && a.currentId != b.record.id && a.currentId != b.currentId
    && a.record.path != b.record.path
    && (a.version != "" ==> a.version != b.version && a.version != b.record.path)
    && (b.version != "" ==> b.version != a.record.path)
  }

  // Two worlds look the same to an item.
  ghost predicate Alike(w: World, v: World, it: Item) {
    && (forall p :: p == it.record.path || (p == it.version && p != "") ==>
          (p in w.disk <==> p in v.disk) && (p in w.disk ==> w.disk[p] == v.disk[p]))
    && (forall id :: id == it.record.id || id == it.currentId ==>
          (id in w.index <==> id in v.index) && (id in w.index ==> w.index[id] == v.index[id]))
    && (it.version != "" ==>
          (it.currentId in w.commits <==> it.currentId in v.commits)
          && (it.currentId in w.commits ==> w.commits[it.currentId] == v.commits[it.currentId]))
  }

  lemma AlikeSame(w: World, v: World, it: Item)
    requires it.before.Sha256? && Alike(w, v, it)
    ensures Stage(w, it) <==> Stage(v, it)
    ensures Done(w, it) <==> Done(v, it)
    ensures Calm(w, it) <==> Calm(v, it)
  {
    assert HashAt(w, it.record.path) == HashAt(v, it.record.path);
    if it.version != "" {
      assert Kept(w, it) <==> Kept(v, it);
    }
  }

  lemma WriteElsewhere(w: World, x: Write, a: Item, b: Item)
    requires Within(x, a) && Apart(a, b)
    ensures Alike(w, Apply(w, x), b)
  {
  }

  lemma {:induction false} WritesElsewhere(w: World, xs: seq<Write>, a: Item, b: Item)
    requires (forall i :: 0 <= i < |xs| ==> Within(xs[i], a)) && Apart(a, b)
    ensures Alike(w, ApplyAll(w, xs), b)
  {
    if xs != [] {
      WritesElsewhere(w, xs[..|xs| - 1], a, b);
      WriteElsewhere(ApplyAll(w, xs[..|xs| - 1]), xs[|xs| - 1], a, b);
    }
  }

  lemma SettleWithin(w: World, ws: string, it: Item, clock: int)
    ensures forall i :: 0 <= i < |Settle(w, ws, it, clock).writes| ==> Within(Settle(w, ws, it, clock).writes[i], it)
  {
  }

  // ---- What is never lost ----

  ghost predicate OriginalAt(w: World, it: Item, p: string) {
    p in w.disk && Sha256(w.disk[p]) == it.before
  }

  // A referenced file's bytes are at its record's path or in the kept copy at every stage; at the end its
  // record resolves to them under the original hash.
  lemma BytesSurvive(ws: string, w: World, it: Item)
    requires Good(ws, it) && it.version != "" && Stage(w, it)
    ensures OriginalAt(w, it, w.index[it.record.id].path) || OriginalAt(w, it, it.version)
    ensures Done(w, it) ==> OriginalAt(w, it, w.index[it.record.id].path) && w.index[it.record.id].sha == it.before
  {
    if Unchanged(w, it) {
      assert OriginalAt(w, it, it.record.path);
    }
  }
}
