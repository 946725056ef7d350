// The workspace as the object its callers change: one atomic write at a time, each operation tied to the
// write list FileSettlement, FileReconcile and FileMutation reason about
// (storage/file_mutations.py, lines 29-163; storage/file_store.py, lines 159-167;
// storage/file_audit.py, lines 146-175).
module FileWorkspace {
  import opened Prelude
  import opened FileIndex
  import opened FileSettlement
  import opened FileReconcile
  import opened FileMutation

  class Workspace {
    var disk: map<string, Bytes>
    var index: map<string, FileRecord>
    var commits: map<string, FileRecord>
    var intent: Option<seq<Item>>
    ghost var log: seq<Write>

    ghost function Now(): World
      reads this
    {
      World(disk, index, commits)
    }

    // `xs` is what has been written since the given state, in order.
    ghost predicate Performed(w: World, log0: seq<Write>, xs: seq<Write>)
      reads this
    {
      Now() == ApplyAll(w, xs) && log == log0 + xs
    }

    method UpdateRecord(id: string, r: FileRecord)
      modifies this`index, this`log
      ensures Performed(old(Now()), old(log), [SetRecord(id, r)])
    {
      index := index[id := r];
      log := log + [SetRecord(id, r)];
      ApplyOne(old(Now()), SetRecord(id, r));
    }

    method OpenCommitIntent(id: string, r: FileRecord)
      modifies this`commits, this`log
      ensures Performed(old(Now()), old(log), [OpenCommit(id, r)])
    {
      commits := commits[id := r];
      log := log + [OpenCommit(id, r)];
      ApplyOne(old(Now()), OpenCommit(id, r));
    }

    method CloseCommitIntent(id: string)
      modifies this`commits, this`log
      ensures Performed(old(Now()), old(log), [CloseCommit(id)])
    {
      commits := commits - {id};
      log := log + [CloseCommit(id)];
      ApplyOne(old(Now()), CloseCommit(id));
    }

    method Unlink(p: string)
      modifies this`disk, this`log
      ensures Performed(old(Now()), old(log), [Remove(p)]) && disk == old(disk) - {p}
    {
      disk := disk - {p};
      log := log + [Remove(p)];
      ApplyOne(old(Now()), Remove(p));
    }

    method CopyTo(p: string, bytes: Bytes)
      modifies this`disk, this`log
      ensures Performed(old(Now()), old(log), [Copy(p, bytes)]) && disk == old(disk)[p := bytes]
    {
      disk := disk[p := bytes];
      log := log + [Copy(p, bytes)];
      ApplyOne(old(Now()), Copy(p, bytes));
    }

    // The end of `create_file_record`: commit intent, index entry, intent closed.
    method CommitRecord(id: string, r: FileRecord)
      modifies this`index, this`commits, this`log
      ensures Performed(old(Now()), old(log), [OpenCommit(id, r), SetRecord(id, r), CloseCommit(id)])
    {
      OpenCommitIntent(id, r);
      UpdateRecord(id, r);
      CloseCommitIntent(id);
      ghost var x, y, z := OpenCommit(id, r), SetRecord(id, r), CloseCommit(id);
      ApplySplit(old(Now()), [x], [y]);
      ApplySplit(old(Now()), [x] + [y], [z]);
      assert [x] + [y] + [z] == [x, y, z];
    }

    // `_settle`
    method SettleItem(ws: string, it: Item, clock: int) returns (result: Result<seq<Change>, string>)
      modifies this`disk, this`index, this`commits, this`log
      ensures var a := Settle(old(Now()), ws, it, clock);
              && Performed(old(Now()), old(log), a.writes)
              && result == (if a.error.Some? then Err(a.error.value) else Ok(a.changes))
    {
      ghost var w := Now();
      var record := it.record;
      var fid := record.id;
      if record.workspace != ws {
        return Err("mutation_workspace_mismatch");
      }
      var versioned := it.version != "";
      var present := record.path in disk;
      var digest := if present then Sha256(disk[record.path]) else Text("");
      var historical := record.(path := it.version, sha := it.before,
        size := if versioned && it.version in disk then |disk[it.version]| else record.size,
        metadata := record.metadata["historical_version" := "true"]);
      if !(fid in index && index[fid] in {record, historical}) {
        if versioned || fid !in index || index[fid].path != record.path
           || (index[fid].sha != digest && !(!present && index[fid].lifecycle == Purged)) {
          return Err("mutation_record_conflict");
        }
      }
      var actual := index[fid];
      if present && digest == it.before {
        if actual == historical {
          return Err("mutation_current_path_reverted_requires_review");
        }
        if !versioned && (record.sha != digest || record.size != |disk[record.path]|) {
          UpdateRecord(fid, actual.(sha := digest, size := |disk[record.path]|));
        }
        if versioned {
          Unlink(it.version);
        }
        return Ok([]);
      }
      if versioned {
        if it.version !in disk || Sha256(disk[it.version]) != it.before {
          return Err("mutation_historical_bytes_unavailable");
        }
        assert Settle(w, ws, it, clock) == SettleVersion(w, it, clock);
        result := SettleChangedVersion(it, actual, historical, clock);
        return;
      }
      if present {
        UpdateRecord(fid, actual.(sha := digest, size := |disk[record.path]|));
        return Ok([Updated(fid, record.path)]);
      }
      UpdateRecord(fid, actual.(lifecycle := Purged));
      return Ok([Gone(fid)]);
    }

    method SettleChangedVersion(it: Item, actual: FileRecord, historical: FileRecord, clock: int)
      returns (result: Result<seq<Change>, string>)
      requires it.record.id in index && actual == index[it.record.id] && historical == Historical(Now(), it)
      modifies this`index, this`commits, this`log
      ensures var a := SettleVersion(old(Now()), it, clock);
              && Performed(old(Now()), old(log), a.writes)
              && result == (if a.error.Some? then Err(a.error.value) else Ok(a.changes))
    {
      var fid := it.record.id;
      ghost var w := Now();
      ghost var move := [];
      if actual != historical {
        var moved := actual.(path := historical.path, sha := historical.sha, size := historical.size, metadata := historical.metadata);
        UpdateRecord(fid, moved);
        move := [SetRecord(fid, moved)];
      }
      if it.record.path !in disk {
        return Ok([PathRemoved(fid, historical.path)]);
      }
      if it.currentId in index {
        var current := index[it.currentId];
        if current.path != it.record.path || current.sha != Sha256(disk[it.record.path]) {
          return Err("mutation_current_version_conflict");
        }
        return Ok([Superseded(current.id, fid, it.record.path)]);
      }
      var created := Created(World(disk, index, commits), it, clock);
      CommitRecord(it.currentId, created);
      ghost var rest := [OpenCommit(it.currentId, created), SetRecord(it.currentId, created), CloseCommit(it.currentId)];
      ApplySplit(w, move, rest);
      Associative(old(log), move, rest);
      return Ok([Superseded(it.currentId, fid, it.record.path)]);
    }

    // Every item of an intent, up to the first that raises.
    method SettleItems(ws: string, items: seq<Item>, clock: int) returns (result: Result<seq<Change>, string>)
      modifies this`disk, this`index, this`commits, this`log
      ensures var a := SettleAll(old(Now()), ws, items, clock);
              && Performed(old(Now()), old(log), a.writes)
              && result == (if a.error.Some? then Err(a.error.value) else Ok(a.changes))
    {
      ghost var w := Now();
      var changes := [];
      for i := 0 to |items|
        invariant SettleAll(w, ws, items[..i], clock).error.None?
        invariant Performed(w, old(log), SettleAll(w, ws, items[..i], clock).writes)
        invariant changes == SettleAll(w, ws, items[..i], clock).changes
      {
        ghost var before := SettleAll(w, ws, items[..i], clock);
        SettleAllOneMore(w, ws, items, i, clock);
        var one := SettleItem(ws, items[i], clock);
        ghost var more := Settle(ApplyAll(w, before.writes), ws, items[i], clock);
        ApplySplit(w, before.writes, more.writes);
        Associative(old(log), before.writes, more.writes);
        if one.Err? {
          SettleAllStops(w, ws, items, i + 1, clock);
          return Err(one.error);
        }
        changes := changes + one.value;
      }
      assert items[..|items|] == items;
      return Ok(changes);
    }

    // The commit pass of `reconcile_file_commits`, in directory order.
    method ReconcileCommits(ws: string, order: seq<string>)
      modifies this`index, this`commits, this`log
      ensures Performed(old(Now()), old(log), CommitPass(old(Now()), ws, order))
    {
      ghost var w := Now();
      for i := 0 to |order|
        invariant Performed(w, old(log), CommitPass(w, ws, order[..i]))
      {
        var id := order[i];
        ghost var before := CommitPass(w, ws, order[..i]);
        assert order[..i + 1][..i] == order[..i];
        if id in commits {
          var record := commits[id];
          if record.workspace == ws && record.id == id && record.path in disk
             && record.sha == Sha256(disk[record.path]) && record.size == |disk[record.path]|
             && (id in index ==> index[id] == record) {
            ghost var xs := CommitWrites(Now(), ws, id).value;
            ApplySplit(w, before, xs);
            Associative(old(log), before, xs);
            if id !in index {
              ApplySplit(Now(), [SetRecord(id, record)], [CloseCommit(id)]);
              Associative(log, [SetRecord(id, record)], [CloseCommit(id)]);
              UpdateRecord(id, record);
            }
            CloseCommitIntent(id);
          }
        }
      }
      assert order[..|order|] == order;
    }

    // `reconcile_file_commits` with apply: commits, then the pending mutation intent if there is one.
    method Reconcile(ws: string, order: seq<string>, clock: int) returns (result: Result<seq<Change>, string>)
      modifies this
      ensures var w1 := ApplyAll(old(Now()), CommitPass(old(Now()), ws, order));
              match old(intent)
              case None =>
                Performed(old(Now()), old(log), CommitPass(old(Now()), ws, order)) && intent == None && result == Ok([])
              case Some(items) =>
                var a := SettleAll(w1, ws, items, clock);
                && Performed(old(Now()), old(log), CommitPass(old(Now()), ws, order) + a.writes)
                && result == (if a.error.Some? then Err(a.error.value) else Ok(a.changes))
                && intent == (if a.error.Some? then old(intent) else None)
    {
      ReconcileCommits(ws, order);
      if intent == None {
        return Ok([]);
      }
      ghost var commits := CommitPass(old(Now()), ws, order);
      ghost var a := SettleAll(Now(), ws, intent.value, clock);
      ApplySplit(old(Now()), commits, a.writes);
      Associative(old(log), commits, a.writes);
      result := SettleItems(ws, intent.value, clock);
      if result.Ok? {
        intent := None;
      }
    }

    // The preparation loop of `managed_file_mutation`. If it raises, the copies it made are removed.
    method PrepareItems(ws: string, order: seq<string>, scope: set<string>, referenced: set<string>, n: Names)
      returns (result: Result<seq<Item>, string>)
      requires FreshNames(Now(), n) && WellIndexed(Now(), ws) && IndexOrder(Now(), order)
      modifies this`disk, this`log
      ensures result == Prepare(old(Now()), order, scope, referenced, n)
      ensures result.Ok? ==> Performed(old(Now()), old(log), Copies(result.value))
      ensures result.Err? ==> Now() == old(Now())
    {
      ghost var w := Now();
      var items := [];
      var seen: set<string> := {};
      for i := 0 to |order|
        invariant Prepare(w, order[..i], scope, referenced, n) == Ok(items)
        invariant Performed(w, old(log), Copies(items))
        invariant seen == PathsOf(items)
      {
        var step := PrepareOne(ws, order, i, scope, referenced, n, items, seen, w, old(log));
        if step.Err? {
          PrepareStops(w, order, i + 1, scope, referenced, n);
          return Err(step.error);
        }
        items, seen := step.value.0, step.value.1;
      }
      assert order[..|order|] == order;
      result := Ok(items);
    }

    // One copy more.
    lemma PerformedCopy(w: World, log0: seq<Write>, items: seq<Item>, it: Item, v: World, log1: seq<Write>)
      requires v == ApplyAll(w, Copies(items)) && log1 == log0 + Copies(items) && Performed(v, log1, CopyOf(it))
      ensures Performed(w, log0, Copies(items + [it]))
    {
      CopiesAppend(w, items, it);
      Associative(log0, Copies(items), CopyOf(it));
    }

    // The loop body: the record at `i` becomes an item, or is passed over, or everything is undone.
    method PrepareOne(ws: string, order: seq<string>, i: nat, scope: set<string>, referenced: set<string>, n: Names,
                      items: seq<Item>, seen: set<string>, ghost w: World, ghost log0: seq<Write>)
      returns (result: Result<(seq<Item>, set<string>), string>)
      requires FreshNames(w, n) && WellIndexed(w, ws) && IndexOrder(w, order) && i < |order|
      requires Prepare(w, order[..i], scope, referenced, n) == Ok(items)
      requires Performed(w, log0, Copies(items)) && seen == PathsOf(items)
      modifies this`disk, this`log
      ensures result.Ok? ==>
                && Prepare(w, order[..i + 1], scope, referenced, n) == Ok(result.value.0)
                && Performed(w, log0, Copies(result.value.0)) && result.value.1 == PathsOf(result.value.0)
      ensures result.Err? ==> Prepare(w, order[..i + 1], scope, referenced, n) == Err(result.error) && Now() == w
    {
      ConsiderAgrees(w, ws, order, i, scope, referenced, n, items, Now());
      result := TakeItem(order[i], scope, referenced, n, items, seen, w, log0);
      if result.Err? {
        GiveUp(ws, order, i, scope, referenced, n, items, w);
      }
    }

    // The preparation raised: what has been copied is removed.
    method GiveUp(ws: string, order: seq<string>, i: nat, scope: set<string>, referenced: set<string>, n: Names,
                  items: seq<Item>, ghost w: World)
      requires FreshNames(w, n) && WellIndexed(w, ws) && IndexOrder(w, order) && i < |order|
      requires Prepare(w, order[..i], scope, referenced, n) == Ok(items) && Now() == ApplyAll(w, Copies(items))
      modifies this`disk, this`log
      ensures Now() == w
    {
      CopiesAreOwned(w, ws, order, i, scope, referenced, n, items);
      Abandon(items, w);
    }

    // The record is put to the items, if it is concerned.
    method TakeItem(id: string, scope: set<string>, referenced: set<string>, n: Names, items: seq<Item>, seen: set<string>,
                    ghost w: World, ghost log0: seq<Write>)
      returns (result: Result<(seq<Item>, set<string>), string>)
      requires id in index && id in n.copyOf && id in n.nextId && n.copyOf[id] != ""
      requires Performed(w, log0, Copies(items)) && seen == PathsOf(items)
      modifies this`disk, this`log
      ensures result.Ok? ==>
                && result.value.0 == (if Concerned(old(Now()), scope, id) then items + [ItemFor(old(Now()), referenced, n, id)] else items)
                && Performed(w, log0, Copies(result.value.0)) && result.value.1 == PathsOf(result.value.0)
      ensures result.Err? <==>
                (Concerned(old(Now()), scope, id)
                 && (index[id].path in seen || (id in referenced && index[id].sha != Sha256(old(disk)[index[id].path]))))
      ensures result.Err? ==>
                && Now() == old(Now())
                && result.error == if index[id].path in seen then "managed_file_index_ambiguous" else "referenced_payload_changed_requires_readback"
    {
      ghost var v, log1 := Now(), log;
      var step := Consider(id, scope, referenced, n, seen);
      if step.Err? {
        return Err(step.error);
      }
      if step.value.None? {
        return Ok((items, seen));
      }
      var it := step.value.value;
      PerformedCopy(w, log0, items, it, v, log1);
      PathsOfAppend(items, it);
      result := Ok((items + [it], seen + {it.record.path}));
    }

    // One record: not concerned, a second one for the same file, or an item.
    method Consider(id: string, scope: set<string>, referenced: set<string>, n: Names, seen: set<string>)
      returns (result: Result<Option<Item>, string>)
      requires id in index && id in n.copyOf && id in n.nextId && n.copyOf[id] != ""
      modifies this`disk, this`log
      ensures result == if !Concerned(old(Now()), scope, id) then Ok(None)
                        else if index[id].path in seen then Err("managed_file_index_ambiguous")
                        else if id in referenced && index[id].sha != Sha256(old(disk)[index[id].path])
                          then Err("referenced_payload_changed_requires_readback")
                        else Ok(Some(ItemFor(old(Now()), referenced, n, id)))
      ensures result.Err? || result.value.None? ==> Now() == old(Now()) && log == old(log)
      ensures result.Ok? && result.value.Some? ==>
                Performed(old(Now()), old(log), CopyOf(result.value.value))
    {
      if index[id].lifecycle != Active || index[id].path !in scope || index[id].path !in disk {
        return Ok(None);
      }
      if index[id].path in seen {
        return Err("managed_file_index_ambiguous");
      }
      var kept := KeepItem(id, referenced, n);
      result := if kept.Err? then Err(kept.error) else Ok(Some(kept.value));
    }

    // One file: a referenced one must still have its recorded bytes, and gets a copy.
    method KeepItem(id: string, referenced: set<string>, n: Names) returns (result: Result<Item, string>)
      requires id in index && index[id].path in disk && id in n.copyOf && id in n.nextId
      requires n.copyOf[id] != ""
      modifies this`disk, this`log
      ensures result == if id in referenced && index[id].sha != Sha256(old(disk)[index[id].path])
                        then Err("referenced_payload_changed_requires_readback")
                        else Ok(ItemFor(old(Now()), referenced, n, id))
      ensures result.Err? ==> Now() == old(Now()) && log == old(log)
      ensures result.Ok? ==> Performed(old(Now()), old(log), CopyOf(result.value))
    {
      var digest := Sha256(disk[index[id].path]);
      var version := "";
      if id in referenced {
        if digest != index[id].sha {
          return Err("referenced_payload_changed_requires_readback");
        }
        version := n.copyOf[id];
        CopyTo(version, disk[index[id].path]);
      }
      result := Ok(Item(index[id], digest, version, if id in referenced then n.nextId[id] else id));
    }

    // Removing the copies of a preparation that raised.
    method Abandon(items: seq<Item>, ghost w: World)
      requires index == w.index && commits == w.commits
      requires forall p :: !OwnsPath(items, p) ==> (p in disk <==> p in w.disk) && (p in w.disk ==> disk[p] == w.disk[p])
      requires forall p :: OwnsPath(items, p) ==> p !in w.disk
      modifies this`disk, this`log
      ensures Now() == w
    {
      for i := 0 to |items|
        invariant forall p :: !OwnsPath(items, p) ==> (p in disk <==> p in w.disk) && (p in w.disk ==> disk[p] == w.disk[p])
        invariant forall j :: 0 <= j < i && items[j].version != "" ==> items[j].version !in disk
      {
        if items[i].version != "" {
          assert 0 <= i < |items| && items[i].version == items[i].version && items[i].version != "";
          assert OwnsPath(items, items[i].version);
          Unlink(items[i].version);
        }
      }
      assert forall p :: p in disk <==> p in w.disk;
      assert disk == w.disk;
    }

    // `managed_file_mutation`: keep what is referenced, record the intent, let the writer run, settle.
    method ManagedMutation(ws: string, order: seq<string>, scope: set<string>, referenced: set<string>, n: Names,
                           writer: map<string, Bytes> -> map<string, Bytes>, clock: int)
      returns (result: Result<seq<Change>, string>, ghost items: seq<Item>)
      requires FreshNames(Now(), n) && WellIndexed(Now(), ws) && IndexOrder(Now(), order)
      requires commits == map[] && intent == None
      modifies this
      ensures Prepare(old(Now()), order, scope, referenced, n).Err? ==>
                result.Err? && Now() == old(Now()) && intent == None
      ensures Prepare(old(Now()), order, scope, referenced, n).Ok? ==>
                var copied := ApplyAll(old(Now()), Copies(items));
                var w0 := copied.(disk := writer(copied.disk));
                var a := SettleAll(w0, ws, items, clock);
                && items == Prepare(old(Now()), order, scope, referenced, n).value
                && Now() == ApplyAll(w0, a.writes)
                && (WriterLeaves(copied.disk, w0.disk, items) ==>
                      result == Ok(a.changes) && intent == None && Independent(ws, items) && AllDone(Now(), items))
    {
      items := [];
      ghost var w := Now();
      var prepared := PrepareItems(ws, order, scope, referenced, n);
      if prepared.Err? {
        return Err(prepared.error), items;
      }
      items := prepared.value;
      if prepared.value != [] {
        intent := Some(prepared.value);
      }
      ghost var copied := Now();
      disk := writer(disk);
      ghost var w0 := Now();
      if WriterLeaves(copied.disk, w0.disk, items) {
        MutationSettles(ws, w, order, scope, referenced, n, items, w0.disk, clock);
      }
      result := SettleItems(ws, prepared.value, clock);
      if result.Ok? {
        intent := None;
      }
    }
  }

  // The order in which the index is read: each record once.
  ghost predicate IndexOrder(w: World, order: seq<string>) {
    && (forall id :: id in order <==> id in w.index)
    && (forall i, j :: 0 <= i < j < |order| ==> order[i] != order[j])
  }

  ghost predicate SameAtRecords(w: World, disk: map<string, Bytes>) {
    forall id :: id in w.index ==>
      (w.index[id].path in disk <==> w.index[id].path in w.disk)
      && (w.index[id].path in disk ==> disk[w.index[id].path] == w.disk[w.index[id].path])
  }

  lemma SameItem(w: World, v: World, scope: set<string>, referenced: set<string>, n: Names, id: string)
    requires v.index == w.index && SameAtRecords(w, v.disk)
    requires id in w.index && id in n.copyOf && id in n.nextId
    ensures Concerned(w, scope, id) <==> Concerned(v, scope, id)
    ensures Concerned(w, scope, id) ==> ItemFor(w, referenced, n, id) == ItemFor(v, referenced, n, id)
  {
  }

  // Looking at the workspace with the copies made so far decides as looking at the one before them would.
  lemma ConsiderAgrees(w: World, ws: string, order: seq<string>, i: nat, scope: set<string>, referenced: set<string>, n: Names,
                       items: seq<Item>, v: World)
    requires FreshNames(w, n) && WellIndexed(w, ws) && IndexOrder(w, order) && i < |order|
    requires Prepare(w, order[..i], scope, referenced, n) == Ok(items) && v == ApplyAll(w, Copies(items))
    ensures var id := order[i];
            && id in v.index
            && Prepare(w, order[..i + 1], scope, referenced, n)
               == if !Concerned(v, scope, id) then Ok(items)
                  else if v.index[id].path in PathsOf(items) then Err("managed_file_index_ambiguous")
                  else if id in referenced && v.index[id].sha != Sha256(v.disk[v.index[id].path])
                    then Err("referenced_payload_changed_requires_readback")
                  else Ok(items + [ItemFor(v, referenced, n, id)])
  {
    var id := order[i];
    assert id in order;
    PrepareOneMore(w, order, i, scope, referenced, n, items);
    CopiesAreOwned(w, ws, order, i, scope, referenced, n, items);
    SameItem(w, v, scope, referenced, n, id);
    PathsOfListed(items, w.index[id].path);
  }

  function CopyOf(it: Item): seq<Write> {
    if it.version != "" && it.before.Sha256? then [Copy(it.version, it.before.of)] else []
  }

  lemma CopiesAppend(w: World, items: seq<Item>, it: Item)
    ensures Copies(items + [it]) == Copies(items) + CopyOf(it)
    ensures ApplyAll(w, Copies(items + [it])) == ApplyAll(ApplyAll(w, Copies(items)), CopyOf(it))
  {
    assert (items + [it])[..|items|] == items;
    ApplySplit(w, Copies(items), CopyOf(it));
  }

  ghost function PathsOf(items: seq<Item>): set<string> {
    if items == [] then {} else PathsOf(items[..|items| - 1]) + {items[|items| - 1].record.path}
  }

  lemma PathsOfAppend(items: seq<Item>, it: Item)
    ensures PathsOf(items + [it]) == PathsOf(items) + {it.record.path}
  {
    assert (items + [it])[..|items|] == items;
  }

  lemma {:induction false} PathsOfListed(items: seq<Item>, p: string)
    ensures p in PathsOf(items) <==> Listed(items, p)
  {
    if items != [] {
      var init, last := items[..|items| - 1], items[|items| - 1];
      PathsOfListed(init, p);
      assert items == init + [last];
      if last.record.path == p { assert last in items; }
    }
  }

  lemma {:induction false} PrepareStops(w: World, order: seq<string>, i: nat, scope: set<string>, referenced: set<string>, n: Names)
    requires n.copyOf.Keys == w.index.Keys && n.nextId.Keys == w.index.Keys
    requires (forall id :: id in order ==> id in w.index) && i <= |order|
    ensures Prepare(w, order[..i], scope, referenced, n).Err? ==>
              Prepare(w, order, scope, referenced, n) == Prepare(w, order[..i], scope, referenced, n)
  {
    if i == |order| {
      assert order[..i] == order;
    } else {
      assert order[..|order| - 1][..i] == order[..i];
      PrepareStops(w, order[..|order| - 1], i, scope, referenced, n);
    }
  }

  // What a preparation in progress has put on the disk is its copies, none of which was there.
  lemma CopiesAreOwned(w: World, ws: string, order: seq<string>, i: nat, scope: set<string>, referenced: set<string>, n: Names, items: seq<Item>)
    requires FreshNames(w, n) && WellIndexed(w, ws) && IndexOrder(w, order) && i <= |order|
    requires Prepare(w, order[..i], scope, referenced, n) == Ok(items)
    ensures var disk := ApplyAll(w, Copies(items)).disk;
            && (forall p :: !OwnsPath(items, p) ==> (p in disk <==> p in w.disk) && (p in w.disk ==> disk[p] == w.disk[p]))
            && (forall p :: OwnsPath(items, p) ==> p !in w.disk)
            && SameAtRecords(w, disk)
    ensures ApplyAll(w, Copies(items)).index == w.index && ApplyAll(w, Copies(items)).commits == w.commits
  {
    OwnedPathsAreNew(w, ws, order, i, scope, referenced, n, items);
    CopiesTouch(w, items, "");
    forall p
      ensures !OwnsPath(items, p) ==>
                var disk := ApplyAll(w, Copies(items)).disk;
                (p in disk <==> p in w.disk) && (p in w.disk ==> disk[p] == w.disk[p])
    {
      CopiesTouch(w, items, p);
    }
  }

  lemma OwnedPathsAreNew(w: World, ws: string, order: seq<string>, i: nat, scope: set<string>, referenced: set<string>, n: Names, items: seq<Item>)
    requires FreshNames(w, n) && WellIndexed(w, ws) && IndexOrder(w, order) && i <= |order|
    requires Prepare(w, order[..i], scope, referenced, n) == Ok(items)
    ensures forall p :: OwnsPath(items, p) ==> p !in w.disk
    ensures forall id :: id in w.index ==> !OwnsPath(items, w.index[id].path)
  {
    PrepareResult(w, ws, order[..i], scope, referenced, n);
    forall h | 0 <= h < |items| && items[h].version != ""
      ensures items[h].version !in w.disk
      ensures forall id :: id in w.index ==> w.index[id].path != items[h].version
    {
      assert items[h] == ItemFor(w, referenced, n, items[h].record.id);
    }
  }

  // A mutation whose writer leaves the kept copies alone settles without raising.
  lemma MutationSettles(ws: string, w: World, order: seq<string>, scope: set<string>, referenced: set<string>, n: Names,
                        items: seq<Item>, disk': map<string, Bytes>, clock: int)
    requires FreshNames(w, n) && WellIndexed(w, ws) && IndexOrder(w, order) && w.commits == map[]
    requires Prepare(w, order, scope, referenced, n) == Ok(items)
    requires WriterLeaves(ApplyAll(w, Copies(items)).disk, disk', items)
    ensures Independent(ws, items)
    ensures var w0 := ApplyAll(w, Copies(items)).(disk := disk');
            var a := SettleAll(w0, ws, items, clock);
            a.error.None? && AllDone(ApplyAll(w0, a.writes), items)
  {
    PrepareResult(w, ws, order, scope, referenced, n);
    PreparedIndependent(w, ws, order, scope, referenced, n, items);
    WriterLeadsToStage(ws, w, order, scope, referenced, n, items, disk');
    CopiesMade(ws, w, items);
    var w0 := ApplyAll(w, Copies(items)).(disk := disk');
    SettlePassFinishes(ws, w0, w0, items, |items|, clock);
    assert items[..|items|] == items;
  }

  lemma SettleAllOneMore(w: World, ws: string, items: seq<Item>, i: nat, clock: int)
    requires i < |items| && SettleAll(w, ws, items[..i], clock).error.None?
    ensures var before := SettleAll(w, ws, items[..i], clock);
            var last := Settle(ApplyAll(w, before.writes), ws, items[i], clock);
            SettleAll(w, ws, items[..i + 1], clock)
              == Attempt(before.writes + last.writes, before.changes + last.changes, last.error)
  {
    assert items[..i + 1][..i] == items[..i] && items[..i + 1][i] == items[i];
  }

  lemma {:induction false} SettleAllStops(w: World, ws: string, items: seq<Item>, i: nat, clock: int)
    requires i <= |items| && SettleAll(w, ws, items[..i], clock).error.Some?
    ensures SettleAll(w, ws, items, clock) == SettleAll(w, ws, items[..i], clock)
  {
    if i == |items| {
      assert items[..i] == items;
    } else {
      assert items[..|items| - 1][..i] == items[..i];
      SettleAllStops(w, ws, items[..|items| - 1], i, clock);
    }
  }
}
