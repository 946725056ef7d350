// The governed mutation itself: what is kept before the writer runs, and the workspace object whose
// methods perform the writes (storage/file_mutations.py, lines 29-83 and 138-163; storage/file_audit.py,
// lines 146-175).
module FileMutation {
  import opened Prelude
  import opened FileIndex
  import opened FileSettlement
  import opened FileReconcile

  // ---- Preparation ----

  // Generated names: where a record's kept copy goes, and the id that takes over its path.
  datatype Names = Names(copyOf: map<string, string>, nextId: map<string, string>)

  ghost predicate FreshNames(w: World, n: Names) {
    && n.copyOf.Keys == w.index.Keys && n.nextId.Keys == w.index.Keys
    && (forall id :: id in w.index ==>
          && n.copyOf[id] != "" && n.copyOf[id] !in w.disk
          && n.nextId[id] !in w.index && n.nextId[id] !in w.commits
          && forall other :: other in w.index ==> n.copyOf[id] != w.index[other].path)
    && (forall a, b :: a in w.index && b in w.index && a != b ==> n.copyOf[a] != n.copyOf[b] && n.nextId[a] != n.nextId[b])
  }

  // The index names each record by its id, belongs to the workspace, and has real paths.
  ghost predicate WellIndexed(w: World, ws: string) {
    forall id :: id in w.index ==> w.index[id].id == id && w.index[id].workspace == ws && w.index[id].path != ""
  }

  predicate Concerned(w: World, scope: set<string>, id: string)
    requires id in w.index
  {
    w.index[id].lifecycle == Active && w.index[id].path in scope && w.index[id].path in w.disk
  }

  function ItemFor(w: World, referenced: set<string>, n: Names, id: string): Item
    requires id in w.index && id in n.copyOf && id in n.nextId && w.index[id].path in w.disk
  {
    Item(w.index[id], Sha256(w.disk[w.index[id].path]),
         if id in referenced then n.copyOf[id] else "",
         if id in referenced then n.nextId[id] else id)
  }

  predicate Listed(items: seq<Item>, p: string) {
    exists it :: it in items && it.record.path == p
  }

  // The preparation loop, over records in index order: each existing in-scope file becomes an item, a
  // referenced one only while it still has its recorded bytes.
  function Prepare(w: World, order: seq<string>, scope: set<string>, referenced: set<string>, n: Names): Result<seq<Item>, string>
    requires n.copyOf.Keys == w.index.Keys && n.nextId.Keys == w.index.Keys
    requires forall id :: id in order ==> id in w.index
  {
    if order == [] then Ok([])
    else
      var before := Prepare(w, order[..|order| - 1], scope, referenced, n);
      var id := order[|order| - 1];
      if before.Err? || !Concerned(w, scope, id) then before
      else if Listed(before.value, w.index[id].path) then Err("managed_file_index_ambiguous")
      else if id in referenced && w.index[id].sha != Sha256(w.disk[w.index[id].path])
        then Err("referenced_payload_changed_requires_readback")
      else Ok(before.value + [ItemFor(w, referenced, n, id)])
  }

  // The copies made on the way, one write per referenced item.
  function Copies(items: seq<Item>): seq<Write> {
    if items == [] then []
    else
      var last := items[|items| - 1];
      Copies(items[..|items| - 1])
      + (if last.version != "" && last.before.Sha256? then [Copy(last.version, last.before.of)] else [])
  }

  // What a prepared list of items looks like.
  ghost predicate Prepared(w: World, order: seq<string>, scope: set<string>, referenced: set<string>, n: Names, items: seq<Item>)
    requires n.copyOf.Keys == w.index.Keys && n.nextId.Keys == w.index.Keys
  {
    && (forall i :: 0 <= i < |items| ==>
          var id := items[i].record.id;
          && id in order && id in w.index && Concerned(w, scope, id)
          && items[i] == ItemFor(w, referenced, n, id)
          && (id in referenced ==> items[i].record.sha == items[i].before))
    && (forall i, j :: 0 <= i < j < |items| ==>
          items[i].record.id != items[j].record.id && items[i].record.path != items[j].record.path)
    && (forall id :: id in order && id in w.index && Concerned(w, scope, id) ==>
          exists i :: 0 <= i < |items| && items[i].record.id == id)
  }

  lemma {:induction false} PrepareResult(w: World, ws: string, order: seq<string>, scope: set<string>, referenced: set<string>, n: Names)
    requires FreshNames(w, n) && WellIndexed(w, ws)
    requires forall id :: id in order ==> id in w.index
    requires forall i, j :: 0 <= i < j < |order| ==> order[i] != order[j]
    requires Prepare(w, order, scope, referenced, n).Ok?
    ensures Prepared(w, order, scope, referenced, n, Prepare(w, order, scope, referenced, n).value)
  {
    if order != [] {
      var init, last := order[..|order| - 1], order[|order| - 1];
      PrepareResult(w, ws, init, scope, referenced, n);
      assert order == init + [last] && last in order && last !in init;
      PreparedNext(w, init, last, scope, referenced, n, Prepare(w, init, scope, referenced, n).value);
    }
  }

  lemma PreparedNext(w: World, init: seq<string>, last: string, scope: set<string>, referenced: set<string>, n: Names, before: seq<Item>)
    requires n.copyOf.Keys == w.index.Keys && n.nextId.Keys == w.index.Keys
    requires forall id :: id in init + [last] ==> id in w.index
    requires last in w.index && last !in init && w.index[last].id == last && (forall id :: id in init ==> id in w.index)
    requires Prepare(w, init, scope, referenced, n) == Ok(before) && Prepare(w, init + [last], scope, referenced, n).Ok?
    requires Prepared(w, init, scope, referenced, n, before)
    ensures Prepared(w, init + [last], scope, referenced, n, Prepare(w, init + [last], scope, referenced, n).value)
  {
    assert (init + [last])[..|init|] == init;
    if Concerned(w, scope, last) {
      PreparedOneMore(w, init, last, scope, referenced, n, before);
    } else {
      PreparedSkip(w, init, last, scope, referenced, n, before);
    }
  }

  lemma PreparedSkip(w: World, init: seq<string>, last: string, scope: set<string>, referenced: set<string>, n: Names, items: seq<Item>)
    requires n.copyOf.Keys == w.index.Keys && n.nextId.Keys == w.index.Keys
    requires Prepared(w, init, scope, referenced, n, items)
    requires last in w.index && !Concerned(w, scope, last)
    ensures Prepared(w, init + [last], scope, referenced, n, items)
  {
  }

  lemma PreparedOneMore(w: World, init: seq<string>, last: string, scope: set<string>, referenced: set<string>, n: Names, before: seq<Item>)
    requires n.copyOf.Keys == w.index.Keys && n.nextId.Keys == w.index.Keys
    requires Prepared(w, init, scope, referenced, n, before)
    requires last in w.index && last !in init && w.index[last].id == last && Concerned(w, scope, last)
    requires !Listed(before, w.index[last].path)
    requires last in referenced ==> w.index[last].sha == Sha256(w.disk[w.index[last].path])
    ensures Prepared(w, init + [last], scope, referenced, n, before + [ItemFor(w, referenced, n, last)])
  {
    var it := ItemFor(w, referenced, n, last);
    var items := before + [it];
    assert items[|before|] == it;
    forall i | 0 <= i < |before| ensures items[i] == before[i] && before[i].record.path != it.record.path {
      assert before[i] in before;
    }
    AllMade(w, init, last, scope, before, it);
  }

  // Every concerned record has its item.
  lemma AllMade(w: World, init: seq<string>, last: string, scope: set<string>, before: seq<Item>, it: Item)
    requires it.record.id == last
    requires forall id :: id in init && id in w.index && Concerned(w, scope, id) ==> exists i :: 0 <= i < |before| && before[i].record.id == id
    ensures forall id :: id in init + [last] && id in w.index && Concerned(w, scope, id) ==>
              exists i :: 0 <= i < |before + [it]| && (before + [it])[i].record.id == id
  {
    var items := before + [it];
    forall id | id in init + [last] && id in w.index && Concerned(w, scope, id)
      ensures exists i :: 0 <= i < |items| && items[i].record.id == id
    {
      if id in init {
        var i :| 0 <= i < |before| && before[i].record.id == id;
        assert items[i].record.id == id;
      } else {
        assert items[|before|].record.id == id;
      }
    }
  }

  // ---- When the preparation raises ----

  // A second active record for a file in scope.
  ghost predicate Twice(w: World, order: seq<string>, scope: set<string>, i: nat)
    requires i < |order| && forall id :: id in order ==> id in w.index
  {
    && Concerned(w, scope, order[i])
    && exists j :: 0 <= j < i && Concerned(w, scope, order[j]) && w.index[order[j]].path == w.index[order[i]].path
  }

  // A referenced file in scope whose bytes are not the recorded ones.
  ghost predicate Altered(w: World, order: seq<string>, scope: set<string>, referenced: set<string>, i: nat)
    requires i < |order| && forall id :: id in order ==> id in w.index
  {
    && Concerned(w, scope, order[i]) && order[i] in referenced
    && w.index[order[i]].sha != Sha256(w.disk[w.index[order[i]].path])
  }

  // Of the first records, none is either.
  ghost predicate Clean(w: World, order: seq<string>, scope: set<string>, referenced: set<string>, upto: nat)
    requires upto <= |order| && forall id :: id in order ==> id in w.index
  {
    forall i :: 0 <= i < upto ==> !Twice(w, order, scope, i) && !Altered(w, order, scope, referenced, i)
  }

  lemma ListedMeansConcerned(w: World, order: seq<string>, scope: set<string>, referenced: set<string>, n: Names, items: seq<Item>, p: string)
    requires FreshNames(w, n) && Prepared(w, order, scope, referenced, n, items)
    requires forall id :: id in order ==> id in w.index
    requires forall id :: id in w.index ==> w.index[id].id == id
    ensures Listed(items, p) <==> exists j :: 0 <= j < |order| && Concerned(w, scope, order[j]) && w.index[order[j]].path == p
  {
    if it :| it in items && it.record.path == p {
      var i :| 0 <= i < |items| && items[i] == it;
      assert items[i].record.id in order;
      var j :| 0 <= j < |order| && order[j] == items[i].record.id;
      assert Concerned(w, scope, order[j]) && w.index[order[j]].path == p;
    }
    if j :| 0 <= j < |order| && Concerned(w, scope, order[j]) && w.index[order[j]].path == p {
      assert order[j] in order;
      var i :| 0 <= i < |items| && items[i].record.id == order[j];
      assert items[i] in items;
    }
  }

  lemma CleanNext(w: World, order: seq<string>, scope: set<string>, referenced: set<string>, upto: nat)
    requires 0 < upto <= |order| && forall id :: id in order ==> id in w.index
    ensures Clean(w, order, scope, referenced, upto) <==>
              Clean(w, order, scope, referenced, upto - 1)
              && !Twice(w, order, scope, upto - 1) && !Altered(w, order, scope, referenced, upto - 1)
  {
  }

  ghost predicate RaisedAt(w: World, order: seq<string>, scope: set<string>, referenced: set<string>, i: nat, error: string)
    requires i < |order| && forall id :: id in order ==> id in w.index
  {
    if Twice(w, order, scope, i) then error == "managed_file_index_ambiguous"
    else Altered(w, order, scope, referenced, i) && error == "referenced_payload_changed_requires_readback"
  }

  lemma PrepareOneMore(w: World, order: seq<string>, i: nat, scope: set<string>, referenced: set<string>, n: Names, items: seq<Item>)
    requires n.copyOf.Keys == w.index.Keys && n.nextId.Keys == w.index.Keys
    requires (forall id :: id in order ==> id in w.index) && i < |order|
    requires Prepare(w, order[..i], scope, referenced, n) == Ok(items)
    ensures var id := order[i];
            Prepare(w, order[..i + 1], scope, referenced, n)
            == if !Concerned(w, scope, id) then Ok(items)
               else if Listed(items, w.index[id].path) then Err("managed_file_index_ambiguous")
               else if id in referenced && w.index[id].sha != Sha256(w.disk[w.index[id].path])
                 then Err("referenced_payload_changed_requires_readback")
               else Ok(items + [ItemFor(w, referenced, n, id)])
  {
    assert order[..i + 1][..i] == order[..i] && order[..i + 1][i] == order[i];
  }

  lemma PrepareStopped(w: World, order: seq<string>, i: nat, scope: set<string>, referenced: set<string>, n: Names)
    requires n.copyOf.Keys == w.index.Keys && n.nextId.Keys == w.index.Keys
    requires (forall id :: id in order ==> id in w.index) && i < |order|
    requires Prepare(w, order[..i], scope, referenced, n).Err?
    ensures Prepare(w, order[..i + 1], scope, referenced, n) == Prepare(w, order[..i], scope, referenced, n)
  {
    assert order[..i + 1][..i] == order[..i];
  }

  // A file is an item already exactly if an earlier record of it was concerned.
  lemma ListedIsTwice(w: World, ws: string, order: seq<string>, i: nat, scope: set<string>, referenced: set<string>, n: Names, items: seq<Item>)
    requires FreshNames(w, n) && WellIndexed(w, ws) && (forall id :: id in order ==> id in w.index) && i < |order|
    requires forall i, j :: 0 <= i < j < |order| ==> order[i] != order[j]
    requires Prepare(w, order[..i], scope, referenced, n) == Ok(items) && Concerned(w, scope, order[i])
    ensures Listed(items, w.index[order[i]].path) <==> Twice(w, order, scope, i)
  {
    PrepareResult(w, ws, order[..i], scope, referenced, n);
    ListedMeansConcerned(w, order[..i], scope, referenced, n, items, w.index[order[i]].path);
    TwiceInFirst(w, order, order[..i], i, scope);
  }

  lemma TwiceInFirst(w: World, order: seq<string>, first: seq<string>, i: nat, scope: set<string>)
    requires i < |order| && first == order[..i] && (forall id :: id in order ==> id in w.index) && Concerned(w, scope, order[i])
    ensures forall id :: id in first ==> id in w.index
    ensures Twice(w, order, scope, i) <==>
              exists j :: 0 <= j < |first| && Concerned(w, scope, first[j]) && w.index[first[j]].path == w.index[order[i]].path
  {
    assert forall j :: 0 <= j < i ==> first[j] == order[j];
  }

  lemma OneDecides(w: World, ws: string, order: seq<string>, i: nat, scope: set<string>, referenced: set<string>, n: Names, items: seq<Item>)
    requires FreshNames(w, n) && WellIndexed(w, ws) && (forall id :: id in order ==> id in w.index) && i < |order|
    requires forall i, j :: 0 <= i < j < |order| ==> order[i] != order[j]
    requires Prepare(w, order[..i], scope, referenced, n) == Ok(items)
    ensures var r := Prepare(w, order[..i + 1], scope, referenced, n);
            && (r.Ok? <==> !Twice(w, order, scope, i) && !Altered(w, order, scope, referenced, i))
            && (r.Err? ==> RaisedAt(w, order, scope, referenced, i, r.error))
  {
    PrepareOneMore(w, order, i, scope, referenced, n, items);
    if Concerned(w, scope, order[i]) {
      ListedIsTwice(w, ws, order, i, scope, referenced, n, items);
    }
  }

  // It raises exactly on a second active record for a file or a referenced file with other bytes; the first of
  // these in index order decides the error, a second record before altered bytes.
  lemma {:induction false} PrepareRaises(w: World, ws: string, order: seq<string>, upto: nat, scope: set<string>, referenced: set<string>, n: Names)
    returns (i: nat)
    requires FreshNames(w, n) && WellIndexed(w, ws) && (forall id :: id in order ==> id in w.index) && upto <= |order|
    requires forall i, j :: 0 <= i < j < |order| ==> order[i] != order[j]
    ensures var r := Prepare(w, order[..upto], scope, referenced, n);
            && (r.Ok? <==> Clean(w, order, scope, referenced, upto))
            && (r.Err? ==> i < upto && Clean(w, order, scope, referenced, i) && RaisedAt(w, order, scope, referenced, i, r.error))
    decreases upto
  {
    i := 0;
    if upto == 0 {
      assert order[..0] == [];
    } else {
      i := PrepareRaises(w, ws, order, upto - 1, scope, referenced, n);
      var before := Prepare(w, order[..upto - 1], scope, referenced, n);
      CleanNext(w, order, scope, referenced, upto);
      if before.Err? {
        PrepareStopped(w, order, upto - 1, scope, referenced, n);
      } else {
        OneDecides(w, ws, order, upto - 1, scope, referenced, n, before.value);
        i := upto - 1;
      }
    }
  }

  lemma PreparedIndependent(w: World, ws: string, order: seq<string>, scope: set<string>, referenced: set<string>, n: Names, items: seq<Item>)
    requires FreshNames(w, n) && WellIndexed(w, ws) && Prepared(w, order, scope, referenced, n, items)
    ensures Independent(ws, items)
  {
    forall i, j | 0 <= i < |items| && 0 <= j < |items| && i != j ensures Apart(items[i], items[j]) {
      var a, b := items[i].record.id, items[j].record.id;
      assert a != b && items[i].record.path != items[j].record.path by {
        if i < j { } else { assert j < i; }
      }
      assert w.index[a] == items[i].record && w.index[b] == items[j].record;
    }
  }

  // ---- From preparation to settlement ----

  // The writer may do anything to any file but the kept copies.
  ghost predicate WriterLeaves(disk: map<string, Bytes>, disk': map<string, Bytes>, items: seq<Item>) {
    forall i :: 0 <= i < |items| && items[i].version != "" ==>
      (items[i].version in disk <==> items[i].version in disk')
      && (items[i].version in disk ==> disk'[items[i].version] == disk[items[i].version])
  }

  lemma OwnsPathStep(items: seq<Item>, p: string)
    requires items != []
    ensures OwnsPath(items, p) <==> OwnsPath(items[..|items| - 1], p) || (items[|items| - 1].version == p && p != "")
  {
    var init := items[..|items| - 1];
    if i :| 0 <= i < |init| && init[i].version == p && p != "" {
      assert items[i].version == p;
    }
    if i :| 0 <= i < |items| && items[i].version == p && p != "" {
      assert i < |init| ==> init[i].version == p;
    }
  }

  lemma CopiesStep(w: World, items: seq<Item>)
    requires items != []
    ensures var init, last := items[..|items| - 1], items[|items| - 1];
            ApplyAll(w, Copies(items))
            == if last.version != "" && last.before.Sha256?
               then Apply(ApplyAll(w, Copies(init)), Copy(last.version, last.before.of)) else ApplyAll(w, Copies(init))
  {
    var init, last := items[..|items| - 1], items[|items| - 1];
    if last.version != "" && last.before.Sha256? {
      assert Copies(items)[..|Copies(init)|] == Copies(init);
    } else {
      assert Copies(items) == Copies(init);
    }
  }

  // Copies touch nothing else.
  lemma {:induction false} CopiesTouch(w: World, items: seq<Item>, p: string)
    ensures var w' := ApplyAll(w, Copies(items));
            && w'.index == w.index && w'.commits == w.commits
            && (!OwnsPath(items, p) ==> (p in w'.disk <==> p in w.disk) && (p in w.disk ==> w'.disk[p] == w.disk[p]))
  {
    if items != [] {
      CopiesTouch(w, items[..|items| - 1], p);
      OwnsPathStep(items, p);
      CopiesStep(w, items);
    }
  }

  lemma {:induction false} CopyMade(w: World, items: seq<Item>, i: nat)
    requires i < |items| && items[i].version != "" && items[i].before.Sha256?
    requires forall a, b :: 0 <= a < b < |items| && items[a].version != "" && items[b].version != "" ==> items[a].version != items[b].version
    ensures Kept(ApplyAll(w, Copies(items)), items[i])
  {
    CopiesStep(w, items);
    if i < |items| - 1 {
      CopyMade(w, items[..|items| - 1], i);
    }
  }

  lemma CopiesMade(ws: string, w: World, items: seq<Item>)
    requires Independent(ws, items)
    ensures var w' := ApplyAll(w, Copies(items));
            && w'.index == w.index && w'.commits == w.commits
            && (forall i :: 0 <= i < |items| && items[i].version != "" ==> Kept(w', items[i]))
  {
    CopiesTouch(w, items, "");
    forall a, b | 0 <= a < b < |items| && items[a].version != "" && items[b].version != ""
      ensures items[a].version != items[b].version
    {
      assert Apart(items[a], items[b]);
    }
    forall i | 0 <= i < |items| && items[i].version != "" ensures Kept(ApplyAll(w, Copies(items)), items[i]) {
      CopyMade(w, items, i);
    }
  }

  // Whatever the writer does, settlement starts with every item at a stage.
  lemma WriterLeadsToStage(ws: string, w: World, order: seq<string>, scope: set<string>, referenced: set<string>, n: Names,
                           items: seq<Item>, disk': map<string, Bytes>)
    requires FreshNames(w, n) && WellIndexed(w, ws) && Prepared(w, order, scope, referenced, n, items)
    requires WriterLeaves(ApplyAll(w, Copies(items)).disk, disk', items)
    ensures var w' := ApplyAll(w, Copies(items)).(disk := disk');
            forall i :: 0 <= i < |items| ==> Stage(w', items[i])
  {
    PreparedIndependent(w, ws, order, scope, referenced, n, items);
    CopiesMade(ws, w, items);
    forall i | 0 <= i < |items| ensures Stage(ApplyAll(w, Copies(items)).(disk := disk'), items[i]) {
      assert w.index[items[i].record.id] == items[i].record;
    }
  }

  // Before the writer runs nothing referenced has moved: the bytes are still at the record's own path.
  lemma BytesSurvivePreparation(ws: string, w: World, order: seq<string>, scope: set<string>, referenced: set<string>, n: Names,
                                items: seq<Item>, i: nat, k: nat)
    requires FreshNames(w, n) && WellIndexed(w, ws) && Prepared(w, order, scope, referenced, n, items)
    requires i < |items| && items[i].version != "" && k <= |Copies(items)|
    ensures var w' := ApplyAll(w, Copies(items)[..k]);
            items[i].record.id in w'.index && OriginalAt(w', items[i], w'.index[items[i].record.id].path)
  {
    var j := CopiesPrefix(items, k);
    PreparedIndependent(w, ws, order, scope, referenced, n, items);
    PathNotOwned(ws, items, i);
    OwnsPathPrefix(items, j, items[i].record.path);
    CopiesTouch(w, items[..j], items[i].record.path);
    assert items[i] == ItemFor(w, referenced, n, items[i].record.id);
  }

  lemma OwnsPathPrefix(items: seq<Item>, j: nat, p: string)
    requires j <= |items| && !OwnsPath(items, p)
    ensures !OwnsPath(items[..j], p)
  {
    forall h | 0 <= h < j && p != "" ensures items[..j][h].version != p {
      assert items[..j][h] == items[h];
    }
  }

  lemma {:induction false} CopiesPrefix(items: seq<Item>, k: nat) returns (j: nat)
    requires k <= |Copies(items)|
    ensures j <= |items| && Copies(items)[..k] == Copies(items[..j])
  {
    if k == |Copies(items)| {
      j := |items|;
      assert items[..j] == items && Copies(items)[..k] == Copies(items);
    } else {
      var init := items[..|items| - 1];
      j := CopiesPrefix(init, k);
      assert init[..j] == items[..j];
      assert Copies(items)[..k] == Copies(init)[..k];
    }
  }

  // Every referenced in-scope file keeps its bytes through preparation, any writer, any interruption of
  // settlement and any interrupted reconciliations.
  lemma ReferencedBytesSurvive(ws: string, w: World, order: seq<string>, scope: set<string>, referenced: set<string>, n: Names,
                               items: seq<Item>, disk': map<string, Bytes>, clock: int, cut: nat, rounds: seq<Round>, i: nat)
    requires FreshNames(w, n) && WellIndexed(w, ws) && Prepared(w, order, scope, referenced, n, items) && w.commits == map[]
    requires WriterLeaves(ApplyAll(w, Copies(items)).disk, disk', items)
    requires i < |items| && items[i].version != ""
    requires var w0 := ApplyAll(w, Copies(items)).(disk := disk');
             Scanned(SettleRun(Pending(w0, true), ws, items, clock, cut), ws, items, rounds)
    ensures var w0 := ApplyAll(w, Copies(items)).(disk := disk');
            var p := Rounds(SettleRun(Pending(w0, true), ws, items, clock, cut), ws, items, rounds);
            && items[i].record.id in p.world.index
            && (OriginalAt(p.world, items[i], p.world.index[items[i].record.id].path)
                || OriginalAt(p.world, items[i], items[i].version))
            && (!p.open ==> OriginalAt(p.world, items[i], p.world.index[items[i].record.id].path)
                            && p.world.index[items[i].record.id].sha == items[i].before)
  {
    PreparedIndependent(w, ws, order, scope, referenced, n, items);
    WriterLeadsToStage(ws, w, order, scope, referenced, n, items, disk');
    var w0 := ApplyAll(w, Copies(items)).(disk := disk');
    CopiesMade(ws, w, items);
    SettleRunRecoverable(ws, w0, w0, items, clock, cut);
    RoundsRecoverable(ws, w0, SettleRun(Pending(w0, true), ws, items, clock, cut), items, rounds);
    BytesSurvive(ws, Rounds(SettleRun(Pending(w0, true), ws, items, clock, cut), ws, items, rounds).world, items[i]);
  }

  // An active record with an item's path would itself have been an item.
  lemma PreparedOneOwner(w: World, order: seq<string>, scope: set<string>, referenced: set<string>, n: Names, items: seq<Item>, i: nat, id: string)
    requires FreshNames(w, n) && Prepared(w, order, scope, referenced, n, items) && i < |items|
    requires (forall x :: x in w.index ==> x in order) && Owner(w, id, items[i].record.path)
    ensures id == items[i].record.id && items[i].record.lifecycle == Active
  {
    var it := items[i];
    assert Concerned(w, scope, it.record.id) && Concerned(w, scope, id);
    var j :| 0 <= j < |items| && items[j].record.id == id;
    assert items[j] == ItemFor(w, referenced, n, id);
    assert items[j].record.path == it.record.path;
    assert i == j;
  }

  // ---- A wrong size that stays ----

  // One referenced file with the right digest and a size that is one too large, and names for its copy.
  function Oversized(ws: string, id: string, path: string, bytes: Bytes): FileRecord {
    FileRecord(id, ws, "working_file", "data", path, path, "", true, |bytes| + 1, Sha256(bytes), 0, "upload", "internal", Active, map[])
  }

  function OneFile(ws: string, id: string, path: string, bytes: Bytes): World {
    World(map[path := bytes], map[id := Oversized(ws, id, path, bytes)], map[])
  }

  lemma OversizedIsPrepared(ws: string, id: string, path: string, bytes: Bytes, version: string, next: string)
    requires path != "" && version != "" && version != path && next != id
    ensures var w, n := OneFile(ws, id, path, bytes), Names(map[id := version], map[id := next]);
            && FreshNames(w, n) && WellIndexed(w, ws)
            && Prepare(w, [id], {path}, {id}, n) == Ok([Item(w.index[id], Sha256(bytes), version, next)])
  {
    var w, n := OneFile(ws, id, path, bytes), Names(map[id := version], map[id := next]);
    assert n.copyOf.Keys == w.index.Keys && n.nextId.Keys == w.index.Keys;
    assert FreshNames(w, n);
    assert [id][..0] == [] && Prepare(w, [], {path}, {id}, n) == Ok([]);
    assert [] + [ItemFor(w, {id}, n, id)] == [Item(w.index[id], Sha256(bytes), version, next)];
    assert Prepare(w, [id], {path}, {id}, n) == Ok([] + [ItemFor(w, {id}, n, id)]);
  }

  // A mutation whose writer does nothing settles without an error, and the size is as wrong as before.
  lemma WrongSizeStays(ws: string, id: string, path: string, bytes: Bytes, version: string, next: string, clock: int)
    requires path != "" && version != "" && version != path && next != id
    ensures var w, n := OneFile(ws, id, path, bytes), Names(map[id := version], map[id := next]);
            var items := [Item(w.index[id], Sha256(bytes), version, next)];
            var w0 := ApplyAll(w, Copies(items));
            var a := SettleAll(w0, ws, items, clock);
            && Prepare(w, [id], {path}, {id}, n) == Ok(items)
            && a.error.None? && ApplyAll(w0, a.writes) == w
            && w.index[id].sha == Sha256(bytes) && w.index[id].size == |w.disk[path]| + 1
  {
    var w := OneFile(ws, id, path, bytes);
    var it := Item(w.index[id], Sha256(bytes), version, next);
    OversizedIsPrepared(ws, id, path, bytes, version, next);
    assert [it][..0] == [];
    ApplyOne(w, Copy(version, bytes));
    assert Copies([it]) == [Copy(version, bytes)];
    var w0 := Apply(w, Copy(version, bytes));
    assert Settle(w0, ws, it, clock) == Attempt([Remove(version)], [], None);
    ApplyOne(w0, Remove(version));
    assert w0.disk - {version} == w.disk;
    assert SettleAll(w0, ws, [it], clock).writes == [Remove(version)];
  }
}
