// The memory store as the object its callers use (storage/memory_governance.py, lines 136-431 and
// 436-704): record files rewritten one at a time, each method tied to the write list that
// MemoryLifecycle, MemoryConfirm and MemoryGate reason about.
module MemoryStore {
  import opened Prelude
  import opened MemoryGraph
  import opened MemoryLifecycle

  // ---- What one workspace sees is enough ----

  lemma DomainVisible(ws: string, a: Record, b: Record)
    requires SameDomain(a, b)
    ensures Visible(ws, a) <==> Visible(ws, b)
  {
  }

  lemma {:induction false} ViewChain(st: Store, ws: string, start: Record, cur: Record, seen: set<string>)
    requires Visible(ws, start)
    ensures Chain(View(st, ws), start, cur, seen) == Chain(st, start, cur, seen)
    decreases st.Keys - seen
  {
    var t := cur.supersedes;
    if t in st && t !in seen && SameDomain(start, st[t]) {
      DomainVisible(ws, start, st[t]);
      assert t in st.Keys - seen && t !in st.Keys - (seen + {t});
      ViewChain(st, ws, start, st[t], seen + {t});
    }
  }

  lemma {:induction false} ViewTakeUndecided(st: Store, ws: string, ids: seq<string>)
    requires forall x :: x in ids ==> x in View(st, ws)
    ensures TakeUndecided(View(st, ws), ids) == TakeUndecided(st, ids)
  {
    if ids != [] {
      ViewTakeUndecided(st, ws, ids[1..]);
    }
  }

  lemma ViewReplaces(st: Store, ws: string, n: string)
    requires n in View(st, ws)
    ensures Replaces(View(st, ws), st[n]) == Replaces(st, st[n])
  {
    ViewChain(st, ws, st[n], st[n], {st[n].id});
    ViewTakeUndecided(st, ws, Ancestors(st, st[n]));
  }

  // A workspace's listing decides supersession and retrieval as the whole store would.
  lemma ViewSuperseded(st: Store, ws: string, x: string)
    requires WellFormed(st) && x in View(st, ws)
    ensures Superseded(View(st, ws), x) <==> Superseded(st, x)
  {
    if n :| n in View(st, ws) && x in Replaces(View(st, ws), View(st, ws)[n]) {
      ViewReplaces(st, ws, n);
    }
    if n :| n in st && x in Replaces(st, st[n]) {
      AncestorsAreReachable(st, n, x);
      ReachesKeepsDomain(st, n, x);
      DomainVisible(ws, st[n], st[x]);
      ViewReplaces(st, ws, n);
      assert x in Replaces(View(st, ws), View(st, ws)[n]);
    }
  }

  lemma ViewRetrievable(st: Store, ws: string, now: int, x: string)
    requires WellFormed(st)
    ensures Retrievable(View(st, ws), now, x) <==> x in View(st, ws) && Retrievable(st, now, x)
  {
    if x in View(st, ws) {
      ViewSuperseded(st, ws, x);
    }
  }

  // ---- The two derivations, as loops over a scanned list ----

  function Found(st: Store, ids: seq<string>): (records: seq<Record>)
    requires forall x :: x in ids ==> x in st
    ensures |records| == |ids| && forall i :: 0 <= i < |ids| ==> records[i] == st[ids[i]]
  {
    seq(|ids|, i requires 0 <= i < |ids| => st[ids[i]])
  }

  // `records` is a scan of exactly the files in `st`.
  ghost predicate Lists(records: seq<Record>, st: Store) {
    && (forall i :: 0 <= i < |records| ==> records[i].id in st && st[records[i].id] == records[i])
    && (forall i, j :: 0 <= i < j < |records| ==> records[i].id != records[j].id)
    && (forall id :: id in st ==> exists i :: 0 <= i < |records| && records[i].id == id)
  }

  method IndexById(records: seq<Record>, ghost st: Store) returns (byId: Store)
    requires Lists(records, st)
    ensures byId == st
  {
    byId := map[];
    for i := 0 to |records|
      invariant forall id :: id in byId ==> id in st && byId[id] == st[id]
      invariant forall k :: 0 <= k < i ==> records[k].id in byId
    {
      byId := byId[records[i].id := records[i]];
    }
    assert forall id :: id in st ==> id in byId;
  }

  // `revision_ancestors`
  method RevisionAncestors(record: Record, records: seq<Record>, ghost st: Store) returns (ancestors: seq<Record>)
    requires Lists(records, st)
    ensures ancestors == Found(st, Ancestors(st, record))
  {
    var byId := IndexById(records, st);
    var seen := {record.id};
    ancestors := [];
    var current := record;
    ghost var ids := [];
    while true
      invariant forall x :: x in ids ==> x in st
      invariant ids + Chain(st, record, current, seen) == Ancestors(st, record)
      invariant ancestors == Found(st, ids)
      decreases st.Keys - seen
    {
      var targetId := current.supersedes;
      if targetId !in byId || targetId in seen || !SameDomain(record, byId[targetId]) {
        assert Chain(st, record, current, seen) == [];
        assert ids == Ancestors(st, record);
        return;
      }
      var target := byId[targetId];
      ChainStep(st, record, current, seen);
      ChainSlides(ids, targetId, Chain(st, record, target, seen + {targetId}));
      assert targetId in st.Keys - seen && targetId !in st.Keys - (seen + {targetId});
      ancestors := ancestors + [target];
      ids := ids + [targetId];
      seen := seen + {targetId};
      current := target;
    }
  }

  lemma ChainSlides(done: seq<string>, t: string, rest: seq<string>)
    ensures done + ([t] + rest) == (done + [t]) + rest
  {
  }

  lemma ChainStep(st: Store, start: Record, cur: Record, seen: set<string>)
    requires cur.supersedes in st && cur.supersedes !in seen && SameDomain(start, st[cur.supersedes])
    ensures Chain(st, start, cur, seen)
         == [cur.supersedes] + Chain(st, start, st[cur.supersedes], seen + {cur.supersedes})
  {
  }

  // ---- Which records are replaced, and by what ----

  // `dict.setdefault` for each id in turn.
  function SetDefaults(m: map<string, string>, ids: seq<string>, v: string): map<string, string> {
    if ids == [] then m
    else
      var m1 := SetDefaults(m, ids[..|ids| - 1], v);
      if ids[|ids| - 1] in m1 then m1 else m1[ids[|ids| - 1] := v]
  }

  lemma {:induction false} SetDefaultsMember(m: map<string, string>, ids: seq<string>, v: string, x: string)
    ensures x in SetDefaults(m, ids, v) <==> x in m || x in ids
    ensures x in m ==> SetDefaults(m, ids, v)[x] == m[x]
    ensures x !in m && x in ids ==> SetDefaults(m, ids, v)[x] == v
  {
    if ids != [] {
      SetDefaultsMember(m, ids[..|ids| - 1], v, x);
      assert ids == ids[..|ids| - 1] + [ids[|ids| - 1]];
    }
  }

  predicate Outranks(newer: Record, older: Record) {
    newer.status == Active || (Undecided(newer) && Undecided(older))
  }

  // How far down the chain the inner loop of `superseded_records` goes.
  function Reach(newer: Record, ancestors: seq<Record>): (n: nat)
    ensures n <= |ancestors|
    ensures forall i :: 0 <= i < n ==> Outranks(newer, ancestors[i])
    ensures n < |ancestors| ==> !Outranks(newer, ancestors[n])
  {
    if ancestors == [] || !Outranks(newer, ancestors[0]) then 0 else 1 + Reach(newer, ancestors[1..])
  }

  lemma {:induction false} TakeUndecidedIsReach(st: Store, newer: Record, ids: seq<string>)
    requires Undecided(newer) && forall x :: x in ids ==> x in st
    ensures TakeUndecided(st, ids) == ids[..Reach(newer, Found(st, ids))]
  {
    if ids != [] && Undecided(st[ids[0]]) {
      TakeUndecidedIsReach(st, newer, ids[1..]);
      FoundTail(st, ids);
      TakeOneMore(ids, Reach(newer, Found(st, ids[1..])));
    }
  }

  lemma FoundTail(st: Store, ids: seq<string>)
    requires ids != [] && forall x :: x in ids ==> x in st
    ensures Found(st, ids)[0] == st[ids[0]] && Found(st, ids)[1..] == Found(st, ids[1..])
  {
  }

  lemma TakeOneMore<T>(s: seq<T>, n: nat)
    requires s != [] && n < |s|
    ensures s[..1 + n] == [s[0]] + s[1..][..n]
  {
  }

  lemma ReplacesIsReach(st: Store, newer: Record)
    ensures var ids := Ancestors(st, newer); Replaces(st, newer) == ids[..Reach(newer, Found(st, ids))]
  {
    var ids := Ancestors(st, newer);
    if newer.status == Active {
      assert Reach(newer, Found(st, ids)) == |ids|;
    } else if Undecided(newer) {
      TakeUndecidedIsReach(st, newer, ids);
    }
  }

  // The inner loop: one newer record against its ancestors, nearest first.
  method MarkReplaced(newer: Record, ancestors: seq<Record>, before: map<string, string>, ghost ids: seq<string>)
    returns (replaced: map<string, string>)
    requires |ids| == |ancestors| && forall i :: 0 <= i < |ids| ==> ids[i] == ancestors[i].id
    ensures replaced == SetDefaults(before, ids[..Reach(newer, ancestors)], newer.id)
  {
    replaced := before;
    var j := 0;
    while j < |ancestors|
      invariant 0 <= j <= |ancestors|
      invariant forall h :: 0 <= h < j ==> Outranks(newer, ancestors[h])
      invariant replaced == SetDefaults(before, ids[..j], newer.id)
    {
      var older := ancestors[j];
      if newer.status == Active {
      } else if Undecided(newer) && Undecided(older) {
      } else {
        break;
      }
      assert ids[..j + 1][..j] == ids[..j];
      replaced := if older.id in replaced then replaced else replaced[older.id := newer.id];
      j := j + 1;
    }
  }

  function Marks(st: Store, records: seq<Record>): map<string, string> {
    if records == [] then map[]
    else
      var last := records[|records| - 1];
      SetDefaults(Marks(st, records[..|records| - 1]), Replaces(st, last), last.id)
  }

  lemma {:induction false} MarksMember(st: Store, records: seq<Record>, x: string)
    requires forall r :: r in records ==> r.id in st && st[r.id] == r
    ensures x in Marks(st, records) <==> exists r :: r in records && x in Replaces(st, r)
    ensures x in Marks(st, records) ==> Marks(st, records)[x] in st && x in Replaces(st, st[Marks(st, records)[x]])
  {
    if records != [] {
      var init, last := records[..|records| - 1], records[|records| - 1];
      assert forall r :: r in records <==> r in init || r == last;
      MarksMember(st, init, x);
      SetDefaultsMember(Marks(st, init), Replaces(st, last), last.id, x);
    }
  }

  lemma MarksAreSuperseded(st: Store, records: seq<Record>, x: string)
    requires Lists(records, st)
    ensures x in Marks(st, records) <==> Superseded(st, x)
    ensures x in Marks(st, records) ==> Marks(st, records)[x] in st && x in Replaces(st, st[Marks(st, records)[x]])
  {
    MarksMember(st, records, x);
    if r :| r in records && x in Replaces(st, r) {
      assert r.id in st && st[r.id] == r;
    }
    if n :| n in st && x in Replaces(st, st[n]) {
      var k :| 0 <= k < |records| && records[k].id == n;
      assert records[k] in records;
    }
  }

  // The body of the outer loop.
  method MarkOne(newer: Record, records: seq<Record>, before: map<string, string>, ghost st: Store)
    returns (replaced: map<string, string>)
    requires Lists(records, st)
    ensures replaced == SetDefaults(before, Replaces(st, newer), newer.id)
  {
    var ancestors := RevisionAncestors(newer, records, st);
    ghost var ids := Ancestors(st, newer);
    FoundNames(records, st, ids);
    ReplacesIsReach(st, newer);
    replaced := MarkReplaced(newer, ancestors, before, ids);
  }

  // `superseded_records`: keyed by the replaced id, with a record that replaces it.
  method SupersededRecords(records: seq<Record>, ghost st: Store) returns (replaced: map<string, string>)
    requires Lists(records, st)
    ensures forall x :: x in replaced <==> Superseded(st, x)
    ensures forall x :: x in replaced ==> replaced[x] in st && x in Replaces(st, st[replaced[x]])
  {
    replaced := map[];
    for i := 0 to |records|
      invariant replaced == Marks(st, records[..i])
    {
      replaced := MarkOne(records[i], records, replaced, st);
      MarksStep(st, records, i);
    }
    assert records[..|records|] == records;
    AllMarks(st, records);
  }

  lemma AllMarks(st: Store, records: seq<Record>)
    requires Lists(records, st)
    ensures forall x :: x in Marks(st, records) <==> Superseded(st, x)
    ensures forall x :: x in Marks(st, records) ==> Marks(st, records)[x] in st && x in Replaces(st, st[Marks(st, records)[x]])
  {
    forall x
      ensures x in Marks(st, records) <==> Superseded(st, x)
      ensures x in Marks(st, records) ==> Marks(st, records)[x] in st && x in Replaces(st, st[Marks(st, records)[x]])
    {
      MarksAreSuperseded(st, records, x);
    }
  }

  lemma MarksStep(st: Store, records: seq<Record>, i: nat)
    requires i < |records|
    ensures Marks(st, records[..i + 1]) == SetDefaults(Marks(st, records[..i]), Replaces(st, records[i]), records[i].id)
  {
    assert records[..i + 1][..i] == records[..i];
  }

  lemma FoundNames(records: seq<Record>, st: Store, ids: seq<string>)
    requires Lists(records, st) && forall x :: x in ids ==> x in st
    ensures forall i :: 0 <= i < |ids| ==> Found(st, ids)[i].id == ids[i]
  {
    forall i | 0 <= i < |ids| ensures st[ids[i]].id == ids[i] {
      assert ids[i] in st;
    }
  }

  // ---- Retrieval ----

  // `memory_scope_visible`
  predicate InScope(r: Record, ws: string, session: string, task: string) {
    match r.scope
    case Global => true
    case Workspace => ws != "" && r.workspace == ws
    case Session => ws != "" && r.workspace == ws && session != "" && r.session == session
    case Task => ws != "" && r.workspace == ws && task != "" && r.task == task
    case Unknown => false
  }

  datatype Query = Query(ws: string, session: string, task: string, kind: string, now: int)

  predicate Hit(st: Store, q: Query, r: Record) {
    Retrievable(st, q.now, r.id) && InScope(r, q.ws, q.session, q.task) && (q.kind == "" || r.kind == q.kind)
  }

  function Hits(st: Store, q: Query, records: seq<Record>): seq<Record> {
    if records == [] then []
    else
      var last := records[|records| - 1];
      Hits(st, q, records[..|records| - 1]) + (if Hit(st, q, last) then [last] else [])
  }

  // `list_retrievable` cannot return a record that revision has replaced, and without a limit returns all others.
  lemma {:induction false} HitsExactly(st: Store, q: Query, records: seq<Record>, r: Record)
    ensures r in Hits(st, q, records) <==> r in records && Hit(st, q, r)
  {
    if records != [] {
      HitsExactly(st, q, records[..|records| - 1], r);
      assert records == records[..|records| - 1] + [records[|records| - 1]];
    }
  }

  lemma HitsAreAll(st: Store, q: Query, records: seq<Record>)
    requires Lists(records, View(st, q.ws))
    ensures forall r :: r in Hits(st, q, records) ==> Hit(st, q, r)
    ensures forall id :: id in View(st, q.ws) && Hit(st, q, st[id]) ==> st[id] in Hits(st, q, records)
  {
    forall r ensures r in Hits(st, q, records) <==> r in records && Hit(st, q, r) {
      HitsExactly(st, q, records, r);
    }
    forall id | id in View(st, q.ws) ensures st[id] in records {
      var i :| 0 <= i < |records| && records[i].id == id;
    }
  }

  lemma {:induction false} HitsGrow(st: Store, q: Query, records: seq<Record>, i: nat)
    requires i <= |records|
    ensures Hits(st, q, records[..i]) <= Hits(st, q, records)
  {
    if i == |records| {
      assert records[..i] == records;
    } else {
      HitsGrow(st, q, records[..|records| - 1], i);
      assert records[..|records| - 1][..i] == records[..i];
    }
  }

  ghost predicate ReplacedExactly(st: Store, ws: string, replaced: map<string, string>) {
    forall x :: x in replaced <==> Superseded(View(st, ws), x)
  }

  // The tests of the selection loop.
  predicate Selected(q: Query, replaced: map<string, string>, r: Record) {
    Live(r, q.now) && r.id !in replaced && InScope(r, q.ws, q.session, q.task) && (q.kind == "" || r.kind == q.kind)
  }

  lemma HitInView(st: Store, q: Query, records: seq<Record>, replaced: map<string, string>, i: nat)
    requires WellFormed(st) && Lists(records, View(st, q.ws)) && i < |records|
    requires ReplacedExactly(st, q.ws, replaced)
    ensures Hit(st, q, records[i]) <==> Selected(q, replaced, records[i])
  {
    ViewRetrievable(st, q.ws, q.now, records[i].id);
  }

  lemma HitsStep(st: Store, q: Query, records: seq<Record>, replaced: map<string, string>, i: nat)
    requires WellFormed(st) && Lists(records, View(st, q.ws)) && i < |records|
    requires ReplacedExactly(st, q.ws, replaced)
    ensures Hits(st, q, records[..i + 1])
         == if Selected(q, replaced, records[i]) then Hits(st, q, records[..i]) + [records[i]] else Hits(st, q, records[..i])
  {
    HitInView(st, q, records, replaced, i);
    assert records[..i + 1][..i] == records[..i];
  }

  lemma RetireAllStep(st: Store, ids: seq<string>, i: nat, heir: string, now: int)
    requires i < |ids| && forall x :: x in ids ==> x in st
    ensures RetireAll(st, ids[..i + 1], heir, now)
         == RetireAll(st, ids[..i], heir, now)
            + (if st[ids[i]].status == Active then [Write.Save(MemoryLifecycle.Retire(st[ids[i]], heir, now))] else [])
  {
    assert ids[..i + 1][..i] == ids[..i] && ids[..i + 1][i] == ids[i];
  }

  lemma PrefixIsTake<T>(a: seq<T>, b: seq<T>)
    requires a <= b
    ensures |a| <= |b| && a == b[..|a|]
    ensures |a| == |b| ==> a == b
  {
  }

  function Cut(all: seq<Record>, limit: int): seq<Record> {
    if limit > 0 && |all| > limit then all[..limit] else all
  }

  // Once the limit is reached the rest does not matter.
  lemma LimitReached(st: Store, q: Query, records: seq<Record>, i: nat, limit: int)
    requires i <= |records| && limit > 0 && |Hits(st, q, records[..i])| == limit
    ensures Hits(st, q, records[..i]) == Cut(Hits(st, q, records), limit)
  {
    HitsGrow(st, q, records, i);
    PrefixIsTake(Hits(st, q, records[..i]), Hits(st, q, records));
  }

  // The selection loop of `list_retrievable`.
  method Select(ghost st: Store, q: Query, records: seq<Record>, replaced: map<string, string>, limit: int)
    returns (hits: seq<Record>)
    requires WellFormed(st) && Lists(records, View(st, q.ws))
    requires ReplacedExactly(st, q.ws, replaced)
    ensures hits == Cut(Hits(st, q, records), limit)
  {
    hits := [];
    var i := 0;
    while i < |records| && !(limit > 0 && |hits| >= limit)
      invariant 0 <= i <= |records| && hits == Hits(st, q, records[..i])
      invariant limit > 0 ==> |hits| <= limit
    {
      HitsStep(st, q, records, replaced, i);
      if Selected(q, replaced, records[i]) {
        hits := hits + [records[i]];
      }
      i := i + 1;
    }
    SelectEnds(st, q, records, i, limit);
  }

  lemma SelectEnds(st: Store, q: Query, records: seq<Record>, i: nat, limit: int)
    requires i <= |records| && (limit > 0 ==> |Hits(st, q, records[..i])| <= limit)
    requires i == |records| || (limit > 0 && |Hits(st, q, records[..i])| >= limit)
    ensures Hits(st, q, records[..i]) == Cut(Hits(st, q, records), limit)
  {
    if i == |records| {
      assert records[..i] == records;
    } else {
      LimitReached(st, q, records, i, limit);
    }
  }

  // ---- The store ----

  class MemoryFiles {
    var files: Store
    ghost var written: seq<Write>

    ghost predicate Valid()
      reads this
    {
      WellFormed(files)
    }

    // `writes` is what happened since the given state, in order.
    ghost predicate Performed(files0: Store, written0: seq<Write>, writes: seq<Write>)
      reads this
    {
      files == ApplyAll(files0, writes) && written == written0 + writes
    }

    constructor ()
      ensures Valid() && files == map[] && written == []
    {
      files := map[];
      written := [];
    }

    method Save(r: Record)
      requires Valid() && r.id != ""
      modifies this
      ensures Valid() && Performed(old(files), old(written), [Write.Save(r)])
    {
      files := files[r.id := r];
      written := written + [Write.Save(r)];
      ApplyFirst(old(files), Write.Save(r), []);
      assert [Write.Save(r)] + [] == [Write.Save(r)];
    }

    method Unlink(id: string)
      requires Valid()
      modifies this
      ensures Valid() && Performed(old(files), old(written), [Write.Unlink(id)])
    {
      files := files - {id};
      written := written + [Write.Unlink(id)];
      ApplyFirst(old(files), Write.Unlink(id), []);
      assert [Write.Unlink(id)] + [] == [Write.Unlink(id)];
    }

    method Get(ws: string, id: string) returns (found: Option<Record>)
      ensures found == if id in files && Visible(ws, files[id]) then Some(files[id]) else None
    {
      if id !in files {
        return None;
      }
      found := if Visible(ws, files[id]) then Some(files[id]) else None;
    }

    method ListAll(ws: string) returns (records: seq<Record>)
      requires Valid()
      ensures Lists(records, View(files, ws))
    {
      records := [];
      var left := files.Keys;
      while left != {}
        invariant left <= files.Keys
        invariant forall i :: 0 <= i < |records| ==>
                    records[i].id in View(files, ws) && View(files, ws)[records[i].id] == records[i] && records[i].id !in left
        invariant forall i, j :: 0 <= i < j < |records| ==> records[i].id != records[j].id
        invariant forall id :: id in View(files, ws) && id !in left ==> exists i :: 0 <= i < |records| && records[i].id == id
        decreases left
      {
        var id :| id in left;
        left := left - {id};
        if Visible(ws, files[id]) {
          ghost var before := records;
          records := records + [files[id]];
          assert records[|before|].id == id;
          assert forall i :: 0 <= i < |before| ==> records[i] == before[i];
        }
      }
    }

    method ListRetrievable(q: Query, limit: int) returns (hits: seq<Record>, ghost listing: seq<Record>)
      requires Valid()
      ensures Lists(listing, View(files, q.ws))
      ensures hits == Cut(Hits(files, q, listing), limit)
      ensures forall r :: r in hits ==> Hit(files, q, r)
      ensures limit <= 0 || |hits| < limit ==>
                forall id :: id in View(files, q.ws) && Hit(files, q, files[id]) ==> files[id] in hits
      ensures limit > 0 ==> |hits| <= limit
    {
      var records := ListAll(q.ws);
      listing := records;
      var replaced := SupersededRecords(records, View(files, q.ws));
      hits := Select(files, q, records, replaced, limit);
      HitsAreAll(files, q, records);
    }

    method RetireRevisionAncestors(record: Record, now: int)
      requires Valid()
      modifies this
      ensures Valid()
      ensures Performed(old(files), old(written), RetireAll(old(files), Ancestors(old(files), record), record.id, now))
    {
      var records := ListAll(record.workspace);
      ghost var st := files;
      ghost var ids := Ancestors(st, record);
      ViewChain(st, record.workspace, record, record, {record.id});
      var ancestors := RevisionAncestors(record, records, View(st, record.workspace));
      ghost var done := [];
      for i := 0 to |ancestors|
        invariant Valid()
        invariant done == RetireAll(st, ids[..i], record.id, now)
        invariant Performed(st, old(written), done)
      {
        var previous := ancestors[i];
        assert previous == View(st, record.workspace)[ids[i]] == st[ids[i]];
        RetireAllStep(st, ids, i, record.id, now);
        if previous.status == Active {
          var retired := MemoryLifecycle.Retire(previous, record.id, now);
          ApplySplit(st, done, [Write.Save(retired)]);
          Associative(old(written), done, [Write.Save(retired)]);
          Save(retired);
          done := done + [Write.Save(retired)];
        }
      }
      assert ids[..|ids|] == ids;
    }

    // `_retire_memory`, for both `reject_memory` and `expire_memory`
    method RetireMemory(ws: string, id: string, status: Status, now: int) returns (found: bool)
      requires Valid()
      modifies this
      ensures Valid() && found == (id in old(files) && Visible(ws, old(files)[id]))
      ensures Performed(old(files), old(written), RetireWrites(old(files), ws, id, status, now))
    {
      var rec := Get(ws, id);
      if rec.None? {
        return false;
      }
      found := true;
      if rec.value.status != status {
        ghost var clean := if rec.value.status == Active then RetireAll(files, Ancestors(files, rec.value), id, now) else [];
        if rec.value.status == Active {
          RetireRevisionAncestors(rec.value, now);
        }
        ghost var last := Write.Save(rec.value.(status := status, updatedAt := now));
        ApplySplit(old(files), clean, [last]);
        Associative(old(written), clean, [last]);
        Save(rec.value.(status := status, updatedAt := now));
      }
    }

    // `_delete_file_locked`
    method DeleteFile(ws: string, id: string, now: int) returns (deleted: bool)
      requires Valid()
      modifies this
      ensures Valid() && deleted == (id in old(files) && Visible(ws, old(files)[id]))
      ensures Performed(old(files), old(written), DeleteWrites(old(files), ws, id, now))
    {
      var rec := Get(ws, id);
      if rec.None? {
        return false;
      }
      var records := ListAll(ws);
      var replaced := SupersededRecords(records, View(files, ws));
      ViewSuperseded(files, ws, id);
      ghost var clean := [];
      if rec.value.status == Active || id in replaced {
        clean := RetireAll(files, Ancestors(files, rec.value), id, now);
        RetireRevisionAncestors(rec.value, now);
      }
      ApplySplit(old(files), clean, [Write.Unlink(id)]);
      Associative(old(written), clean, [Write.Unlink(id)]);
      Unlink(id);
      deleted := true;
    }
  }
}
