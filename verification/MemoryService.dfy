// Confirming and writing memories (storage/memory_governance.py, lines 412-431, 436-620 and 625-665),
// against the write lists of MemoryConfirm and MemoryGate.
module MemoryService {
  import opened Prelude
  import opened MemoryGraph
  import opened MemoryLifecycle
  import opened MemoryConfirm
  import opened MemoryGate
  import opened MemoryStore

  function Names(records: seq<Record>): (ids: seq<string>)
    ensures |ids| == |records| && forall i :: 0 <= i < |ids| ==> ids[i] == records[i].id
  {
    seq(|records|, i requires 0 <= i < |records| => records[i].id)
  }

  lemma NamesAreListing(records: seq<Record>, st: Store, ws: string)
    requires WellFormed(st) && Lists(records, View(st, ws))
    ensures IsListing(st, ws, Names(records))
  {
    forall x ensures x in Names(records) <==> x in st && Visible(ws, st[x]) {
      if x in st && Visible(ws, st[x]) {
        assert x in View(st, ws);
        var i :| 0 <= i < |records| && records[i].id == x;
        assert Names(records)[i] == x;
      }
    }
  }

  // Is the record out of retrieval for its workspace?
  method IsSuperseded(store: MemoryFiles, ws: string, id: string) returns (stale: bool)
    requires store.Valid() && id in store.files && Visible(ws, store.files[id])
    ensures stale == Superseded(store.files, id)
  {
    var records := store.ListAll(ws);
    var replaced := SupersededRecords(records, View(store.files, ws));
    ViewSuperseded(store.files, ws, id);
    stale := id in replaced;
  }

  // ---- Confirming ----

  lemma GroupExpiryStep(st: Store, ids: seq<string>, rec: Record, i: nat)
    requires i < |ids|
    ensures GroupExpiry(st, ids[..i + 1], rec)
         == GroupExpiry(st, ids[..i], rec)
            + (if ids[i] in st && st[ids[i]].group == rec.group && ids[i] != rec.id && st[ids[i]].status == Active
               then [Write.Save(st[ids[i]].(status := Expired))] else [])
  {
    assert ids[..i + 1][..i] == ids[..i] && ids[..i + 1][i] == ids[i];
  }

  // The last loop of `_confirm_memory_locked`.
  method ExpireGroup(store: MemoryFiles, ws: string, rec: Record) returns (ghost order: seq<string>)
    requires store.Valid()
    modifies store
    ensures store.Valid() && IsListing(old(store.files), ws, order)
    ensures store.Performed(old(store.files), old(store.written), GroupExpiry(old(store.files), order, rec))
  {
    var records := store.ListAll(ws);
    ghost var st := store.files;
    NamesAreListing(records, st, ws);
    order := Names(records);
    ghost var done := [];
    for i := 0 to |records|
      invariant store.Valid()
      invariant done == GroupExpiry(st, order[..i], rec)
      invariant store.Performed(st, old(store.written), done)
    {
      var r := records[i];
      assert r == View(st, ws)[r.id] == st[r.id];
      GroupExpiryStep(st, order, rec, i);
      if r.group == rec.group && r.id != rec.id && r.status == Active {
        var expired := r.(status := Expired);
        ApplySplit(st, done, [Write.Save(expired)]);
        Associative(old(store.written), done, [Write.Save(expired)]);
        store.Save(expired);
        done := done + [Write.Save(expired)];
      }
    }
    assert order[..|order|] == order;
  }

  // `_confirm_memory_locked`
  method ConfirmMemory(store: MemoryFiles, ws: string, id: string, authority: string, now: int)
    returns (result: Result<Status, string>, ghost order: seq<string>)
    requires store.Valid()
    modifies store
    ensures store.Valid()
    ensures store.Performed(old(store.files), old(store.written),
                            ConfirmWrites(old(store.files), ws, id, authority, now, order))
    ensures match ConfirmRefusal(old(store.files), ws, id)
            case Some(error) => result == Err(error)
            case None => result == Ok(if old(store.files)[id].retires then Expired else Active)
  {
    order := [];
    var found := store.Get(ws, id);
    if found.None? {
      return Err("not found"), order;
    }
    var rec := found.value;
    if !(rec.status == Pending || rec.status == Conflict) {
      return Err("cannot confirm status"), order;
    }
    var targetId := rec.supersedes;
    var target := store.Get(ws, targetId);
    if targetId != "" && (target.None? || target.value.id == rec.id || !SameDomain(rec, target.value)) {
      return Err("invalid_memory_revision_target"), order;
    }
    if rec.retires {
      if targetId == "" {
        return Err("invalid_memory_revision_target"), order;
      }
      ConfirmRetirement(store, rec, target.value, authority, now);
      return Ok(Expired), order;
    }
    if targetId != "" {
      var stale := IsSuperseded(store, ws, targetId);
      if stale {
        return Err("memory_revision_stale"), order;
      }
    }
    order := Promote(store, ws, rec, authority, now);
    ConfirmShape(old(store.files), ws, id, authority, now, order);
    result := Ok(Active);
  }

  method ConfirmRetirement(store: MemoryFiles, rec: Record, target: Record, authority: string, now: int)
    requires store.Valid() && rec.id != "" && target.id != ""
    modifies store
    ensures store.Valid()
    ensures store.Performed(old(store.files), old(store.written),
      [Write.Save(target.(status := Expired, updatedAt := now)),
       Write.Save(rec.(status := Expired, updatedAt := now, authority := authority))])
  {
    var first := target.(status := Expired, updatedAt := now);
    var second := rec.(status := Expired, updatedAt := now, authority := authority);
    store.Save(first);
    store.Save(second);
    ApplySplit(old(store.files), [Write.Save(first)], [Write.Save(second)]);
    Associative(old(store.written), [Write.Save(first)], [Write.Save(second)]);
    assert [Write.Save(first)] + [Write.Save(second)] == [Write.Save(first), Write.Save(second)];
  }

  // The replacement takes force first; only then is what it replaces cleaned up.
  method Promote(store: MemoryFiles, ws: string, rec: Record, authority: string, now: int) returns (ghost order: seq<string>)
    requires store.Valid() && rec.id in store.files && store.files[rec.id] == rec
    modifies store
    ensures store.Valid()
    ensures var active := Confirmed(rec, authority, now);
            store.Performed(old(store.files), old(store.written),
              [Write.Save(active)] + ConfirmTail(old(store.files)[rec.id := active], rec.id, now, order))
  {
    var active := Confirmed(rec, authority, now);
    ghost var st1 := store.files[rec.id := active];
    store.Save(active);
    ApplyFirst(old(store.files), Write.Save(active), []);
    assert [Write.Save(active)] + [] == [Write.Save(active)];
    ghost var clean := RetireAll(st1, Ancestors(st1, active), rec.id, now);
    store.RetireRevisionAncestors(active, now);
    ApplySplit(old(store.files), [Write.Save(active)], clean);
    Associative(old(store.written), [Write.Save(active)], clean);
    order := [];
    if active.group != "" {
      order := ExpireGroup(store, ws, active);
      ghost var tail := GroupExpiry(ApplyAll(st1, clean), order, active);
      ApplySplit(old(store.files), [Write.Save(active)] + clean, tail);
      Associative(old(store.written), [Write.Save(active)] + clean, tail);
      Associative([Write.Save(active)], clean, tail);
    } else {
      assert clean + [] == clean;
    }
  }

  // ---- Writing ----

  lemma FindConflictsStep(st: Store, ids: seq<string>, c: Record, i: nat)
    requires i < |ids| && c.key != ""
    ensures FindConflicts(st, ids[..i + 1], c)
         == FindConflicts(st, ids[..i], c) + (if Conflicting(st, c, ids[i]) then [ids[i]] else [])
  {
    assert ids[..i + 1][..i] == ids[..i] && ids[..i + 1][i] == ids[i];
  }

  // `find_conflicts`
  method FindConflictsIn(store: MemoryFiles, c: Record) returns (found: seq<Record>, ghost listing: seq<string>)
    requires store.Valid()
    ensures IsListing(store.files, c.workspace, listing)
    ensures Names(found) == FindConflicts(store.files, listing, c)
    ensures forall r :: r in found ==> r.id in store.files && store.files[r.id] == r
  {
    var records := store.ListAll(c.workspace);
    ghost var st := store.files;
    NamesAreListing(records, st, c.workspace);
    listing := Names(records);
    found := [];
    if c.key == "" {
      return;
    }
    var replaced := SupersededRecords(records, View(st, c.workspace));
    for i := 0 to |records|
      invariant Names(found) == FindConflicts(st, listing[..i], c)
      invariant forall r :: r in found ==> r.id in st && st[r.id] == r
    {
      var r := records[i];
      ViewSuperseded(st, c.workspace, r.id);
      FindConflictsStep(st, listing, c, i);
      if r.id != c.id && r.id !in replaced && r.scope == c.scope && r.kind == c.kind
         && (c.scope == Session ==> r.session == c.session) && (c.scope == Task ==> r.task == c.task)
         && (r.status == Active || r.status == Pending) && r.key == c.key {
        NamesAppend(found, r);
        found := found + [r];
      }
    }
    assert listing[..|listing|] == listing;
  }

  lemma NamesAppend(records: seq<Record>, r: Record)
    ensures Names(records + [r]) == Names(records) + [r.id]
  {
  }

  lemma MarkGroupStep(st: Store, ids: seq<string>, i: nat, group: string, now: int)
    requires i < |ids| && forall x :: x in ids ==> x in st
    ensures MarkGroup(st, ids[..i + 1], group, now)
         == MarkGroup(st, ids[..i], group, now) + [Write.Save(st[ids[i]].(group := group, updatedAt := now))]
  {
    assert ids[..i + 1][..i] == ids[..i] && ids[..i + 1][i] == ids[i];
  }

  lemma ActiveOnesStep(st: Store, ids: seq<string>, i: nat)
    requires i < |ids| && forall x :: x in ids ==> x in st
    ensures ActiveOnes(st, ids[..i + 1])
         == ActiveOnes(st, ids[..i]) + (if st[ids[i]].status == Active then [ids[i]] else [])
  {
    assert ids[..i + 1][..i] == ids[..i] && ids[..i + 1][i] == ids[i];
  }

  method SelectActive(conflicts: seq<Record>, ghost st: Store) returns (active: seq<Record>)
    requires forall r :: r in conflicts ==> r.id in st && st[r.id] == r
    ensures Names(active) == ActiveOnes(st, Names(conflicts))
    ensures forall r :: r in active ==> r.id in st && st[r.id] == r
  {
    active := [];
    ghost var ids := Names(conflicts);
    for i := 0 to |conflicts|
      invariant Names(active) == ActiveOnes(st, ids[..i])
      invariant forall r :: r in active ==> r.id in st && st[r.id] == r
    {
      ActiveOnesStep(st, ids, i);
      if conflicts[i].status == Active {
        NamesAppend(active, conflicts[i]);
        active := active + [conflicts[i]];
      }
    }
    assert ids[..|ids|] == ids;
  }

  // Every active conflict is marked with the new group before the candidate is saved.
  method MarkConflicts(store: MemoryFiles, active: seq<Record>, group: string, now: int)
    requires store.Valid() && forall r :: r in active ==> r.id in store.files && store.files[r.id] == r
    modifies store
    ensures store.Valid()
    ensures store.Performed(old(store.files), old(store.written), MarkGroup(old(store.files), Names(active), group, now))
  {
    ghost var st := store.files;
    ghost var ids := Names(active);
    ghost var done := [];
    for i := 0 to |active|
      invariant store.Valid()
      invariant done == MarkGroup(st, ids[..i], group, now)
      invariant store.Performed(st, old(store.written), done)
    {
      var marked := active[i].(group := group, updatedAt := now);
      MarkGroupStep(st, ids, i, group, now);
      ApplySplit(st, done, [Write.Save(marked)]);
      Associative(old(store.written), done, [Write.Save(marked)]);
      store.Save(marked);
      done := done + [Write.Save(marked)];
    }
    assert ids[..|ids|] == ids;
  }

  method FindDuplicate(conflicts: seq<Record>, c: Record, ghost st: Store) returns (duplicate: Option<Record>)
    requires forall r :: r in conflicts ==> r.id in st && st[r.id] == r
    ensures FirstDuplicate(st, Names(conflicts), c) == if duplicate.Some? then Some(duplicate.value.id) else None
    ensures duplicate.Some? ==> duplicate.value in conflicts
  {
    ghost var ids := Names(conflicts);
    for i := 0 to |conflicts|
      invariant FirstDuplicate(st, ids, c) == FirstDuplicate(st, ids[i..], c)
    {
      if Text(conflicts[i]) == Text(c) {
        return Some(conflicts[i]);
      }
      assert ids[i..][1..] == ids[i + 1..];
    }
    return None;
  }

  lemma NewestStep(st: Store, ids: seq<string>, i: nat)
    requires i + 1 < |ids| && forall x :: x in ids ==> x in st
    ensures var best := Newest(st, ids[i + 1..]);
            Newest(st, ids[i..]) == if st[best].updatedAt <= st[ids[i]].updatedAt then ids[i] else best
  {
    assert ids[i..][1..] == ids[i + 1..] && ids[i..][0] == ids[i];
  }

  method FindNewest(conflicts: seq<Record>, ghost st: Store) returns (newest: Record)
    requires conflicts != [] && forall r :: r in conflicts ==> r.id in st && st[r.id] == r
    ensures newest in conflicts && newest.id == Newest(st, Names(conflicts))
  {
    ghost var ids := Names(conflicts);
    var i := |conflicts| - 1;
    newest := conflicts[i];
    while i > 0
      invariant 0 <= i < |conflicts| && newest in conflicts && newest.id == Newest(st, ids[i..])
    {
      i := i - 1;
      NewestStep(st, ids, i);
      if newest.updatedAt <= conflicts[i].updatedAt {
        newest := conflicts[i];
      }
    }
    assert ids[0..] == ids;
  }

  // The record as read earlier still says whether the file is undecided.
  ghost predicate Unmoved(r: Record, st: Store) {
    r.id != "" && r.id in st && (Undecided(r) || Undecided(st[r.id]) ==> st[r.id] == r)
  }

  lemma {:induction false} MarksKeepUndecided(st: Store, ids: seq<string>, group: string, now: int, r: Record)
    requires WellFormed(st) && r.id in st && st[r.id] == r
    requires forall x :: x in ids ==> x in st && st[x].status == Active
    ensures Unmoved(r, ApplyAll(st, MarkGroup(st, ids, group, now)))
    ensures WellFormed(ApplyAll(st, MarkGroup(st, ids, group, now)))
  {
    if ids != [] {
      var init, last := ids[..|ids| - 1], ids[|ids| - 1];
      MarksKeepUndecided(st, init, group, now, r);
      var before := MarkGroup(st, init, group, now);
      var mark := Write.Save(st[last].(group := group, updatedAt := now));
      assert (before + [mark])[..|before|] == before;
    }
  }

  // Saving an admitted candidate, then settling what it revises.
  method Persist(store: MemoryFiles, c: Record, target: Option<Record>, now: int)
    requires store.Valid() && c.id != ""
    requires target.Some? ==> Unmoved(target.value, store.files) && target.value.id != c.id
    modifies store
    ensures store.Valid()
    ensures var st1 := old(store.files)[c.id := c];
            store.Performed(old(store.files), old(store.written),
              [Write.Save(c)] + GateTail(st1, if target.Some? then target.value.id else "", c, now))
  {
    ghost var st1 := store.files[c.id := c];
    store.Save(c);
    ApplyFirst(old(store.files), Write.Save(c), []);
    assert [Write.Save(c)] + [] == [Write.Save(c)];
    ghost var reject := [];
    if target.Some? && Undecided(target.value) {
      var rejected := target.value.(status := Rejected, updatedAt := now, supersededBy := c.id);
      reject := [Write.Save(rejected)];
      store.Save(rejected);
    }
    ApplySplit(old(store.files), [Write.Save(c)], reject);
    Associative(old(store.written), [Write.Save(c)], reject);
    assert store.Performed(old(store.files), old(store.written), [Write.Save(c)] + reject);
    ghost var clean := [];
    if c.status == Active {
      ghost var st2 := store.files;
      clean := RetireAll(st2, Ancestors(st2, c), c.id, now);
      store.RetireRevisionAncestors(c, now);
    }
    ApplySplit(old(store.files), [Write.Save(c)] + reject, clean);
    Associative(old(store.written), [Write.Save(c)] + reject, clean);
    Associative([Write.Save(c)], reject, clean);
  }

  // The checks that look at the candidate alone.
  function FieldRefusal(c: Record, j: Judgement): Option<string> {
    if c.workspace == "" then Some("workspace_id is required")
    else if !j.knownWorkspace then Some("invalid_workspace_id")
    else if c.scope == Unknown then Some("invalid_memory_scope")
    else if c.kind !in KINDS then Some("invalid_memory_type")
    else if c.scope == Session && c.session == "" then Some("session_id_required")
    else if c.scope == Task && c.task == "" then Some("task_id_required")
    else if !ValidId(c.id) then Some("invalid_memory_id")
    else None
  }

  lemma RefusedFields(st: Store, c: Record, j: Judgement)
    ensures FieldRefusal(c, j).Some? ==> GateRefusal(st, c, j) == Some(Outcome(Refused(FieldRefusal(c, j).value), []))
  {
  }

  method CheckFields(c: Record, j: Judgement) returns (refused: Option<string>)
    ensures refused == FieldRefusal(c, j)
  {
    if c.workspace == "" { return Some("workspace_id is required"); }
    if !j.knownWorkspace { return Some("invalid_workspace_id"); }
    if c.scope == Unknown { return Some("invalid_memory_scope"); }
    if c.kind !in KINDS { return Some("invalid_memory_type"); }
    if c.scope == Session && c.session == "" { return Some("session_id_required"); }
    if c.scope == Task && c.task == "" { return Some("task_id_required"); }
    if !ValidId(c.id) { return Some("invalid_memory_id"); }
    refused := None;
  }

  // `_write_locked` from the first check to the last write.
  method WriteMemory(store: MemoryFiles, c0: Record, j: Judgement, now: int, group: string)
    returns (reply: Reply, ghost listing: seq<string>)
    requires store.Valid()
    modifies store
    ensures store.Valid()
    ensures GateRefusal(old(store.files), c0, j).None? ==> IsListing(old(store.files), c0.workspace, listing)
    ensures var outcome := Gate(old(store.files), listing, c0, j, now, group);
            reply == outcome.reply && store.Performed(old(store.files), old(store.written), outcome.writes)
  {
    listing := [];
    var malformed := CheckFields(c0, j);
    RefusedFields(store.files, c0, j);
    if malformed.Some? { return Refused(malformed.value), listing; }
    var existing := store.Get(c0.workspace, c0.id);
    if j.damaged { return Refused("memory_record_unavailable"), listing; }
    if existing.Some? {
      if existing.value.content == j.content && SameDomain(c0, existing.value) {
        return Held(existing.value.status, c0.id), listing;
      }
      return Refused("memory_identity_conflict"), listing;
    }
    if j.secret { return Refused("content contains secret-like patterns, rejected"), listing; }
    if j.lowValue {
      store.Save(c0.(content := j.content, summary := j.summary, status := Rejected));
      return Refused("low_value_memory"), listing;
    }
    var refused, target := CheckTarget(store, c0);
    if refused.Some? { return Refused(refused.value), listing; }
    assert GateRefusal(store.files, c0, j).None?;
    reply, listing := Admit(store, Prepared(c0, j), target, now, group);
  }

  // The explicit revision target: known, of the same domain, and not replaced already.
  method CheckTarget(store: MemoryFiles, c: Record) returns (refused: Option<string>, target: Option<Record>)
    requires store.Valid() && c.workspace != ""
    ensures var t := c.supersedes;
            refused == if t != "" && (t !in store.files || !Visible(c.workspace, store.files[t]) || t == c.id
                                      || !SameDomain(c, store.files[t])) then Some("invalid_memory_revision_target")
                       else if t != "" && Superseded(store.files, t) then Some("memory_revision_stale")
                       else None
    ensures refused.None? ==> Admitted(store.files, c, target)
  {
    var targetId := c.supersedes;
    if targetId == "" { return None, None; }
    target := store.Get(c.workspace, targetId);
    if target.None? || target.value.id == c.id || !SameDomain(c, target.value) {
      return Some("invalid_memory_revision_target"), target;
    }
    var stale := IsSuperseded(store, c.workspace, targetId);
    refused := if stale then Some("memory_revision_stale") else None;
  }

  lemma NamesMember(records: seq<Record>, st: Store, id: string)
    requires forall r :: r in records ==> r.id in st && st[r.id] == r
    ensures id in Names(records) <==> id in st && st[id] in records && st[id].id == id
  {
    if id in Names(records) {
      var i :| 0 <= i < |records| && Names(records)[i] == id;
      assert records[i] in records;
    }
    if id in st && st[id] in records && st[id].id == id {
      var i :| 0 <= i < |records| && records[i] == st[id];
      assert Names(records)[i] == id;
    }
  }

  // The explicit revision target, as admitted by the earlier checks.
  ghost predicate Admitted(st: Store, c: Record, target: Option<Record>) {
    match target
    case None => c.supersedes == ""
    case Some(t) =>
      && t.id == c.supersedes && t.id != "" && t.id in st && st[t.id] == t && t.id != c.id
      && !Superseded(st, t.id) && SameDomain(c, t)
  }

  method GatherConflicts(store: MemoryFiles, c: Record, target: Option<Record>)
    returns (conflicts: seq<Record>, ghost listing: seq<string>)
    requires store.Valid() && Admitted(store.files, c, target)
    ensures IsListing(store.files, c.workspace, listing)
    ensures Names(conflicts) == AllConflicts(store.files, listing, c)
    ensures forall r :: r in conflicts ==> r.id in store.files && store.files[r.id] == r
  {
    conflicts, listing := FindConflictsIn(store, c);
    if target.Some? {
      NamesMember(conflicts, store.files, c.supersedes);
      if target.value.status == Active && target.value !in conflicts {
        NamesAppend(conflicts, target.value);
        conflicts := conflicts + [target.value];
      }
    }
  }

  // A user's own statement replaces what it conflicts with; any other candidate is held as a conflict.
  method ResolveConflicts(store: MemoryFiles, c: Record, target: Option<Record>, conflicts: seq<Record>, now: int,
                          group: string, ghost listing: seq<string>)
    returns (saved: Record, ghost marks: seq<Write>)
    requires store.Valid() && Admitted(store.files, c, target)
    requires Names(conflicts) == AllConflicts(store.files, listing, c)
    requires forall r :: r in conflicts ==> r.id in store.files && store.files[r.id] == r
    modifies store
    ensures store.Valid() && (saved, marks) == Resolved(old(store.files), listing, c, now, group)
    ensures store.Performed(old(store.files), old(store.written), marks)
    ensures saved.id == c.id && (target.Some? ==> Unmoved(target.value, store.files))
  {
    saved, marks := c, [];
    if conflicts != [] && c.source in {"user", "manual_confirm"} && (target.Some? || c.kind == "core_rule") {
      if target.None? {
        var newest := FindNewest(conflicts, store.files);
        saved := c.(supersedes := newest.id);
      }
    } else {
      var active := SelectActive(conflicts, store.files);
      if active != [] {
        saved := c.(status := Conflict, group := group);
        marks := MarkGroup(store.files, Names(active), group, now);
        if target.Some? {
          MarksKeepUndecided(store.files, Names(active), group, now, target.value);
        }
        MarkConflicts(store, active, group, now);
      }
    }
  }

  // Conflict resolution and persistence of a candidate that passed every check.
  method Admit(store: MemoryFiles, c: Record, target: Option<Record>, now: int, group: string)
    returns (reply: Reply, ghost listing: seq<string>)
    requires store.Valid() && c.id != "" && Admitted(store.files, c, target)
    modifies store
    ensures store.Valid() && IsListing(old(store.files), c.workspace, listing)
    ensures var outcome := Admission(old(store.files), listing, c, now, group);
            reply == outcome.reply && store.Performed(old(store.files), old(store.written), outcome.writes)
  {
    ghost var st := store.files;
    var conflicts;
    conflicts, listing := GatherConflicts(store, c, target);
    var duplicate := FindDuplicate(conflicts, c, st);
    if duplicate.Some? {
      return Duplicate(duplicate.value.status, duplicate.value.id), listing;
    }
    reply := AdmitNew(store, c, target, conflicts, now, group, listing);
  }

  method AdmitNew(store: MemoryFiles, c: Record, target: Option<Record>, conflicts: seq<Record>, now: int, group: string,
                  ghost listing: seq<string>)
    returns (reply: Reply)
    requires store.Valid() && c.id != "" && Admitted(store.files, c, target)
    requires Names(conflicts) == AllConflicts(store.files, listing, c)
    requires forall r :: r in conflicts ==> r.id in store.files && store.files[r.id] == r
    modifies store
    ensures store.Valid()
    ensures reply == Stored(Resolved(old(store.files), listing, c, now, group).0.status)
    ensures store.Performed(old(store.files), old(store.written), StoreWrites(old(store.files), listing, c, now, group))
  {
    ghost var st := store.files;
    var saved;
    ghost var marks;
    saved, marks := ResolveConflicts(store, c, target, conflicts, now, group, listing);
    ghost var tail := GateTail(store.files[saved.id := saved], c.supersedes, saved, now);
    Persist(store, saved, target, now);
    ApplySplit(st, marks, [Write.Save(saved)] + tail);
    Associative(old(store.written), marks, [Write.Save(saved)] + tail);
    reply := Stored(saved.status);
  }
}
