// Coding records under revision compare-and-swap, whatever the updaters return
// (storage/coding_state_store.py, lines 12-98).
module CodingRecords {
  import opened Prelude

  datatype Json = Null | Flag(flag: bool) | Number(n: int) | Str(text: string) | Arr(items: seq<Json>) | Obj(fields: map<string, Json>)

  type Record = map<string, Json>

  datatype Kind = Candidates | Reviews | Projects

  datatype Slot = Slot(kind: Kind, id: string)

  // `deleted` holds the tombstones of sessions.
  datatype World = World(records: map<Slot, Record>, deleted: set<string>)

  function Get(r: Record, key: string): Json {
    if key in r then r[key] else Null
  }

  // The keys every record keeps, then those of its kind.
  const COMMON: seq<string> := ["schema", "id", "workspace_id", "session_id", "parent_task_id"]

  function Immutable(kind: Kind): seq<string> {
    match kind
    case Candidates => ["producer_task_id", "project_dir", "branch_workspace", "source_digest", "baseline", "change", "validation",
                        "resources", "responsibilities", "generated_paths", "validation_commands", "revision_of",
                        "required_review_kinds", "failure_attributions"]
    case Reviews => ["reviewer_task_id", "candidate_id", "candidate_digest", "change_digest", "kind", "review_round",
                     "branch_workspace", "project_dir", "baseline", "validation_commands", "generated_paths"]
    case Projects => ["project_dir"]
  }

  // What a candidate may still fill in while it is being built.
  const SEALING: seq<string> := ["source_digest", "change", "validation", "resources", "failure_attributions"]

  // What a finished review may never change.
  const VERDICT: seq<string> := ["state", "judgement", "validation", "resources", "outcome", "final_report",
                                 "invalid_proposal", "failure_attributions"]

  predicate Building(kind: Kind, r: Record) {
    kind == Candidates && Get(r, "state") == Str("building")
  }

  predicate Finished(kind: Kind, r: Record) {
    kind == Reviews && Get(r, "state") in {Str("completed"), Str("interrupted"), Str("execution_unknown")}
  }

  predicate Same(a: Record, b: Record, keys: seq<string>) {
    forall i :: 0 <= i < |keys| ==> Get(a, keys[i]) == Get(b, keys[i])
  }

  // A key that a record being built may still change.
  predicate Sealing(kind: Kind, a: Record, key: string) {
    Building(kind, a) && key in SEALING
  }

  predicate SameUnlessSealing(kind: Kind, a: Record, b: Record, keys: seq<string>) {
    forall i :: 0 <= i < |keys| && !Sealing(kind, a, keys[i]) ==> Get(a, keys[i]) == Get(b, keys[i])
  }

  predicate KeepsIdentity(kind: Kind, a: Record, b: Record) {
    SameUnlessSealing(kind, a, b, COMMON + Immutable(kind))
  }

  function Revision(w: World, slot: Slot): int {
    if slot in w.records && Get(w.records[slot], "revision").Number? then Get(w.records[slot], "revision").n else 0
  }

  function Previous(w: World, slot: Slot): Record {
    if slot in w.records then w.records[slot] else map[]
  }

  // What `mutate` makes of an updater's result: the record to store, or the error.
  function Mutate(w: World, ws: string, slot: Slot, expected: Option<int>, scope: string, outcome: Result<Record, string>)
    : Result<Record, string>
  {
    var previous := Previous(w, slot);
    if expected.Some? && Revision(w, slot) != expected.value then Err("coding_record_revision_conflict")
    else if outcome.Err? then Err(outcome.error)
    else
      var result := outcome.value;
      if Get(result, "session_id") != Str(scope) || scope in w.deleted then Err("coding_session_deleted")
      else if slot in w.records && result == previous then Ok(previous)
      else if Get(result, "workspace_id") != Str(ws) || Get(result, "id") != Str(slot.id) then Err("coding_record_identity_mismatch")
      else if previous != map[] && !KeepsIdentity(slot.kind, previous, result) then Err("coding_record_identity_is_immutable")
      else if previous != map[] && Finished(slot.kind, previous) && !Same(previous, result, VERDICT)
        then Err("coding_completed_review_is_immutable")
      else Ok(result["revision" := Number(Revision(w, slot) + 1)])
  }

  // `change`
  function Change(w: World, ws: string, slot: Slot, expected: Option<int>, scope: string, outcome: Result<Record, string>)
    : Result<Record, string>
  {
    if scope == "" then Err("coding_record_session_required")
    else if scope in w.deleted then Err("coding_session_deleted")
    else Mutate(w, ws, slot, expected, scope, outcome)
  }

  predicate Owned(r: Record, session: string) {
    Get(r, "session_id") == Str(session)
  }

  datatype Event =
    | Update(slot: Slot, expected: Option<int>, scope: string, outcome: Result<Record, string>)
    | Tombstone(session: string)
    | Purge(session: string)

  function Do(w: World, ws: string, e: Event): World {
    match e
    case Update(slot, expected, scope, outcome) =>
      var r := Change(w, ws, slot, expected, scope, outcome);
      if r.Ok? then w.(records := w.records[slot := r.value]) else w
    case Tombstone(session) => w.(deleted := w.deleted + {session})
    case Purge(session) =>
      if session !in w.deleted then w
      else w.(records := map slot | slot in w.records && !Owned(w.records[slot], session) :: w.records[slot])
  }

  function DoAll(w: World, ws: string, es: seq<Event>): World {
    if es == [] then w else Do(DoAll(w, ws, es[..|es| - 1]), ws, es[|es| - 1])
  }

  // ---- One step ----

  // An update of the record that changed it.
  predicate Effective(w: World, ws: string, e: Event, slot: Slot) {
    e.Update? && e.slot == slot && Do(w, ws, e).records != w.records
  }

  ghost predicate Sane(w: World) {
    forall slot :: slot in w.records ==> Get(w.records[slot], "revision").Number? && w.records[slot] != map[]
  }

  lemma UpdateIsSane(w: World, ws: string, e: Event)
    requires Sane(w)
    ensures Sane(Do(w, ws, e))
  {
  }

  lemma UnchangedRecords<K, V>(m: map<K, V>, k: K)
    requires k in m
    ensures m[k := m[k]] == m
  {
  }

  // The revision goes up by exactly one with each effective change, and by nothing else.
  lemma RevisionStep(w: World, ws: string, e: Event, slot: Slot)
    requires Sane(w) && (slot in w.records ==> slot in Do(w, ws, e).records)
    ensures Revision(Do(w, ws, e), slot) == Revision(w, slot) + if Effective(w, ws, e, slot) then 1 else 0
  {
    if e.Update? {
      var r := Change(w, ws, e.slot, e.expected, e.scope, e.outcome);
      if r.Ok? && e.slot in w.records && r.value == w.records[e.slot] {
        UnchangedRecords(w.records, e.slot);
      }
    }
  }

  // Only an updater that saw the expected revision takes effect.
  lemma EffectiveSawExpected(w: World, ws: string, e: Event, slot: Slot)
    requires Effective(w, ws, e, slot)
    ensures e.expected.Some? ==> e.expected.value == Revision(w, slot)
    ensures e.scope !in w.deleted && e.scope != "" && Owned(Do(w, ws, e).records[slot], e.scope)
  {
  }

  lemma IdentityStep(w: World, ws: string, e: Event, slot: Slot)
    requires Sane(w) && slot in w.records && slot in Do(w, ws, e).records
    ensures KeepsIdentity(slot.kind, w.records[slot], Do(w, ws, e).records[slot])
    ensures Finished(slot.kind, w.records[slot]) ==> Same(w.records[slot], Do(w, ws, e).records[slot], VERDICT)
  {
    if e.Update? && e.slot == slot {
      var r := Change(w, ws, slot, e.expected, e.scope, e.outcome);
      if r.Ok? && r.value != w.records[slot] {
        RevisionIsNoIdentity(slot.kind, w.records[slot], e.outcome.value, Number(Revision(w, slot) + 1));
      }
    }
  }

  // The key the store itself sets is none of the protected ones.
  lemma RevisionIsNoIdentity(kind: Kind, a: Record, b: Record, n: Json)
    ensures KeepsIdentity(kind, a, b) ==> KeepsIdentity(kind, a, b["revision" := n])
    ensures Same(a, b, VERDICT) ==> Same(a, b["revision" := n], VERDICT)
  {
    RevisionNotListed(kind);
  }

  lemma RevisionNotListed(kind: Kind)
    ensures "revision" !in COMMON + Immutable(kind) && "revision" !in VERDICT
  {
  }

  // ---- Whole runs ----

  // The record is not removed along the way.
  ghost predicate Stays(w: World, ws: string, es: seq<Event>, slot: Slot) {
    es == [] || (Stays(w, ws, es[..|es| - 1], slot)
                 && (slot in DoAll(w, ws, es[..|es| - 1]).records ==> slot in DoAll(w, ws, es).records))
  }

  function EffectiveCount(w: World, ws: string, es: seq<Event>, slot: Slot): nat {
    if es == [] then 0
    else EffectiveCount(w, ws, es[..|es| - 1], slot)
         + if Effective(DoAll(w, ws, es[..|es| - 1]), ws, es[|es| - 1], slot) then 1 else 0
  }

  lemma {:induction false} SaneAlways(w: World, ws: string, es: seq<Event>)
    requires Sane(w)
    ensures Sane(DoAll(w, ws, es))
  {
    if es != [] {
      SaneAlways(w, ws, es[..|es| - 1]);
      UpdateIsSane(DoAll(w, ws, es[..|es| - 1]), ws, es[|es| - 1]);
    }
  }

  // A record's revision counts its effective changes.
  lemma {:induction false} RevisionCountsChanges(w: World, ws: string, es: seq<Event>, slot: Slot)
    requires Sane(w) && Stays(w, ws, es, slot)
    ensures Revision(DoAll(w, ws, es), slot) == Revision(w, slot) + EffectiveCount(w, ws, es, slot)
  {
    if es != [] {
      RevisionCountsChanges(w, ws, es[..|es| - 1], slot);
      SaneAlways(w, ws, es[..|es| - 1]);
      RevisionStep(DoAll(w, ws, es[..|es| - 1]), ws, es[|es| - 1], slot);
    }
  }

  lemma {:induction false} StaysPrefix(w: World, ws: string, es: seq<Event>, slot: Slot, k: nat)
    requires Stays(w, ws, es, slot) && k <= |es|
    ensures Stays(w, ws, es[..k], slot)
    ensures k < |es| ==> DoAll(w, ws, es[..k + 1]) == Do(DoAll(w, ws, es[..k]), ws, es[k])
    ensures k < |es| ==> (slot in DoAll(w, ws, es[..k]).records ==> slot in DoAll(w, ws, es[..k + 1]).records)
  {
    if k < |es| {
      assert es[..k + 1][..k] == es[..k] && es[..k + 1][k] == es[k];
    }
    if k == |es| {
      assert es[..k] == es;
    } else if k < |es| - 1 {
      var init := es[..|es| - 1];
      assert init[..k] == es[..k] && init[..k + 1] == es[..k + 1];
      StaysPrefix(w, ws, init, slot, k);
    } else {
      assert es[..k + 1] == es;
    }
  }

  lemma {:induction false} RevisionGrows(w: World, ws: string, es: seq<Event>, slot: Slot, a: nat, b: nat)
    requires Sane(w) && Stays(w, ws, es, slot) && a <= b <= |es|
    ensures Revision(DoAll(w, ws, es[..a]), slot) <= Revision(DoAll(w, ws, es[..b]), slot)
    decreases b - a
  {
    if a < b {
      RevisionGrows(w, ws, es, slot, a, b - 1);
      StaysPrefix(w, ws, es, slot, b - 1);
      SaneAlways(w, ws, es[..b - 1]);
      RevisionStep(DoAll(w, ws, es[..b - 1]), ws, es[b - 1], slot);
    }
  }

  // Of all updates that expect one revision of a record, at most one takes effect.
  lemma OneWinnerPerRevision(w: World, ws: string, es: seq<Event>, slot: Slot, i: nat, j: nat)
    requires Sane(w) && Stays(w, ws, es, slot) && i < j < |es|
    requires Effective(DoAll(w, ws, es[..i]), ws, es[i], slot) && Effective(DoAll(w, ws, es[..j]), ws, es[j], slot)
    requires es[i].expected.Some? && es[j].expected.Some?
    ensures es[i].expected.value < es[j].expected.value
  {
    EffectiveSawExpected(DoAll(w, ws, es[..i]), ws, es[i], slot);
    EffectiveSawExpected(DoAll(w, ws, es[..j]), ws, es[j], slot);
    StaysPrefix(w, ws, es, slot, i);
    SaneAlways(w, ws, es[..i]);
    RevisionStep(DoAll(w, ws, es[..i]), ws, es[i], slot);
    RevisionGrows(w, ws, es, slot, i + 1, j);
  }

  // Keys that no change may touch, at any stage.
  predicate Fixed(kind: Kind, key: string) {
    key in COMMON + Immutable(kind) && !(kind == Candidates && key in SEALING)
  }

  lemma UnsealedKept(kind: Kind, a: Record, b: Record, key: string)
    requires KeepsIdentity(kind, a, b) && !Sealing(kind, a, key) && key in COMMON + Immutable(kind)
    ensures Get(a, key) == Get(b, key)
  {
    var keys := COMMON + Immutable(kind);
    var i :| 0 <= i < |keys| && keys[i] == key;
  }

  // Identity never changes while the record exists.
  lemma {:induction false} IdentityNeverChanges(w: World, ws: string, es: seq<Event>, slot: Slot, key: string)
    requires Sane(w) && Stays(w, ws, es, slot) && slot in w.records && Fixed(slot.kind, key)
    ensures slot in DoAll(w, ws, es).records && Get(DoAll(w, ws, es).records[slot], key) == Get(w.records[slot], key)
  {
    if es != [] {
      IdentityNeverChanges(w, ws, es[..|es| - 1], slot, key);
      var before := DoAll(w, ws, es[..|es| - 1]);
      SaneAlways(w, ws, es[..|es| - 1]);
      IdentityStep(before, ws, es[|es| - 1], slot);
      UnsealedKept(slot.kind, before.records[slot], DoAll(w, ws, es).records[slot], key);
    }
  }

  // The record is there and not being built, at every point before the end.
  ghost predicate NeverBuilding(w: World, ws: string, es: seq<Event>, slot: Slot) {
    es == [] ||
    (var before := DoAll(w, ws, es[..|es| - 1]);
     && NeverBuilding(w, ws, es[..|es| - 1], slot)
     && slot in before.records && !Building(slot.kind, before.records[slot]))
  }

  // Once sealed, every identity field keeps its value for as long as the record is not set back to building.
  lemma {:induction false} SealedNeverChange(w: World, ws: string, es: seq<Event>, slot: Slot, key: string)
    requires Sane(w) && Stays(w, ws, es, slot) && slot in w.records && key in COMMON + Immutable(slot.kind)
    requires NeverBuilding(w, ws, es, slot)
    ensures slot in DoAll(w, ws, es).records && Get(DoAll(w, ws, es).records[slot], key) == Get(w.records[slot], key)
  {
    if es != [] {
      SealedNeverChange(w, ws, es[..|es| - 1], slot, key);
      var before := DoAll(w, ws, es[..|es| - 1]);
      SaneAlways(w, ws, es[..|es| - 1]);
      IdentityStep(before, ws, es[|es| - 1], slot);
      UnsealedKept(slot.kind, before.records[slot], DoAll(w, ws, es).records[slot], key);
    }
  }

  // ---- Exactly which fields can change ----

  // What an update that reopens a candidate, and one that fills in a field of it, hand in.
  function Reopening(r: Record): Record {
    r["state" := Str("building")]
  }

  function FilledIn(r: Record, key: string, value: Json): Record {
    r[key := value]
  }

  // The keys by which the store knows a record.
  const ADDRESS: set<string> := {"session_id", "workspace_id", "id", "revision"}

  predicate SameAddress(a: Record, b: Record) {
    forall k :: k in ADDRESS ==> Get(a, k) == Get(b, k)
  }

  lemma ReopeningKeeps(r: Record)
    ensures KeepsIdentity(Candidates, r, Reopening(r)) && Building(Candidates, Reopening(r)) && SameAddress(r, Reopening(r))
  {
    StateNotListed();
  }

  lemma StateNotListed()
    ensures "state" !in COMMON + Immutable(Candidates)
  {
  }

  lemma SealingElsewhere(key: string)
    requires key in SEALING
    ensures key !in ADDRESS && key != "state"
  {
  }

  lemma FilledInKeeps(r: Record, key: string, value: Json)
    requires Building(Candidates, r) && key in SEALING
    ensures KeepsIdentity(Candidates, r, FilledIn(r, key, value)) && SameAddress(r, FilledIn(r, key, value))
  {
    SealingElsewhere(key);
  }

  // A record of this workspace and session, which still exists.
  predicate Ours(w: World, ws: string, slot: Slot, scope: string) {
    && slot in w.records && w.records[slot] != map[] && Get(w.records[slot], "revision").Number?
    && scope != "" && scope !in w.deleted && Owned(w.records[slot], scope)
    && Get(w.records[slot], "workspace_id") == Str(ws) && Get(w.records[slot], "id") == Str(slot.id)
  }

  // An update of a candidate that changes it and keeps its identity is accepted.
  lemma Accepted(w: World, ws: string, slot: Slot, scope: string, r: Record)
    requires Ours(w, ws, slot, scope) && slot.kind == Candidates && r != w.records[slot] && r != map[]
    requires KeepsIdentity(Candidates, w.records[slot], r) && SameAddress(w.records[slot], r)
    ensures var w' := Do(w, ws, Update(slot, None, scope, Ok(r)));
            && slot in w'.records && w'.records[slot] == r["revision" := Number(Revision(w, slot) + 1)] && w'.deleted == w.deleted
            && Ours(w', ws, slot, scope)
  {
    assert Get(r, "session_id") == Get(w.records[slot], "session_id");
    assert Get(r, "workspace_id") == Get(w.records[slot], "workspace_id");
    assert Get(r, "id") == Get(w.records[slot], "id");
  }

  lemma Stored(r: Record, key: string, n: Json)
    requires key != "revision"
    ensures Get(r["revision" := n], key) == Get(r, key)
  {
  }

  // A candidate being built takes any other value of a field still to be sealed.
  lemma FillsIn(w: World, ws: string, slot: Slot, scope: string, key: string, value: Json) returns (e: Event)
    requires Ours(w, ws, slot, scope) && Sealing(slot.kind, w.records[slot], key) && value != Get(w.records[slot], key)
    ensures slot in Do(w, ws, e).records && Get(Do(w, ws, e).records[slot], key) == value
  {
    var r := FilledIn(w.records[slot], key, value);
    assert Get(r, key) == value;
    FilledInKeeps(w.records[slot], key, value);
    SealingElsewhere(key);
    Accepted(w, ws, slot, scope, r);
    Stored(r, key, Number(Revision(w, slot) + 1));
    e := Update(slot, None, scope, Ok(r));
  }

  // A sealed candidate can be set back to building, nothing else changing.
  lemma Reopens(w: World, ws: string, slot: Slot, scope: string, key: string) returns (e: Event)
    requires Ours(w, ws, slot, scope) && slot.kind == Candidates && !Building(Candidates, w.records[slot]) && key in SEALING
    ensures var w' := Do(w, ws, e);
            && Ours(w', ws, slot, scope) && Sealing(slot.kind, w'.records[slot], key)
            && Get(w'.records[slot], key) == Get(w.records[slot], key)
  {
    var r := Reopening(w.records[slot]);
    ReopeningKeeps(w.records[slot]);
    SealingElsewhere(key);
    assert Get(r, key) == Get(w.records[slot], key);
    Accepted(w, ws, slot, scope, r);
    Stored(r, key, Number(Revision(w, slot) + 1));
    Stored(r, "state", Number(Revision(w, slot) + 1));
    e := Update(slot, None, scope, Ok(r));
  }

  lemma OneStays(w: World, ws: string, e: Event, slot: Slot)
    requires slot in Do(w, ws, e).records
    ensures DoAll(w, ws, [e]) == Do(w, ws, e) && Stays(w, ws, [e], slot)
  {
    assert [e][..0] == [];
  }

  lemma TwoStay(w: World, ws: string, a: Event, b: Event, slot: Slot)
    requires slot in Do(w, ws, a).records && slot in Do(Do(w, ws, a), ws, b).records
    ensures DoAll(w, ws, [a, b]) == Do(Do(w, ws, a), ws, b) && Stays(w, ws, [a, b], slot)
  {
    OneStays(w, ws, a, slot);
    assert [a, b][..1] == [a];
  }

  // Any candidate takes any other value of any field that is sealed: by one update while it is being built, and
  // by two otherwise, the first of which sets it back to building.
  lemma ReopenedCandidateChanges(w: World, ws: string, slot: Slot, scope: string, key: string, value: Json) returns (es: seq<Event>)
    requires Ours(w, ws, slot, scope) && slot.kind == Candidates && key in SEALING && value != Get(w.records[slot], key)
    ensures |es| == (if Building(Candidates, w.records[slot]) then 1 else 2) && Stays(w, ws, es, slot)
    ensures slot in DoAll(w, ws, es).records && Get(DoAll(w, ws, es).records[slot], key) == value
  {
    if Building(Candidates, w.records[slot]) {
      var e := FillsIn(w, ws, slot, scope, key, value);
      OneStays(w, ws, e, slot);
      es := [e];
    } else {
      var a := Reopens(w, ws, slot, scope, key);
      var b := FillsIn(Do(w, ws, a), ws, slot, scope, key, value);
      TwoStay(w, ws, a, b, slot);
      es := [a, b];
    }
  }

  function Other(value: Json): (other: Json)
    ensures other != value
  {
    if value == Null then Flag(true) else Null
  }

  // The record, if it is there, has the value it had.
  predicate Unchanged(w: World, w': World, slot: Slot, key: string) {
    slot in w.records && slot in w'.records ==> Get(w'.records[slot], key) == Get(w.records[slot], key)
  }

  // One update by anyone leaves an identity field alone exactly if the record is not being built or the field is
  // none of those filled in meanwhile.
  lemma OneUpdateExactly(w: World, ws: string, slot: Slot, scope: string, key: string)
    requires Sane(w) && Ours(w, ws, slot, scope) && key in COMMON + Immutable(slot.kind)
    ensures (forall e: Event :: Unchanged(w, Do(w, ws, e), slot, key)) <==> !Sealing(slot.kind, w.records[slot], key)
  {
    if Sealing(slot.kind, w.records[slot], key) {
      var e := FillsIn(w, ws, slot, scope, key, Other(Get(w.records[slot], key)));
      assert !Unchanged(w, Do(w, ws, e), slot, key);
    } else {
      forall e: Event ensures Unchanged(w, Do(w, ws, e), slot, key) {
        if slot in Do(w, ws, e).records {
          IdentityStep(w, ws, e, slot);
          UnsealedKept(slot.kind, w.records[slot], Do(w, ws, e).records[slot], key);
        }
      }
    }
  }

  // Every run in which the record stays leaves an identity field alone exactly if the field is never sealed.
  lemma IdentityChangesExactly(w: World, ws: string, slot: Slot, scope: string, key: string)
    requires Sane(w) && Ours(w, ws, slot, scope) && key in COMMON + Immutable(slot.kind)
    ensures (forall es :: Stays(w, ws, es, slot) ==> Unchanged(w, DoAll(w, ws, es), slot, key)) <==> Fixed(slot.kind, key)
  {
    if Fixed(slot.kind, key) {
      forall es | Stays(w, ws, es, slot) ensures Unchanged(w, DoAll(w, ws, es), slot, key) {
        IdentityNeverChanges(w, ws, es, slot, key);
      }
    } else {
      var es := ReopenedCandidateChanges(w, ws, slot, scope, key, Other(Get(w.records[slot], key)));
      assert Stays(w, ws, es, slot) && !Unchanged(w, DoAll(w, ws, es), slot, key);
    }
  }

  lemma FinishedStays(kind: Kind, a: Record, b: Record)
    requires Finished(kind, a) && Same(a, b, VERDICT)
    ensures Finished(kind, b)
  {
    assert VERDICT[0] == "state";
  }

  // A finished review keeps its state and verdict for ever.
  lemma {:induction false} VerdictFrozen(w: World, ws: string, es: seq<Event>, slot: Slot)
    requires Sane(w) && Stays(w, ws, es, slot) && slot in w.records && Finished(slot.kind, w.records[slot])
    ensures slot in DoAll(w, ws, es).records
    ensures Finished(slot.kind, DoAll(w, ws, es).records[slot]) && Same(w.records[slot], DoAll(w, ws, es).records[slot], VERDICT)
  {
    if es != [] {
      VerdictFrozen(w, ws, es[..|es| - 1], slot);
      var before := DoAll(w, ws, es[..|es| - 1]);
      SaneAlways(w, ws, es[..|es| - 1]);
      IdentityStep(before, ws, es[|es| - 1], slot);
      FinishedStays(slot.kind, before.records[slot], DoAll(w, ws, es).records[slot]);
      SameTransitive(w.records[slot], before.records[slot], DoAll(w, ws, es).records[slot], VERDICT);
    }
  }

  lemma SameTransitive(a: Record, b: Record, c: Record, keys: seq<string>)
    requires Same(a, b, keys) && Same(b, c, keys)
    ensures Same(a, c, keys)
  {
  }

  lemma TombstoneStep(w: World, ws: string, e: Event, session: string, slot: Slot)
    requires Sane(w) && session in w.deleted
    ensures session in Do(w, ws, e).deleted
    ensures var w' := Do(w, ws, e);
            slot in w'.records && Owned(w'.records[slot], session) ==> slot in w.records && w'.records[slot] == w.records[slot]
  {
    var w' := Do(w, ws, e);
    if e.Update? && slot in w'.records && Owned(w'.records[slot], session) {
      if Effective(w, ws, e, slot) {
        EffectiveSawExpected(w, ws, e, slot);
      } else if e.slot == slot && slot in w.records {
        SameRecords(w.records, w'.records, slot);
      }
    }
  }

  lemma SameRecords<K, V>(a: map<K, V>, b: map<K, V>, k: K)
    requires a == b && k in a
    ensures b[k] == a[k]
  {
  }

  // After a session's tombstone its records are only ever removed: none is changed, none appears.
  lemma {:induction false} NothingAfterTombstone(w: World, ws: string, es: seq<Event>, session: string, slot: Slot)
    requires Sane(w) && session in w.deleted
    ensures session in DoAll(w, ws, es).deleted
    ensures var w' := DoAll(w, ws, es);
            slot in w'.records && Owned(w'.records[slot], session) ==> slot in w.records && w'.records[slot] == w.records[slot]
  {
    if es != [] {
      NothingAfterTombstone(w, ws, es[..|es| - 1], session, slot);
      SaneAlways(w, ws, es[..|es| - 1]);
      TombstoneStep(DoAll(w, ws, es[..|es| - 1]), ws, es[|es| - 1], session, slot);
    }
  }

  // And every update in its name is refused.
  lemma RefusedAfterTombstone(w: World, ws: string, slot: Slot, expected: Option<int>, scope: string, outcome: Result<Record, string>)
    requires scope in w.deleted
    ensures Change(w, ws, slot, expected, scope, outcome).Err?
    ensures Do(w, ws, Update(slot, expected, scope, outcome)) == w
  {
  }

  // ---- As the store changes it ----

  class CodingStore {
    var records: map<Slot, Record>
    var deleted: set<string>

    ghost function Now(): World
      reads this
    {
      World(records, deleted)
    }

    // The checks of `mutate` on an existing record, one key at a time.
    method CheckIdentity(kind: Kind, previous: Record, result: Record) returns (ok: bool)
      ensures ok == KeepsIdentity(kind, previous, result)
    {
      var keys := COMMON + Immutable(kind);
      for i := 0 to |keys|
        invariant forall k :: 0 <= k < i && !Sealing(kind, previous, keys[k]) ==> Get(previous, keys[k]) == Get(result, keys[k])
      {
        if !Sealing(kind, previous, keys[i]) && Get(previous, keys[i]) != Get(result, keys[i]) {
          return false;
        }
      }
      ok := true;
    }

    method CheckVerdict(previous: Record, result: Record) returns (ok: bool)
      ensures ok == Same(previous, result, VERDICT)
    {
      for i := 0 to |VERDICT|
        invariant forall k :: 0 <= k < i ==> Get(previous, VERDICT[k]) == Get(result, VERDICT[k])
      {
        if Get(previous, VERDICT[i]) != Get(result, VERDICT[i]) {
          return false;
        }
      }
      ok := true;
    }

    // `change`, on what the updater returned for the record as it is.
    method ChangeRecord(ws: string, slot: Slot, expected: Option<int>, scope: string, outcome: Result<Record, string>)
      returns (reply: Result<Record, string>)
      modifies this`records
      ensures reply == Change(old(Now()), ws, slot, expected, scope, outcome)
      ensures Now() == Do(old(Now()), ws, Update(slot, expected, scope, outcome))
    {
      if scope == "" {
        return Err("coding_record_session_required");
      }
      if scope in deleted {
        return Err("coding_session_deleted");
      }
      var previous := if slot in records then records[slot] else map[];
      var stored := Get(previous, "revision");
      var revision := if stored.Number? then stored.n else 0;
      if expected.Some? && revision != expected.value {
        return Err("coding_record_revision_conflict");
      }
      if outcome.Err? {
        return Err(outcome.error);
      }
      var result := outcome.value;
      if Get(result, "session_id") != Str(scope) {
        return Err("coding_session_deleted");
      }
      if slot in records && result == previous {
        UnchangedRecords(records, slot);
        return Ok(previous);
      }
      if Get(result, "workspace_id") != Str(ws) || Get(result, "id") != Str(slot.id) {
        return Err("coding_record_identity_mismatch");
      }
      if previous != map[] {
        var kept := CheckIdentity(slot.kind, previous, result);
        if !kept {
          return Err("coding_record_identity_is_immutable");
        }
        if Finished(slot.kind, previous) {
          kept := CheckVerdict(previous, result);
          if !kept {
            return Err("coding_completed_review_is_immutable");
          }
        }
      }
      result := result["revision" := Number(revision + 1)];
      records := records[slot := result];
      reply := Ok(result);
    }

    // `delete_session_records`, over a directory listing.
    method DeleteSessionRecords(session: string, listing: seq<Slot>) returns (ok: bool)
      requires forall slot :: slot in listing <==> slot in records
      modifies this`records
      ensures ok == (session in deleted) && Now() == Do(old(Now()), "", Purge(session))
    {
      if session !in deleted {
        return false;
      }
      ghost var before := records;
      for i := 0 to |listing|
        invariant forall slot :: slot in records ==> slot in before && records[slot] == before[slot]
        invariant forall slot :: slot in before ==> slot in records || Owned(before[slot], session)
        invariant forall k :: 0 <= k < i ==> listing[k] in records ==> !Owned(before[listing[k]], session)
      {
        if listing[i] in records && Get(records[listing[i]], "session_id") == Str(session) {
          records := records - {listing[i]};
        }
      }
      assert forall slot :: slot in records ==> slot in listing;
      ok := true;
    }
  }
}
