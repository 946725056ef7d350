// Confirming a proposed memory (storage/memory_governance.py, lines 623-665).
module MemoryConfirm {
  import opened Prelude
  import opened MemoryGraph
  import opened MemoryLifecycle

  // The checks `_confirm_memory_locked` makes before its first write.
  function ConfirmRefusal(st: Store, ws: string, id: string): Option<string> {
    if id !in st || !Visible(ws, st[id]) then Some("not found")
    else
      var rec := st[id];
      var t := rec.supersedes;
      if !Undecided(rec) then Some("cannot confirm status")
      else if t != "" && (t !in st || !Visible(ws, st[t]) || t == id || !SameDomain(rec, st[t]))
        then Some("invalid_memory_revision_target")
      else if rec.retires then
        if t == "" then Some("invalid_memory_revision_target") else None
      else if t != "" && Superseded(st, t) then Some("memory_revision_stale")
      else None
  }

  function Confirmed(rec: Record, authority: string, now: int): Record {
    rec.(status := Active, updatedAt := now, authority := authority)
  }

  // Conflicting active memories of the same group, in listing order.
  function GroupExpiry(st: Store, listing: seq<string>, rec: Record): seq<Write> {
    if listing == [] then []
    else
      var last := listing[|listing| - 1];
      var before := GroupExpiry(st, listing[..|listing| - 1], rec);
      if last in st && st[last].group == rec.group && last != rec.id && st[last].status == Active
      then before + [Save(st[last].(status := Expired))] else before
  }

  // The writes after the first: clean-up, then the rest of the conflict group. `listing` is the order in
  // which the last directory scan returned the visible records.
  function ConfirmTail(st1: Store, id: string, now: int, listing: seq<string>): seq<Write>
    requires id in st1
  {
    var clean := RetireAll(st1, Ancestors(st1, st1[id]), id, now);
    clean + (if st1[id].group == "" then [] else GroupExpiry(ApplyAll(st1, clean), listing, st1[id]))
  }

  function ConfirmWrites(st: Store, ws: string, id: string, authority: string, now: int, listing: seq<string>): seq<Write> {
    if ConfirmRefusal(st, ws, id).Some? then []
    else
      var rec := st[id];
      if rec.retires then
        [Save(st[rec.supersedes].(status := Expired, updatedAt := now)),
         Save(rec.(status := Expired, updatedAt := now, authority := authority))]
      else
        var active := Confirmed(rec, authority, now);
        [Save(active)] + ConfirmTail(st[id := active], id, now, listing)
  }

  // Before: one revision chain has at most one retrievable record.
  lemma OneRetrievablePerChain(st: Store, now: int, id: string, a: string, b: string)
    requires WellFormed(st) && id in st
    requires a in Ancestors(st, st[id]) && b in Ancestors(st, st[id])
    requires Retrievable(st, now, a) && Retrievable(st, now, b)
    ensures a == b
  {
    var ids := Ancestors(st, st[id]);
    var i :| 0 <= i < |ids| && ids[i] == a;
    var j :| 0 <= j < |ids| && ids[j] == b;
    RetrievableIsShown(st, now, a);
    RetrievableIsShown(st, now, b);
    assert !ActiveOver(st, a, b) && !ActiveOver(st, b, a);
    if i < j {
      AncestorOrder(st, id, i, j);
    } else if j < i {
      AncestorOrder(st, id, j, i);
    }
  }

  // After the first write: the confirmed record is in force and the others only lose force.
  ghost predicate AfterConfirm(st1: Store, st': Store, id: string) {
    && WellFormed(st') && SameGraph(st1, st') && id in st'
    && st'[id] == st1[id] && st'[id].status == Active
    && forall x :: x in st1 && st'[x].status == Active ==> st1[x].status == Active
  }

  // What is out of force stays out of force.
  ghost predicate Quieter(a: Store, b: Store) {
    forall x :: x in a && a[x].status != Active ==> x in b && b[x].status != Active
  }

  lemma {:induction false} GroupExpiryAll(st1: Store, st: Store, listing: seq<string>, rec: Record)
    requires AfterConfirm(st1, st, rec.id)
    ensures AfterConfirm(st1, ApplyAll(st, GroupExpiry(st, listing, rec)), rec.id)
    ensures Quieter(st, ApplyAll(st, GroupExpiry(st, listing, rec)))
  {
    if listing != [] {
      var init, last := listing[..|listing| - 1], listing[|listing| - 1];
      GroupExpiryAll(st1, st, init, rec);
      if last in st && st[last].group == rec.group && last != rec.id && st[last].status == Active {
        ApplyLast(st, GroupExpiry(st, init, rec), Save(st[last].(status := Expired)));
        ExpiringKeeps(st1, ApplyAll(st, GroupExpiry(st, init, rec)), rec.id, st[last], Expired);
      }
    }
  }

  lemma {:induction false} GroupExpiryPrefix(st: Store, listing: seq<string>, rec: Record, k: nat) returns (j: nat)
    requires k <= |GroupExpiry(st, listing, rec)|
    ensures j <= |listing| && GroupExpiry(st, listing, rec)[..k] == GroupExpiry(st, listing[..j], rec)
  {
    if k == |GroupExpiry(st, listing, rec)| {
      j := |listing|;
      assert listing[..j] == listing;
    } else {
      var init := listing[..|listing| - 1];
      j := GroupExpiryPrefix(st, init, rec, k);
      assert listing[..j] == init[..j];
      assert GroupExpiry(st, listing, rec)[..k] == GroupExpiry(st, init, rec)[..k];
    }
  }

  lemma GroupExpiryKeeps(st1: Store, st: Store, listing: seq<string>, rec: Record, k: nat)
    requires AfterConfirm(st1, st, rec.id)
    requires k <= |GroupExpiry(st, listing, rec)|
    ensures AfterConfirm(st1, ApplyAll(st, GroupExpiry(st, listing, rec)[..k]), rec.id)
    ensures Quieter(st, ApplyAll(st, GroupExpiry(st, listing, rec)[..k]))
  {
    var j := GroupExpiryPrefix(st, listing, rec, k);
    GroupExpiryAll(st1, st, listing[..j], rec);
  }

  lemma ExpiringKeeps(st1: Store, st: Store, id: string, r: Record, status: Status)
    requires AfterConfirm(st1, st, id) && status != Active
    requires r.id in st && r.id != id && SameLinks(st1[r.id], r)
    ensures AfterConfirm(st1, st[r.id := r.(status := status)], id)
    ensures Quieter(st, st[r.id := r.(status := status)])
  {
  }

  lemma CleanUpKeeps(st1: Store, id: string, ids: seq<string>, now: int)
    requires WellFormed(st1) && id in st1 && st1[id].status == Active && id !in ids
    ensures AfterConfirm(st1, Retired(st1, ids, id, now), id)
    ensures forall x :: x in ids && x in st1 ==> Retired(st1, ids, id, now)[x].status != Active
  {
  }

  lemma CleanUpStates(st1: Store, id: string, ids: seq<string>, now: int, k: nat)
    requires WellFormed(st1) && id in st1 && st1[id].status == Active && ids == Ancestors(st1, st1[id])
    requires k <= |RetireAll(st1, ids, id, now)|
    ensures AfterConfirm(st1, ApplyAll(st1, RetireAll(st1, ids, id, now)[..k]), id)
    ensures (k > 0 || k == |RetireAll(st1, ids, id, now)|) && ids != [] ==>
              ApplyAll(st1, RetireAll(st1, ids, id, now)[..k])[ids[0]].status != Active
  {
    var clean := RetireAll(st1, ids, id, now);
    var j := RetireAllPrefix(st1, ids, id, now, k);
    CleanUpKeeps(st1, id, ids[..j], now);
    if k == |clean| {
      assert clean[..k] == clean;
      RetireAllResult(st1, ids, id, now);
      CleanUpKeeps(st1, id, ids, now);
    } else if k > 0 && ids != [] {
      assert j > 0;
      assert ids[..j][0] == ids[0];
    }
  }

  lemma CleanUpDone(st1: Store, id: string, ids: seq<string>, now: int)
    requires WellFormed(st1) && id in st1 && st1[id].status == Active && ids == Ancestors(st1, st1[id])
    ensures AfterConfirm(st1, ApplyAll(st1, RetireAll(st1, ids, id, now)), id)
    ensures ids != [] ==> ApplyAll(st1, RetireAll(st1, ids, id, now))[ids[0]].status != Active
  {
    RetireAllResult(st1, ids, id, now);
    CleanUpKeeps(st1, id, ids, now);
  }

  lemma TakeWithin<T>(a: seq<T>, b: seq<T>, k: nat)
    requires k <= |a|
    ensures (a + b)[..k] == a[..k]
  {
  }

  lemma TakePast<T>(a: seq<T>, b: seq<T>, k: nat)
    requires |a| <= k <= |a| + |b|
    ensures (a + b)[..k] == a + b[..k - |a|]
  {
  }

  lemma ConfirmTailStates(st1: Store, id: string, now: int, listing: seq<string>, k: nat)
    requires WellFormed(st1) && id in st1 && st1[id].status == Active
    requires k <= |ConfirmTail(st1, id, now, listing)|
    ensures AfterConfirm(st1, ApplyAll(st1, ConfirmTail(st1, id, now, listing)[..k]), id)
    ensures k > 0 && Ancestors(st1, st1[id]) != [] ==>
              ApplyAll(st1, ConfirmTail(st1, id, now, listing)[..k])[Ancestors(st1, st1[id])[0]].status != Active
  {
    var ids := Ancestors(st1, st1[id]);
    var clean := RetireAll(st1, ids, id, now);
    var rest := if st1[id].group == "" then [] else GroupExpiry(ApplyAll(st1, clean), listing, st1[id]);
    assert ConfirmTail(st1, id, now, listing) == clean + rest;
    if k <= |clean| {
      TakeWithin(clean, rest, k);
      CleanUpStates(st1, id, ids, now, k);
    } else {
      TakePast(clean, rest, k);
      ApplySplit(st1, clean, rest[..k - |clean|]);
      CleanUpDone(st1, id, ids, now);
      GroupExpiryKeeps(st1, ApplyAll(st1, clean), listing, st1[id], k - |clean|);
    }
  }

  lemma ConfirmShape(st: Store, ws: string, id: string, authority: string, t: int, listing: seq<string>)
    requires WellFormed(st) && ConfirmRefusal(st, ws, id).None? && !st[id].retires
    ensures id in st && st[id].id == id
    ensures var active := Confirmed(st[id], authority, t);
            && SameGraph(st, st[id := active])
            && Ancestors(st, st[id]) == Ancestors(st[id := active], active)
            && ConfirmWrites(st, ws, id, authority, t, listing) == [Save(active)] + ConfirmTail(st[id := active], id, t, listing)
  {
    var active := Confirmed(st[id], authority, t);
    SameGraphChain(st, st[id := active], st[id], active, st[id], active, {id});
  }

  // Every crash point after the first write.
  lemma ConfirmStates(st: Store, ws: string, id: string, authority: string, t: int, listing: seq<string>, k: nat)
    requires WellFormed(st) && ConfirmRefusal(st, ws, id).None? && !st[id].retires
    requires 0 < k <= |ConfirmWrites(st, ws, id, authority, t, listing)|
    ensures var st1 := st[id := Confirmed(st[id], authority, t)];
            var st' := ApplyAll(st, ConfirmWrites(st, ws, id, authority, t, listing)[..k]);
            && SameGraph(st, st1) && AfterConfirm(st1, st', id)
            && (k == 1 ==> st' == st1)
            && (k > 1 && Ancestors(st, st[id]) != [] ==> st'[Ancestors(st, st[id])[0]].status != Active)
  {
    ConfirmShape(st, ws, id, authority, t, listing);
    var first := Save(Confirmed(st[id], authority, t));
    var st1 := Apply(st, first);
    var tail := ConfirmTail(st1, id, t, listing);
    assert ([first] + tail)[..k] == [first] + tail[..k - 1];
    ApplyFirst(st, first, tail[..k - 1]);
    ConfirmTailStates(st1, id, t, listing, k - 1);
    assert tail[..0] == [];
  }

  // Whatever still hides the confirmed record is the record it takes over from, linked back to it.
  lemma HiddenOnlyByHeld(st: Store, st1: Store, st': Store, id: string, now: int, held: string)
    requires WellFormed(st) && id in st && SameGraph(st, st1) && AfterConfirm(st1, st', id)
    requires forall x :: x in st && x != id ==> st1[x] == st[x]
    requires held != id && Reaches(st, id, held) && Shown(st, now, held)
    requires Live(st1[id], now)
    ensures !Shown(st', now, id) ==> st'[held].status == Active && Reaches(st, held, id)
  {
    if !Shown(st', now, id) {
      var n :| ActiveOver(st', n, id);
      SameGraphReaches(st1, st', n, id);
      SameGraphReaches(st, st1, n, id);
      ReachesTransitive(st, n, id, held);
      assert !ActiveOver(st, n, held);
    }
  }

  // A record in force that leads back to the one being confirmed is its direct target, or confirming
  // is refused.
  lemma HeldIsTarget(st: Store, ws: string, id: string, held: string)
    requires WellFormed(st) && ConfirmRefusal(st, ws, id).None? && !st[id].retires
    requires Ancestors(st, st[id]) != [] && held in st && st[held].status == Active && Reaches(st, held, id)
    ensures held == Ancestors(st, st[id])[0]
  {
    var target := st[id].supersedes;
    assert Ancestors(st, st[id])[0] == target;
    assert Link(st, id) == Some(target);
    LinkReaches(st, id);
    ReachesTransitive(st, held, id, target);
    if ActiveOver(st, held, target) {
      SupersededIfActiveOver(st, held, target);
    }
  }

  // No overlap: from the first write on, no interruption point leaves an ancestor retrievable.
  lemma ConfirmNoOverlap(st: Store, ws: string, id: string, authority: string, t: int, now: int, listing: seq<string>, k: nat, x: string)
    requires WellFormed(st) && ConfirmRefusal(st, ws, id).None? && !st[id].retires
    requires 0 < k <= |ConfirmWrites(st, ws, id, authority, t, listing)|
    requires x in Ancestors(st, st[id])
    ensures !Retrievable(ApplyAll(st, ConfirmWrites(st, ws, id, authority, t, listing)[..k]), now, x)
  {
    var st1 := st[id := Confirmed(st[id], authority, t)];
    var st' := ApplyAll(st, ConfirmWrites(st, ws, id, authority, t, listing)[..k]);
    ConfirmStates(st, ws, id, authority, t, listing, k);
    AncestorsAreReachable(st, id, x);
    StillReplaced(st, st1, st', id, now, x);
    RetrievableIsShown(st', now, x);
  }

  lemma StillReplaced(st: Store, st1: Store, st': Store, id: string, now: int, x: string)
    requires SameGraph(st, st1) && AfterConfirm(st1, st', id)
    requires x != id && Reaches(st, id, x)
    ensures !Shown(st', now, x)
  {
    SameGraphReaches(st, st1, id, x);
    SameGraphReaches(st1, st', id, x);
    assert ActiveOver(st', id, x);
  }

  // No gap: the confirmed record takes over at the first write, unless the record it takes over
  // from leads back to it; in that one case it takes over at the second write.
  lemma ConfirmNoGap(st: Store, ws: string, id: string, authority: string, t: int, now: int, listing: seq<string>, held: string)
    requires WellFormed(st) && ConfirmRefusal(st, ws, id).None? && !st[id].retires
    requires held in Ancestors(st, st[id]) && Retrievable(st, now, held)
    requires Live(Confirmed(st[id], authority, t), now)
    ensures var writes := ConfirmWrites(st, ws, id, authority, t, listing);
            && |writes| > 1
            && (forall k: nat :: 1 < k <= |writes| ==> Retrievable(ApplyAll(st, writes[..k]), now, id))
            && (Retrievable(ApplyAll(st, writes[..1]), now, id) <==> !Reaches(st, held, id))
  {
    var writes := ConfirmWrites(st, ws, id, authority, t, listing);
    forall k: nat | 0 < k <= |writes|
      ensures Retrievable(ApplyAll(st, writes[..k]), now, id) <==> k > 1 || !Reaches(st, held, id)
    {
      RetrievableIsShown(st, now, held);
      ConfirmTakesOver(st, ws, id, authority, t, now, listing, held, k);
      RetrievableIsShown(ApplyAll(st, writes[..k]), now, id);
    }
    ConfirmRetiresHeld(st, ws, id, authority, t, listing, held);
  }

  lemma ConfirmTakesOver(st: Store, ws: string, id: string, authority: string, t: int, now: int, listing: seq<string>, held: string, k: nat)
    requires WellFormed(st) && ConfirmRefusal(st, ws, id).None? && !st[id].retires
    requires held in Ancestors(st, st[id]) && Shown(st, now, held)
    requires Live(Confirmed(st[id], authority, t), now)
    requires 0 < k <= |ConfirmWrites(st, ws, id, authority, t, listing)|
    ensures var st' := ApplyAll(st, ConfirmWrites(st, ws, id, authority, t, listing)[..k]);
            WellFormed(st') && (Shown(st', now, id) <==> k > 1 || !Reaches(st, held, id))
  {
    var st1 := st[id := Confirmed(st[id], authority, t)];
    var st' := ApplyAll(st, ConfirmWrites(st, ws, id, authority, t, listing)[..k]);
    ConfirmStates(st, ws, id, authority, t, listing, k);
    AncestorsAreReachable(st, id, held);
    HiddenOnlyByHeld(st, st1, st', id, now, held);
    if Reaches(st, held, id) {
      HeldIsTarget(st, ws, id, held);
      SameGraphReaches(st, st1, held, id);
      assert ActiveOver(st1, held, id);
    }
  }

  lemma ConfirmRetiresHeld(st: Store, ws: string, id: string, authority: string, t: int, listing: seq<string>, held: string)
    requires WellFormed(st) && ConfirmRefusal(st, ws, id).None? && !st[id].retires
    requires held in Ancestors(st, st[id]) && st[held].status == Active
    ensures |ConfirmWrites(st, ws, id, authority, t, listing)| > 1
  {
    var active := Confirmed(st[id], authority, t);
    var st1 := st[id := active];
    SameGraphChain(st, st1, st[id], active, st[id], active, {id});
    var ids := Ancestors(st1, active);
    RetireAllResult(st1, ids, id, t);
    assert Retired(st1, ids, id, t)[held] != st1[held];
  }
}
