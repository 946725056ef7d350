// Retiring, deleting and confirming memories as sequences of single-file writes
// (storage/memory_governance.py, lines 277-299 and 623-704).
//
// Each operation is given as the exact list of writes it performs on the files it finds.
// An interrupted operation is a prefix of that list.
module MemoryLifecycle {
  import opened Prelude
  import opened MemoryGraph

  datatype Write = Save(record: Record) | Unlink(id: string)

  function Apply(st: Store, w: Write): Store {
    match w
    case Save(r) => st[r.id := r]
    case Unlink(id) => st - {id}
  }

  function ApplyAll(st: Store, ws: seq<Write>): Store {
    if ws == [] then st else Apply(ApplyAll(st, ws[..|ws| - 1]), ws[|ws| - 1])
  }

  lemma {:induction false} ApplySplit(st: Store, a: seq<Write>, b: seq<Write>)
    ensures ApplyAll(st, a + b) == ApplyAll(ApplyAll(st, a), b)
  {
    if b == [] {
      assert a + b == a;
    } else {
      assert (a + b)[..|a + b| - 1] == a + b[..|b| - 1];
      ApplySplit(st, a, b[..|b| - 1]);
    }
  }

  lemma ApplyFirst(st: Store, w: Write, rest: seq<Write>)
    ensures ApplyAll(st, [w] + rest) == ApplyAll(Apply(st, w), rest)
  {
    ApplySplit(st, [w], rest);
    assert [w][..0] == [];
  }

  lemma ApplyLast(st: Store, ws: seq<Write>, w: Write)
    ensures ApplyAll(st, ws + [w]) == Apply(ApplyAll(st, ws), w)
  {
    assert (ws + [w])[..|ws|] == ws;
  }

  // ---- Expiring what a record revises ----

  function Retire(r: Record, heir: string, now: int): Record {
    r.(status := Expired, updatedAt := now, supersededBy := heir)
  }

  // `_retire_revision_ancestors`: the active ones among `ids`, in order.
  function RetireAll(st: Store, ids: seq<string>, heir: string, now: int): seq<Write>
    requires forall x :: x in ids ==> x in st
  {
    if ids == [] then []
    else
      var last := ids[|ids| - 1];
      RetireAll(st, ids[..|ids| - 1], heir, now)
      + (if st[last].status == Active then [Save(Retire(st[last], heir, now))] else [])
  }

  function Retired(st: Store, ids: seq<string>, heir: string, now: int): Store {
    map id | id in st :: if id in ids && st[id].status == Active then Retire(st[id], heir, now) else st[id]
  }

  lemma RetiredStep(st: Store, init: seq<string>, last: string, heir: string, now: int)
    requires WellFormed(st) && last in st
    ensures Retired(st, init + [last], heir, now)
         == if st[last].status == Active then Retired(st, init, heir, now)[last := Retire(st[last], heir, now)]
            else Retired(st, init, heir, now)
  {
    forall id | id in st
      ensures id in init + [last] <==> id in init || id == last
    {
    }
  }

  lemma {:induction false} RetireAllResult(st: Store, ids: seq<string>, heir: string, now: int)
    requires WellFormed(st) && forall x :: x in ids ==> x in st
    ensures ApplyAll(st, RetireAll(st, ids, heir, now)) == Retired(st, ids, heir, now)
  {
    if ids != [] {
      var init, last := ids[..|ids| - 1], ids[|ids| - 1];
      RetireAllResult(st, init, heir, now);
      RetiredStep(st, init, last, heir, now);
      assert ids == init + [last];
      var all := RetireAll(st, ids, heir, now);
      if st[last].status == Active {
        assert all[..|all| - 1] == RetireAll(st, init, heir, now);
      } else {
        assert all == RetireAll(st, init, heir, now);
      }
    }
  }

  // An interrupted clean-up has expired the ancestors up to some point of the chain, and no others.
  lemma {:induction false} RetireAllPrefix(st: Store, ids: seq<string>, heir: string, now: int, k: nat) returns (j: nat)
    requires WellFormed(st) && forall x :: x in ids ==> x in st
    requires k <= |RetireAll(st, ids, heir, now)|
    ensures j <= |ids| && RetireAll(st, ids, heir, now)[..k] == RetireAll(st, ids[..j], heir, now)
    ensures ApplyAll(st, RetireAll(st, ids, heir, now)[..k]) == Retired(st, ids[..j], heir, now)
  {
    var all := RetireAll(st, ids, heir, now);
    if k == |all| {
      j := |ids|;
      assert ids[..j] == ids && all[..k] == all;
    } else {
      var init := ids[..|ids| - 1];
      j := RetireAllPrefix(st, init, heir, now, k);
      assert all[..k] == RetireAll(st, init, heir, now)[..k];
      assert ids[..j] == init[..j];
    }
    RetireAllResult(st, ids[..j], heir, now);
  }

  lemma {:induction false} RetireAllCovers(st: Store, ids: seq<string>, j: nat, heir: string, now: int)
    requires j <= |ids| && forall x :: x in ids ==> x in st
    ensures var part, all := RetireAll(st, ids[..j], heir, now), RetireAll(st, ids, heir, now);
            |part| <= |all| && all[..|part|] == part
  {
    if j < |ids| {
      var init := ids[..|ids| - 1];
      RetireAllCovers(st, init, j, heir, now);
      assert init[..j] == ids[..j];
    } else {
      assert ids[..j] == ids;
    }
  }

  lemma RetiredFacts(st: Store, ids: seq<string>, heir: string, now: int)
    requires WellFormed(st)
    ensures WellFormed(Retired(st, ids, heir, now)) && SameGraph(st, Retired(st, ids, heir, now))
  {
  }

  // ---- Rejecting and expiring ----

  // `_retire_memory`
  function RetireWrites(st: Store, ws: string, id: string, status: Status, now: int): seq<Write> {
    if id !in st || !Visible(ws, st[id]) || st[id].status == status then []
    else
      (if st[id].status == Active then RetireAll(st, Ancestors(st, st[id]), st[id].id, now) else [])
      + [Save(st[id].(status := status, updatedAt := now))]
  }

  // No record but the one operated on becomes retrievable.
  ghost predicate NoRevival(st: Store, st': Store, now: int, except: string) {
    forall x :: x != except && Retrievable(st', now, x) ==> Retrievable(st, now, x)
  }

  lemma NoRevivalFromShown(st: Store, st': Store, now: int, except: string)
    requires WellFormed(st) && WellFormed(st')
    requires forall x :: x != except && Shown(st', now, x) ==> Shown(st, now, x)
    ensures NoRevival(st, st', now, except)
  {
    forall x | x != except && Retrievable(st', now, x) ensures Retrievable(st, now, x) {
      RetrievableIsShown(st', now, x);
      RetrievableIsShown(st, now, x);
    }
  }

  // While r is in force, expiring what it revises uncovers nothing.
  lemma RetiredKeepsHidden(st: Store, r: string, ids: seq<string>, heir: string, t: int, now: int, x: string)
    requires WellFormed(st) && r in st && st[r].status == Active
    requires forall y :: y in ids ==> y != r && Reaches(st, r, y)
    requires x != r && Shown(Retired(st, ids, heir, t), now, x)
    ensures Shown(st, now, x)
  {
    var st1 := Retired(st, ids, heir, t);
    RetiredFacts(st, ids, heir, t);
    forall n ensures !ActiveOver(st, n, x) {
      if ActiveOver(st, n, x) {
        SameGraphReaches(st, st1, n, x);
        SameGraphReaches(st, st1, r, x);
        assert !ActiveOver(st1, r, x);
        if n in ids {
          ReachesTransitive(st, r, n, x);
        } else {
          assert ActiveOver(st1, n, x);
        }
      }
    }
  }

  lemma RetireEndKeepsHidden(st: Store, r: string, ids: seq<string>, last: Record, t: int, now: int, x: string)
    requires WellFormed(st) && r in st && SameLinks(st[r], last) && last.status != Active
    requires if st[r].status == Active then Covers(st, r, ids) else ids == []
    requires x != r && Shown(Retired(st, ids, r, t)[r := last], now, x)
    ensures Shown(st, now, x)
  {
    var st1 := Retired(st, ids, r, t)[r := last];
    RetiredFacts(st, ids, r, t);
    assert SameGraph(st, st1);
    assert x !in ids;
    forall n ensures !ActiveOver(st, n, x) {
      if ActiveOver(st, n, x) {
        SameGraphReaches(st, st1, n, x);
        if n in ids {
          ReachesTransitive(st, r, n, x);
        } else if n != r {
          assert ActiveOver(st1, n, x);
        }
      }
    }
  }

  // What holds after the first k writes of a rejection or expiry.
  lemma RetireStates(st: Store, ws: string, id: string, status: Status, t: int, k: nat) returns (ids: seq<string>, j: nat)
    requires WellFormed(st) && 0 < k <= |RetireWrites(st, ws, id, status, t)|
    ensures id in st && ids == (if st[id].status == Active then Ancestors(st, st[id]) else []) && j <= |ids|
    ensures k < |RetireWrites(st, ws, id, status, t)| ==>
              ApplyAll(st, RetireWrites(st, ws, id, status, t)[..k]) == Retired(st, ids[..j], id, t)
    ensures k == |RetireWrites(st, ws, id, status, t)| ==>
              ApplyAll(st, RetireWrites(st, ws, id, status, t)[..k])
              == Retired(st, ids, id, t)[id := st[id].(status := status, updatedAt := t)]
  {
    ids, j := if st[id].status == Active then Ancestors(st, st[id]) else [], 0;
    var clean := RetireAll(st, ids, id, t);
    var last := Save(st[id].(status := status, updatedAt := t));
    assert RetireWrites(st, ws, id, status, t) == clean + [last];
    if k <= |clean| {
      assert (clean + [last])[..k] == clean[..k];
      j := RetireAllPrefix(st, ids, id, t, k);
    } else {
      assert (clean + [last])[..k] == clean + [last];
      ApplyLast(st, clean, last);
      RetireAllResult(st, ids, id, t);
    }
  }

  // Rejecting or expiring any record of any link graph revives nothing, wherever it is interrupted.
  lemma RetireNoRevival(st: Store, ws: string, id: string, status: Status, t: int, now: int, k: nat)
    requires WellFormed(st) && (status == Rejected || status == Expired)
    requires k <= |RetireWrites(st, ws, id, status, t)|
    ensures NoRevival(st, ApplyAll(st, RetireWrites(st, ws, id, status, t)[..k]), now, id)
  {
    if k > 0 {
      var ids, j := RetireStates(st, ws, id, status, t, k);
      var last := st[id].(status := status, updatedAt := t);
      AncestorsCover(st, id);
      if k < |RetireWrites(st, ws, id, status, t)| {
        RetiredFacts(st, ids[..j], id, t);
        forall x | x != id && Shown(Retired(st, ids[..j], id, t), now, x) ensures Shown(st, now, x) {
          RetiredKeepsHidden(st, id, ids[..j], id, t, now, x);
        }
        NoRevivalFromShown(st, Retired(st, ids[..j], id, t), now, id);
      } else {
        RetiredFacts(st, ids, id, t);
        forall x | x != id && Shown(Retired(st, ids, id, t)[id := last], now, x) ensures Shown(st, now, x) {
          RetireEndKeepsHidden(st, id, ids, last, t, now, x);
        }
        NoRevivalFromShown(st, Retired(st, ids, id, t)[id := last], now, id);
      }
    }
  }

  // ---- Deleting ----

  // `_delete_file_locked`
  function DeleteWrites(st: Store, ws: string, id: string, now: int): seq<Write> {
    if id !in st || !Visible(ws, st[id]) then []
    else
      (if st[id].status == Active || Superseded(st, id) then RetireAll(st, Ancestors(st, st[id]), st[id].id, now) else [])
      + [Unlink(id)]
  }

  // The i-th record of d's chain is live and replaced, and its active replacements all lie before it
  // on that chain.
  ghost predicate Exposed(st: Store, d: string, i: nat, now: int)
    requires d in st
  {
    var ids := Ancestors(st, st[d]);
    && i < |ids|
    && Live(st[ids[i]], now)
    && (exists n :: ActiveOver(st, n, ids[i]))
    && forall n :: ActiveOver(st, n, ids[i]) ==> n in ids[..i]
  }

  // The clean-up guard runs for a record that is itself out of force, and expires an exposed record's
  // replacements before the record itself.
  ghost predicate DeletionUnsafe(st: Store, d: string, now: int)
    requires d in st
  {
    st[d].status != Active && Superseded(st, d) && exists i: nat :: Exposed(st, d, i, now)
  }

  // A record that an interrupted clean-up brings back has lost all its replacements to that clean-up.
  lemma RevivedLostAll(st: Store, ids: seq<string>, heir: string, t: int, now: int, x: string)
    requires WellFormed(st)
    requires Shown(Retired(st, ids, heir, t), now, x) && !Shown(st, now, x)
    ensures x in st && x !in ids && Live(st[x], now)
    ensures exists n :: ActiveOver(st, n, x)
    ensures forall n :: ActiveOver(st, n, x) ==> n in ids
  {
    var st1 := Retired(st, ids, heir, t);
    RetiredFacts(st, ids, heir, t);
    forall n | ActiveOver(st, n, x) ensures n in ids {
      SameGraphReaches(st, st1, n, x);
      assert n !in ids ==> ActiveOver(st1, n, x);
    }
  }

  lemma PrefixMember(ids: seq<string>, j: nat, i: nat, m: string)
    requires j <= i <= |ids| && m in ids[..j]
    ensures m in ids[..i] && m in ids
  {
    var h :| 0 <= h < j && ids[..j][h] == m;
    assert ids[..i][h] == ids[h] == m;
  }

  lemma LaterIndex(ids: seq<string>, j: nat, x: string) returns (i: nat)
    requires j <= |ids| && x in ids && x !in ids[..j]
    ensures j <= i < |ids| && ids[i] == x
  {
    assert ids == ids[..j] + ids[j..];
    var h :| 0 <= h < |ids[j..]| && ids[j..][h] == x;
    i := j + h;
  }

  lemma RevivedWasExposed(st: Store, d: string, ids: seq<string>, j: nat, t: int, now: int, x: string) returns (i: nat)
    requires WellFormed(st) && d in st && ids == Ancestors(st, st[d]) && Covers(st, d, ids) && j <= |ids|
    requires st[d].status != Active && x != d
    requires Shown(Retired(st, ids[..j], d, t), now, x) && !Shown(st, now, x)
    ensures Exposed(st, d, i, now)
  {
    RevivedLostAll(st, ids[..j], d, t, now, x);
    var n :| ActiveOver(st, n, x);
    PrefixMember(ids, j, |ids|, n);
    ReachesTransitive(st, d, n, x);
    i := LaterIndex(ids, j, x);
    forall m | ActiveOver(st, m, x) ensures m in ids[..i] {
      PrefixMember(ids, j, i, m);
    }
  }

  lemma DeleteEndKeepsHidden(st: Store, d: string, ids: seq<string>, t: int, now: int, x: string)
    requires WellFormed(st) && d in st && x != d
    requires if st[d].status == Active || (exists n :: ActiveOver(st, n, d)) then Covers(st, d, ids)
             else ids == [] || Covers(st, d, ids)
    requires Shown(Retired(st, ids, d, t) - {d}, now, x)
    ensures Shown(st, now, x)
  {
    var st1 := Retired(st, ids, d, t);
    var st2 := st1 - {d};
    RetiredFacts(st, ids, d, t);
    assert x !in ids;
    forall n ensures !ActiveOver(st, n, x) {
      if ActiveOver(st, n, x) {
        SameGraphReaches(st, st1, n, x);
        if n == d {
        } else if n in ids {
          ReachesTransitive(st, d, n, x);
        } else {
          assert st2[n] == st[n];
          assert !Reaches(st2, n, x) by { assert !ActiveOver(st2, n, x); }
          PathThroughDeleted(st, st1, d, n, x);
        }
      }
    }
  }

  lemma PathThroughDeleted(st: Store, st1: Store, d: string, n: string, x: string)
    requires SameGraph(st, st1) && n != d && x != d
    requires ActiveOver(st, n, x) && !Reaches(st1 - {d}, n, x)
    ensures ActiveOver(st, n, d) && Reaches(st, d, x)
  {
    SameGraphReaches(st, st1, n, x);
    var m: nat :| m > 0 && Walk(st1, n, m) == Some(x);
    RemovalBreaks(st1, d, n, x, m);
    SameGraphReaches(st, st1, n, d);
    SameGraphReaches(st, st1, d, x);
  }

  lemma ExposedRevives(st: Store, d: string, i: nat, t: int, now: int)
    requires WellFormed(st) && d in st
    requires st[d].status != Active && Exposed(st, d, i, now)
    ensures var ids := Ancestors(st, st[d]);
            Shown(Retired(st, ids[..i], d, t), now, ids[i]) && !Shown(st, now, ids[i])
  {
    var ids := Ancestors(st, st[d]);
    var x := ids[i];
    var st1 := Retired(st, ids[..i], d, t);
    RetiredFacts(st, ids[..i], d, t);
    assert x !in ids[..i] by {
      forall h | 0 <= h < i ensures ids[..i][h] != x {
        AncestorOrder(st, d, h, i);
      }
    }
    forall n ensures !ActiveOver(st1, n, x) {
      SameGraphReaches(st, st1, n, x);
    }
  }

  // What holds after the first k writes of a deletion.
  lemma DeleteStates(st: Store, ws: string, d: string, t: int, k: nat) returns (ids: seq<string>, j: nat)
    requires WellFormed(st) && d in st && Visible(ws, st[d])
    requires k <= |DeleteWrites(st, ws, d, t)|
    ensures ids == if st[d].status == Active || Superseded(st, d) then Ancestors(st, st[d]) else []
    ensures j <= |ids|
    ensures k < |DeleteWrites(st, ws, d, t)| ==>
              ApplyAll(st, DeleteWrites(st, ws, d, t)[..k]) == Retired(st, ids[..j], d, t)
    ensures k == |DeleteWrites(st, ws, d, t)| ==>
              ApplyAll(st, DeleteWrites(st, ws, d, t)[..k]) == Retired(st, ids, d, t) - {d}
  {
    ids := if st[d].status == Active || Superseded(st, d) then Ancestors(st, st[d]) else [];
    var writes, clean := DeleteWrites(st, ws, d, t), RetireAll(st, ids, d, t);
    assert writes == clean + [Unlink(d)];
    j := 0;
    if k < |writes| {
      assert writes[..k] == clean[..k];
      j := RetireAllPrefix(st, ids, d, t, k);
    } else {
      assert writes[..k] == clean + [Unlink(d)];
      ApplyLast(st, clean, Unlink(d));
      RetireAllResult(st, ids, d, t);
    }
  }

  lemma RetiredInactive(st: Store, d: string, ids: seq<string>, t: int)
    requires WellFormed(st)
    ensures WellFormed(Retired(st, ids, d, t)) && WellFormed(Retired(st, ids, d, t) - {d})
  {
  }

  lemma SupersededIfActiveOver(st: Store, n: string, d: string)
    requires WellFormed(st) && ActiveOver(st, n, d)
    ensures Superseded(st, d)
  {
    AncestorsAreReachable(st, n, d);
    assert d in Replaces(st, st[n]);
  }

  // Run to its end, a deletion revives nothing in any state.
  lemma DeleteCompletes(st: Store, ws: string, d: string, t: int, now: int)
    requires WellFormed(st) && d in st && Visible(ws, st[d])
    ensures NoRevival(st, ApplyAll(st, DeleteWrites(st, ws, d, t)), now, d)
  {
    var writes := DeleteWrites(st, ws, d, t);
    assert writes[..|writes|] == writes;
    var ids, _ := DeleteStates(st, ws, d, t, |writes|);
    RetiredInactive(st, d, ids, t);
    AncestorsCover(st, d);
    if n :| ActiveOver(st, n, d) {
      SupersededIfActiveOver(st, n, d);
    }
    forall x | x != d && Shown(Retired(st, ids, d, t) - {d}, now, x) ensures Shown(st, now, x) {
      DeleteEndKeepsHidden(st, d, ids, t, now, x);
    }
    NoRevivalFromShown(st, Retired(st, ids, d, t) - {d}, now, d);
  }

  lemma DeletePrefixNoRevival(st: Store, ws: string, d: string, t: int, now: int, k: nat)
    requires WellFormed(st) && d in st && Visible(ws, st[d])
    requires k < |DeleteWrites(st, ws, d, t)| && !DeletionUnsafe(st, d, now)
    ensures NoRevival(st, ApplyAll(st, DeleteWrites(st, ws, d, t)[..k]), now, d)
  {
    var ids, j := DeleteStates(st, ws, d, t, k);
    RetiredInactive(st, d, ids[..j], t);
    AncestorsCover(st, d);
    forall x | x != d && Shown(Retired(st, ids[..j], d, t), now, x) ensures Shown(st, now, x) {
      if st[d].status == Active {
        RetiredKeepsHidden(st, d, ids[..j], d, t, now, x);
      } else if j == 0 {
        assert ids[..j] == [];
        assert Retired(st, [], d, t) == st;
      } else if !Shown(st, now, x) {
        var i := RevivedWasExposed(st, d, ids, j, t, now, x);
      }
    }
    NoRevivalFromShown(st, Retired(st, ids[..j], d, t), now, d);
  }

  lemma UnsafeDeletionRevives(st: Store, ws: string, d: string, t: int, now: int) returns (k: nat)
    requires WellFormed(st) && d in st && Visible(ws, st[d]) && DeletionUnsafe(st, d, now)
    ensures k <= |DeleteWrites(st, ws, d, t)|
    ensures !NoRevival(st, ApplyAll(st, DeleteWrites(st, ws, d, t)[..k]), now, d)
  {
    var i: nat :| Exposed(st, d, i, now);
    var ids := Ancestors(st, st[d]);
    k := PartialCleanUp(st, ws, d, i, t);
    ExposedRevives(st, d, i, t, now);
    RetiredInactive(st, d, ids[..i], t);
    RetrievableIsShown(Retired(st, ids[..i], d, t), now, ids[i]);
    RetrievableIsShown(st, now, ids[i]);
  }

  lemma PartialCleanUp(st: Store, ws: string, d: string, i: nat, t: int) returns (k: nat)
    requires WellFormed(st) && d in st && Visible(ws, st[d]) && (st[d].status == Active || Superseded(st, d))
    requires i <= |Ancestors(st, st[d])|
    ensures k <= |DeleteWrites(st, ws, d, t)|
    ensures ApplyAll(st, DeleteWrites(st, ws, d, t)[..k]) == Retired(st, Ancestors(st, st[d])[..i], d, t)
  {
    var ids := Ancestors(st, st[d]);
    RetireAllCovers(st, ids, i, d, t);
    RetireAllResult(st, ids[..i], d, t);
    k := |RetireAll(st, ids[..i], d, t)|;
    assert DeleteWrites(st, ws, d, t)[..k] == RetireAll(st, ids, d, t)[..k];
  }

  // Deleting a record revives nothing at any interruption point, except in exactly one family of states.
  lemma DeleteNoRevival(st: Store, ws: string, d: string, t: int, now: int)
    requires WellFormed(st) && d in st && Visible(ws, st[d])
    ensures (forall k: nat :: k <= |DeleteWrites(st, ws, d, t)| ==>
               NoRevival(st, ApplyAll(st, DeleteWrites(st, ws, d, t)[..k]), now, d))
            <==> !DeletionUnsafe(st, d, now)
  {
    var writes := DeleteWrites(st, ws, d, t);
    if DeletionUnsafe(st, d, now) {
      var k := UnsafeDeletionRevives(st, ws, d, t, now);
    } else {
      forall k: nat | k <= |writes| ensures NoRevival(st, ApplyAll(st, writes[..k]), now, d) {
        if k < |writes| {
          DeletePrefixNoRevival(st, ws, d, t, now, k);
        } else {
          assert writes[..k] == writes;
          DeleteCompletes(st, ws, d, t, now);
        }
      }
    }
  }
}
