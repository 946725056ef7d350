// Links over whole runs: a record links to records that were stored before it, so with ids that are new there
// is never a cycle, and confirming a revision never leaves a gap
// (storage/memory_governance.py, lines 453-664).
module MemoryRuns {
  import opened Prelude
  import opened MemoryGraph
  import opened MemoryLifecycle
  import opened MemoryConfirm
  import opened MemoryGate

  ghost predicate Acyclic(st: Store) {
    forall x :: !Reaches(st, x, x)
  }

  // No stored record is called this or names it.
  predicate Unheard(st: Store, id: string) {
    id !in st && forall n :: n in st ==> st[n].supersedes != id
  }

  // ---- Single writes ----

  // Writes to records that are there, leaving their links alone.
  ghost predicate KeepsLinks(st: Store, ws: seq<MemoryLifecycle.Write>) {
    forall i :: 0 <= i < |ws| ==> ws[i].Save? && ws[i].record.id in st && SameLinks(st[ws[i].record.id], ws[i].record)
  }

  lemma {:induction false} KeepsGraph(st: Store, ws: seq<MemoryLifecycle.Write>)
    requires WellFormed(st) && KeepsLinks(st, ws)
    ensures WellFormed(ApplyAll(st, ws)) && SameGraph(st, ApplyAll(st, ws))
  {
    if ws != [] {
      KeepsGraph(st, ws[..|ws| - 1]);
    }
  }

  lemma SameGraphKeepsLinks(st: Store, st': Store, ws: seq<MemoryLifecycle.Write>)
    requires WellFormed(st) && WellFormed(st') && SameGraph(st, st') && KeepsLinks(st', ws)
    ensures KeepsLinks(st, ws)
  {
  }

  lemma KeepsAcyclic(st: Store, st': Store)
    requires Acyclic(st) && SameGraph(st, st')
    ensures Acyclic(st')
  {
    forall x ensures !Reaches(st', x, x) {
      SameGraphReaches(st, st', x, x);
    }
  }

  // Nothing leads to a record that was not heard of before.
  lemma {:induction false} WalkAvoids(st: Store, r: Record, a: string, n: nat)
    requires Unheard(st, r.id) && r.supersedes != r.id && a != r.id
    ensures Walk(st[r.id := r], a, n) == Walk(st, a, n) != Some(r.id)
    decreases n
  {
    if n > 0 && Link(st, a).Some? {
      WalkAvoids(st, r, Link(st, a).value, n - 1);
    }
  }

  lemma AddedOnNoCycle(st: Store, r: Record)
    requires Unheard(st, r.id) && r.supersedes != r.id
    ensures !Reaches(st[r.id := r], r.id, r.id)
  {
    var st' := st[r.id := r];
    forall n: nat | n > 0 ensures Walk(st', r.id, n) != Some(r.id) {
      if Link(st', r.id).Some? {
        WalkAvoids(st, r, Link(st', r.id).value, n - 1);
      }
    }
  }

  lemma CycleWasThere(st: Store, r: Record, x: string)
    requires Unheard(st, r.id) && r.supersedes != r.id && x != r.id && Reaches(st[r.id := r], x, x)
    ensures Reaches(st, x, x)
  {
    var n: nat :| n > 0 && Walk(st[r.id := r], x, n) == Some(x);
    WalkAvoids(st, r, x, n);
    assert Walk(st, x, n) == Some(x);
  }

  lemma AddKeepsAcyclic(st: Store, r: Record)
    requires Acyclic(st) && Unheard(st, r.id) && r.supersedes != r.id
    ensures Acyclic(st[r.id := r])
  {
    var st' := st[r.id := r];
    AddedOnNoCycle(st, r);
    forall x ensures !Reaches(st', x, x) {
      if x != r.id && Reaches(st', x, x) {
        CycleWasThere(st, r, x);
      }
    }
  }

  lemma RemovalReaches(st: Store, d: string, x: string, y: string)
    requires Reaches(st - {d}, x, y)
    ensures Reaches(st, x, y)
  {
    var n: nat :| n > 0 && Walk(st - {d}, x, n) == Some(y);
    RemovalWalk(st, d, x, n);
    assert Walk(st, x, n) == Some(y);
  }

  lemma RemoveKeepsAcyclic(st: Store, d: string)
    requires Acyclic(st)
    ensures Acyclic(st - {d})
  {
    forall x ensures !Reaches(st - {d}, x, x) {
      if Reaches(st - {d}, x, x) {
        RemovalReaches(st, d, x, x);
      }
    }
  }

  // ---- Whole operations, stopped anywhere ----

  ghost predicate Sound(st: Store) {
    WellFormed(st) && Acyclic(st)
  }

  // At every point of a list of writes.
  ghost predicate SoundThroughout(st: Store, ws: seq<MemoryLifecycle.Write>) {
    forall k :: 0 <= k <= |ws| ==> Sound(ApplyAll(st, ws[..k]))
  }

  lemma LinksSound(st: Store, ws: seq<MemoryLifecycle.Write>)
    requires Sound(st) && KeepsLinks(st, ws)
    ensures SoundThroughout(st, ws)
  {
    forall k | 0 <= k <= |ws| ensures Sound(ApplyAll(st, ws[..k])) {
      KeepsGraph(st, ws[..k]);
      KeepsAcyclic(st, ApplyAll(st, ws[..k]));
    }
  }

  lemma SoundConcat(st: Store, a: seq<MemoryLifecycle.Write>, b: seq<MemoryLifecycle.Write>)
    requires SoundThroughout(st, a) && SoundThroughout(ApplyAll(st, a), b)
    ensures SoundThroughout(st, a + b)
  {
    forall k | 0 <= k <= |a + b| ensures Sound(ApplyAll(st, (a + b)[..k])) {
      if k <= |a| {
        assert (a + b)[..k] == a[..k];
      } else {
        assert (a + b)[..k] == a + b[..k - |a|];
        ApplySplit(st, a, b[..k - |a|]);
      }
    }
  }

  lemma OneSound(st: Store, w: MemoryLifecycle.Write)
    requires Sound(st) && Sound(Apply(st, w))
    ensures SoundThroughout(st, [w]) && ApplyAll(st, [w]) == Apply(st, w)
  {
    assert [w][..0] == [] && [w][..1] == [w];
    ApplyLast(st, [], w);
    assert [] + [w] == [w];
  }

  lemma {:induction false} RetireAllKeepsLinks(st: Store, ids: seq<string>, heir: string, now: int)
    requires WellFormed(st) && forall x :: x in ids ==> x in st
    ensures KeepsLinks(st, RetireAll(st, ids, heir, now))
  {
    if ids != [] {
      RetireAllKeepsLinks(st, ids[..|ids| - 1], heir, now);
    }
  }

  lemma {:induction false} GroupExpiryKeepsLinks(st: Store, listing: seq<string>, rec: Record)
    requires WellFormed(st)
    ensures KeepsLinks(st, GroupExpiry(st, listing, rec))
  {
    if listing != [] {
      GroupExpiryKeepsLinks(st, listing[..|listing| - 1], rec);
    }
  }

  lemma {:induction false} MarkGroupKeepsLinks(st: Store, ids: seq<string>, group: string, now: int)
    requires WellFormed(st) && forall x :: x in ids ==> x in st
    ensures KeepsLinks(st, MarkGroup(st, ids, group, now))
  {
    if ids != [] {
      MarkGroupKeepsLinks(st, ids[..|ids| - 1], group, now);
    }
  }

  lemma RetireSound(st: Store, ws: string, id: string, status: Status, now: int)
    requires Sound(st)
    ensures SoundThroughout(st, RetireWrites(st, ws, id, status, now))
  {
    if id in st {
      RetireAllKeepsLinks(st, Ancestors(st, st[id]), id, now);
    }
    LinksSound(st, RetireWrites(st, ws, id, status, now));
  }

  lemma DeleteSound(st: Store, ws: string, id: string, now: int)
    requires Sound(st)
    ensures SoundThroughout(st, DeleteWrites(st, ws, id, now))
  {
    var writes := DeleteWrites(st, ws, id, now);
    if writes == [] {
      LinksSound(st, []);
    } else {
      var clean := writes[..|writes| - 1];
      RetireAllKeepsLinks(st, Ancestors(st, st[id]), id, now);
      LinksSound(st, clean);
      assert clean[..|clean|] == clean;
      var st1 := ApplyAll(st, clean);
      RemoveKeepsAcyclic(st1, id);
      OneSound(st1, Unlink(id));
      SoundConcat(st, clean, [Unlink(id)]);
      assert clean + [Unlink(id)] == writes;
    }
  }

  lemma ConfirmTailKeepsLinks(st1: Store, id: string, now: int, listing: seq<string>)
    requires WellFormed(st1) && id in st1
    ensures KeepsLinks(st1, ConfirmTail(st1, id, now, listing))
  {
    var ids := Ancestors(st1, st1[id]);
    var clean := RetireAll(st1, ids, id, now);
    RetireAllKeepsLinks(st1, ids, id, now);
    KeepsGraph(st1, clean);
    GroupExpiryKeepsLinks(ApplyAll(st1, clean), listing, st1[id]);
    SameGraphKeepsLinks(st1, ApplyAll(st1, clean), GroupExpiry(ApplyAll(st1, clean), listing, st1[id]));
  }

  lemma ConfirmSound(st: Store, ws: string, id: string, authority: string, now: int, listing: seq<string>)
    requires Sound(st)
    ensures SoundThroughout(st, ConfirmWrites(st, ws, id, authority, now, listing))
  {
    if ConfirmRefusal(st, ws, id).None? && !st[id].retires {
      ConfirmShape(st, ws, id, authority, now, listing);
      var st1 := st[id := Confirmed(st[id], authority, now)];
      ConfirmTailKeepsLinks(st1, id, now, listing);
      SameGraphKeepsLinks(st, st1, ConfirmTail(st1, id, now, listing));
    }
    LinksSound(st, ConfirmWrites(st, ws, id, authority, now, listing));
  }

  lemma GateTailKeepsLinks(st1: Store, target: string, c: Record, now: int)
    requires WellFormed(st1) && c.id in st1
    ensures KeepsLinks(st1, GateTail(st1, target, c, now))
  {
    if target in st1 && Undecided(st1[target]) {
      var reject := [Save(st1[target].(status := Rejected, updatedAt := now, supersededBy := c.id))];
      KeepsGraph(st1, reject);
      var st2 := ApplyAll(st1, reject);
      RetireAllKeepsLinks(st2, Ancestors(st2, c), c.id, now);
      SameGraphKeepsLinks(st1, st2, RetireAll(st2, Ancestors(st2, c), c.id, now));
    } else {
      RetireAllKeepsLinks(st1, Ancestors(st1, c), c.id, now);
    }
  }

  lemma AddSound(st: Store, r: Record)
    requires Sound(st) && Unheard(st, r.id) && r.supersedes != r.id && r.id != ""
    ensures SoundThroughout(st, [Save(r)]) && ApplyAll(st, [Save(r)]) == st[r.id := r]
  {
    AddKeepsAcyclic(st, r);
    OneSound(st, Save(r));
  }

  // Saving the candidate, and what follows.
  lemma TailSound(st1: Store, saved: Record, target: string, now: int)
    requires Sound(st1) && Unheard(st1, saved.id) && saved.supersedes != saved.id && saved.id != ""
    ensures SoundThroughout(st1, [Save(saved)] + GateTail(st1[saved.id := saved], target, saved, now))
  {
    AddSound(st1, saved);
    var st2 := st1[saved.id := saved];
    var tail := GateTail(st2, target, saved, now);
    assert [Save(saved)][..1] == [Save(saved)];
    GateTailKeepsLinks(st2, target, saved, now);
    LinksSound(st2, tail);
    SoundConcat(st1, [Save(saved)], tail);
  }

  // Marking conflicts first.
  lemma StoreSound(st: Store, listing: seq<string>, c: Record, now: int, group: string)
    requires Sound(st) && Unheard(st, c.id) && c.id != ""
    requires c.supersedes != "" ==> c.supersedes in st && c.supersedes != c.id && !Superseded(st, c.supersedes) && SameDomain(c, st[c.supersedes])
    ensures SoundThroughout(st, StoreWrites(st, listing, c, now, group))
  {
    var (saved, marks) := Resolved(st, listing, c, now, group);
    var actives := ActiveOnes(st, AllConflicts(st, listing, c));
    MarkGroupKeepsLinks(st, actives, group, now);
    LinksSound(st, marks);
    KeepsGraph(st, marks);
    var st1 := ApplyAll(st, marks);
    assert marks[..|marks|] == marks;
    assert saved.supersedes != saved.id;
    TailSound(st1, saved, c.supersedes, now);
    SoundConcat(st, marks, [Save(saved)] + GateTail(st1[saved.id := saved], c.supersedes, saved, now));
  }

  lemma GateSound(st: Store, listing: seq<string>, c: Record, j: Judgement, now: int, group: string)
    requires Sound(st) && Unheard(st, c.id) && c.supersedes != c.id
    ensures SoundThroughout(st, Gate(st, listing, c, j, now, group).writes)
  {
    var refusal := GateRefusal(st, c, j);
    if refusal.None? {
      assert Prepared(c, j).id == c.id != "";
      LinksSound(st, []);
      StoreSound(st, listing, Prepared(c, j), now, group);
    } else if refusal.value.writes == [] {
      LinksSound(st, []);
    } else {
      AddSound(st, refusal.value.writes[0].record);
      assert refusal.value.writes == [Save(refusal.value.writes[0].record)];
    }
  }

  // ---- Runs ----

  // Every candidate comes with an id that no stored record is called or names.
  ghost predicate NewIds(steps: seq<Step>) {
    forall i :: 0 <= i < |steps| && steps[i].op.Write? ==>
      Unheard(Run(steps[..i]), steps[i].op.candidate.id)
      && steps[i].op.candidate.supersedes != steps[i].op.candidate.id
  }

  lemma OpSound(st: Store, op: Op, now: int)
    requires Sound(st)
    requires op.Write? ==> Unheard(st, op.candidate.id) && op.candidate.supersedes != op.candidate.id
    ensures SoundThroughout(st, OpWrites(st, op, now))
  {
    match op
    case Write(c, j, listing, group) => GateSound(st, listing, c, j, now, group);
    case Confirm(ws, id, authority, order) => ConfirmSound(st, ws, id, authority, now, order);
    case Retire(ws, id, reject) => RetireSound(st, ws, id, if reject then Rejected else Expired, now);
    case Delete(ws, id) => DeleteSound(st, ws, id, now);
  }

  lemma EmptyStoreIsSound()
    ensures Sound(map[])
  {
    forall x ensures !Reaches(map[], x, x) {
      assert Link(map[], x).None?;
      assert forall n: nat :: n > 0 ==> Walk(map[], x, n).None?;
    }
  }

  // In every state any run reaches, interruptions included, no record leads back to itself.
  lemma {:induction false} RunsAreAcyclic(steps: seq<Step>)
    requires NewIds(steps)
    ensures WellFormed(Run(steps)) && Acyclic(Run(steps))
  {
    if steps == [] {
      EmptyStoreIsSound();
    } else {
      var init, last := steps[..|steps| - 1], steps[|steps| - 1];
      assert NewIds(init) by {
        assert forall i :: 0 <= i < |init| ==> init[..i] == steps[..i];
      }
      RunsAreAcyclic(init);
      var writes := OpWrites(Run(init), last.op, last.now);
      OpSound(Run(init), last.op, last.now);
      assert Sound(ApplyAll(Run(init), writes[..if last.cut < |writes| then last.cut else |writes|]));
      assert writes[..|writes|] == writes;
    }
  }

  // Confirming a revision in any such state leaves no gap: if an ancestor was retrievable, the confirmed
  // record is, from the first save on.
  lemma NoGapInRuns(steps: seq<Step>, ws: string, id: string, authority: string, t: int, now: int, listing: seq<string>, held: string, k: nat)
    requires NewIds(steps)
    requires var st := Run(steps);
             && ConfirmRefusal(st, ws, id).None? && !st[id].retires
             && held in Ancestors(st, st[id]) && Retrievable(st, now, held)
             && Live(Confirmed(st[id], authority, t), now)
             && 0 < k <= |ConfirmWrites(st, ws, id, authority, t, listing)|
    ensures Retrievable(ApplyAll(Run(steps), ConfirmWrites(Run(steps), ws, id, authority, t, listing)[..k]), now, id)
  {
    var st := Run(steps);
    RunsAreAcyclic(steps);
    AncestorsAreReachable(st, id, held);
    if Reaches(st, held, id) {
      ReachesTransitive(st, id, held, id);
    }
    ConfirmNoGap(st, ws, id, authority, t, now, listing, held);
  }
}
