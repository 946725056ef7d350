// Runs of whole operations on one session, each stopped after any of its writes, with anything else that
// changes a job in between (jobs/lifecycle.py, lines 196-361 and 572-710).
module TurnRuns {
  import opened Prelude
  import JobExecution
  import opened TurnRegistry
  import opened TurnClaims

  // `cut` is how many writes were made before a crash; listings and new job ids are what was found.
  // `Single` is one update by the job manager, a worker, a restart, the session routes, or the pruning of turn
  // logs, which only flags a record.
  datatype Operation =
    | ClaimTurn(id: string, input: string, now: int, listing: seq<string>, order: seq<string>, newId: string, cut: nat)
    | FinishTurn(id: string, job: string, ok: bool, now: int, listing: seq<string>, later: int, relisting: seq<string>, cut: nat)
    | CloseSnapshot(job: string, request: string, ok: bool, now: int, cut: nat)
    | AttachRun(order: seq<string>, newId: string, ok: bool, now: int, cut: nat)
    | CloseRestart(id: string, candidate: Record, frame: Option<bool>, now: int, cut: nat)
    | Single(e: Event)

  function All(w: World, op: Operation): seq<Event> {
    match op
    case ClaimTurn(id, input, now, listing, order, newId, _) => Claim(w, id, input, now, listing, order, newId).events
    case FinishTurn(id, job, ok, now, listing, later, relisting, _) => Finishing(w, id, job, ok, now, listing, later, relisting)
    case CloseSnapshot(job, request, ok, now, _) => Closing(w, job, request, ok, now)
    case AttachRun(order, newId, ok, now, _) => Attaching(w, order, newId, ok, now)
    case CloseRestart(id, candidate, frame, now, _) => CloseRestarted(w, id, candidate, frame, now)
    case Single(e) => [e]
  }

  function Writes(w: World, op: Operation): seq<Event> {
    if !op.Single? && op.cut < |All(w, op)| then All(w, op)[..op.cut] else All(w, op)
  }

  // A write that other components make. None of these changes what is modelled of a record.
  predicate Alone(w: World, e: Event) {
    match e
    case CreateJob(j) => j !in w.jobs
    case _ => e.DeleteHard? || e.Flag? || (OnJob(e) && !e.OpenTurn? && !e.CloseTurn?)
  }

  // What an operation finds: the directories as they are, and a job id that is new.
  ghost predicate Finds(w: World, op: Operation) {
    match op
    case ClaimTurn(_, _, _, listing, order, newId, _) =>
      IsListing(w.registry, listing) && Orders(w, order) && newId !in w.jobs
    case FinishTurn(id, job, ok, now, listing, _, relisting, _) =>
      IsListing(w.registry, listing)
      && IsListing(DoAll(w, FinishUpTo(w, id, job, ok, now, listing)).registry, relisting)
    case CloseSnapshot(_, _, _, _, _) => true
    case AttachRun(order, newId, _, _, _) => Orders(w, order) && newId !in w.jobs
    case CloseRestart(_, _, _, _, _) => true
    case Single(e) => Alone(w, e)
  }

  function Events(w: World, ops: seq<Operation>): seq<Event> {
    if ops == [] then []
    else
      var before := Events(w, ops[..|ops| - 1]);
      before + Writes(DoAll(w, before), ops[|ops| - 1])
  }

  // The session after the operations.
  function After(w: World, ops: seq<Operation>): World {
    DoAll(w, Events(w, ops))
  }

  ghost predicate Possible(w: World, ops: seq<Operation>) {
    ops == [] || (Possible(w, ops[..|ops| - 1]) && Finds(After(w, ops[..|ops| - 1]), ops[|ops| - 1]))
  }

  // How many writes the first `i` operations make.
  function Point(w: World, ops: seq<Operation>, i: nat): nat
    requires i <= |ops|
  {
    |Events(w, ops[..i])|
  }

  lemma {:induction false} PointPrefix(w: World, ops: seq<Operation>, i: nat)
    requires i <= |ops|
    ensures Point(w, ops, i) <= |Events(w, ops)| && Events(w, ops)[..Point(w, ops, i)] == Events(w, ops[..i])
    ensures i == |ops| ==> Point(w, ops, i) == |Events(w, ops)|
  {
    if i == |ops| {
      assert ops[..i] == ops;
    } else {
      var init := ops[..|ops| - 1];
      assert init[..i] == ops[..i];
      PointPrefix(w, init, i);
      assert Events(w, init)[..Point(w, ops, i)] == Events(w, ops)[..Point(w, ops, i)];
    }
  }

  // Between two operations of a run.
  lemma PointsInOrder(w: World, ops: seq<Operation>, i: nat, j: nat)
    requires i <= j <= |ops|
    ensures Point(w, ops, i) <= Point(w, ops, j) <= |Events(w, ops)|
    ensures DoAll(w, Events(w, ops)[..Point(w, ops, j)]) == After(w, ops[..j])
  {
    PointPrefix(w, ops, j);
    Earlier(w, ops, i, j);
  }

  lemma Earlier(w: World, ops: seq<Operation>, i: nat, j: nat)
    requires i <= j <= |ops|
    ensures Point(w, ops, i) <= Point(w, ops, j)
  {
    var first := ops[..j];
    assert first[..i] == ops[..i];
    PointPrefix(w, first, i);
  }

  lemma {:induction false} PossiblePrefix(w: World, ops: seq<Operation>, i: nat)
    requires Possible(w, ops) && i <= |ops|
    ensures Possible(w, ops[..i]) && (i < |ops| ==> Finds(After(w, ops[..i]), ops[i]))
  {
    if i == |ops| {
      assert ops[..i] == ops;
    } else if i < |ops| - 1 {
      assert ops[..|ops| - 1][..i] == ops[..i];
      PossiblePrefix(w, ops[..|ops| - 1], i);
    }
  }

  // ---- Every write of every run passes the check that guards it ----

  lemma ClosingRight(w: World, job: string, request: string, ok: bool, now: int)
    ensures AllRight(w, Closing(w, job, request, ok, now))
  {
    var es := Closing(w, job, request, ok, now);
    if es != [] {
      RightLast(w, [], CloseTurn(job, request, ok));
      assert [] + [CloseTurn(job, request, ok)] == [CloseTurn(job, request, ok)];
      if w.jobs[job].cancelRequested {
        RightLast(w, [CloseTurn(job, request, ok)], EndJob(job, Cancelled, now));
      } else {
        assert es == [CloseTurn(job, request, ok)];
      }
    }
  }

  // Events with no guard may follow.
  predicate Unguarded(e: Event) {
    e.Start? || e.Reset? || e.EndJob? || e.CloseTurn? || e.SetEnded?
  }

  lemma {:induction false} UnguardedAlone(w: World, more: seq<Event>)
    requires forall i :: 0 <= i < |more| ==> Unguarded(more[i])
    ensures AllRight(w, more)
  {
    if more != [] {
      UnguardedAlone(w, more[..|more| - 1]);
      assert Unguarded(more[|more| - 1]);
    }
  }

  lemma UnguardedRight(w: World, es: seq<Event>, more: seq<Event>)
    requires AllRight(w, es)
    requires forall i :: 0 <= i < |more| ==> Unguarded(more[i])
    ensures AllRight(w, es + more)
  {
    UnguardedAlone(DoAll(w, es), more);
    RightConcat(w, es, more);
  }

  lemma AttachingRight(w: World, order: seq<string>, newId: string, ok: bool, now: int)
    requires Orders(w, order) && newId !in w.jobs
    ensures AllRight(w, Attaching(w, order, newId, ok, now))
  {
    var found := FindOrCreate(order, newId);
    if order == [] {
      RightLast(w, [], CreateJob(newId));
      assert [] + [CreateJob(newId)] == found;
    }
    var job := Chosen(order, newId);
    var cancelled := job in w.jobs && w.jobs[job].cancelRequested;
    var run := if cancelled then [] else EnsureRunning(w, job);
    var end := [EndJob(job, if cancelled then Cancelled else if ok then Succeeded else Failed, now)];
    UnguardedRight(w, found, run);
    UnguardedRight(w, found + run, end);
  }

  lemma CloseRestartedRight(w: World, id: string, candidate: Record, frame: Option<bool>, now: int)
    ensures AllRight(w, CloseRestarted(w, id, candidate, frame, now))
  {
    var first, r := Project(w, id, candidate, now), Projected(w, id, candidate, now);
    ProjectRight(w, id, candidate, now);
    if id != "" && r.status != Running && frame.Some? {
      var status := if r.status == Cancelled then Cancelled else if frame.value then Succeeded else Failed;
      var there := id in w.registry || first != [];
      RestateRight(w, first, there, id, r, status, now);
      CloseJobUnguarded(w, r.jobId, id, status, frame.value, now);
      UnguardedRight(w, first + Restate(there, id, r, status, now), CloseRestartedJob(w, r.jobId, id, status, frame.value, now));
    }
  }

  lemma RestateRight(w: World, first: seq<Event>, there: bool, id: string, r: Record, status: Outcome, now: int)
    requires AllRight(w, first) && r.status != Running && status != Running
    requires id in DoAll(w, first).registry ==> DoAll(w, first).registry[id] == r
    ensures AllRight(w, first + Restate(there, id, r, status, now))
  {
    var more := Restate(there, id, r, status, now);
    if more == [] {
      assert first + more == first;
    } else {
      RightLast(w, first, Rewrite(id, status, now));
    }
  }

  lemma CloseJobUnguarded(w: World, job: string, id: string, status: Outcome, success: bool, now: int)
    ensures var es := CloseRestartedJob(w, job, id, status, success, now);
            forall i :: 0 <= i < |es| ==> Unguarded(es[i])
  {
  }

  lemma AllIsRight(w: World, op: Operation)
    requires NonePaused(w) && Finds(w, op)
    ensures AllRight(w, All(w, op))
  {
    match op
    case ClaimTurn(id, input, now, listing, order, newId, _) => ClaimOutcome(w, id, input, now, listing, order, newId);
    case FinishTurn(id, job, ok, now, listing, later, relisting, _) =>
      FinishingOutcome(w, id, job, ok, now, listing, later, relisting);
    case CloseSnapshot(job, request, ok, now, _) => ClosingRight(w, job, request, ok, now);
    case AttachRun(order, newId, ok, now, _) => AttachingRight(w, order, newId, ok, now);
    case CloseRestart(id, candidate, frame, now, _) => CloseRestartedRight(w, id, candidate, frame, now);
    case Single(e) =>
      RightLast(w, [], e);
      assert [] + [e] == [e];
  }

  lemma WritesAreRight(w: World, op: Operation)
    requires NonePaused(w) && Finds(w, op)
    ensures AllRight(w, Writes(w, op))
  {
    AllIsRight(w, op);
    if !op.Single? && op.cut < |All(w, op)| {
      RightPrefix(w, All(w, op), op.cut);
    }
  }

  lemma {:induction false} RunIsRight(w: World, ops: seq<Operation>)
    requires NonePaused(w) && Possible(w, ops)
    ensures AllRight(w, Events(w, ops))
  {
    if ops != [] {
      var init := ops[..|ops| - 1];
      RunIsRight(w, init);
      NeverPaused(w, Events(w, init));
      WritesAreRight(After(w, init), ops[|ops| - 1]);
      RightConcat(w, Events(w, init), Writes(After(w, init), ops[|ops| - 1]));
    }
  }

  // ---- What a run does to a record ----

  // At no write of any run does a record return to running or disappear before its time.
  lemma RecordOverRun(w: World, ops: seq<Operation>, k: nat, id: string)
    requires NonePaused(w) && Possible(w, ops) && k < |Events(w, ops)|
    requires id in DoAll(w, Events(w, ops)[..k]).registry
    ensures RecordKept(DoAll(w, Events(w, ops)[..k]), Events(w, ops)[k], id)
  {
    RunIsRight(w, ops);
    RightPrefix(w, Events(w, ops), k);
    RecordStep(DoAll(w, Events(w, ops)[..k]), Events(w, ops)[k], id);
  }

  // The record is there from write `a` up to write `b`.
  ghost predicate Present(w: World, es: seq<Event>, a: nat, b: nat, id: string)
    decreases b
  {
    a <= b <= |es| && id in DoAll(w, es[..b]).registry && (a < b ==> Present(w, es, a, b - 1, id))
  }

  ghost predicate Ended(w: World, es: seq<Event>, k: nat, id: string) {
    k <= |es| && id in DoAll(w, es[..k]).registry && DoAll(w, es[..k]).registry[id].status != Running
  }

  lemma {:induction false} EndedStays(w: World, es: seq<Event>, a: nat, b: nat, id: string)
    requires AllRight(w, es) && Present(w, es, a, b, id) && Ended(w, es, a, id)
    ensures Ended(w, es, b, id)
    decreases b
  {
    if a < b {
      EndedStays(w, es, a, b - 1, id);
      EndedNext(w, es, b - 1, id);
    }
  }

  lemma EndedNext(w: World, es: seq<Event>, k: nat, id: string)
    requires AllRight(w, es) && k < |es| && Ended(w, es, k, id) && id in DoAll(w, es[..k + 1]).registry
    ensures Ended(w, es, k + 1, id)
  {
    RightPrefix(w, es, k);
    RecordStep(DoAll(w, es[..k]), es[k], id);
    DoNext(w, es, k);
  }

  // A record that has ended stays so for as long as it exists.
  lemma EndedStaysEnded(w: World, ops: seq<Operation>, a: nat, b: nat, id: string)
    requires NonePaused(w) && Possible(w, ops)
    requires Present(w, Events(w, ops), a, b, id) && Ended(w, Events(w, ops), a, id)
    ensures Ended(w, Events(w, ops), b, id)
  {
    RunIsRight(w, ops);
    EndedStays(w, Events(w, ops), a, b, id);
  }

  // ---- Grants ----

  // The i-th operation was a claim that was carried through and answered as granted.
  predicate Grant(w: World, ops: seq<Operation>, i: nat)
    requires i < |ops|
  {
    var op := ops[i];
    op.ClaimTurn? &&
    var c := Claim(After(w, ops[..i]), op.id, op.input, op.now, op.listing, op.order, op.newId);
    c.answer.Granted? && |c.events| <= op.cut
  }

  function GrantedJob(w: World, ops: seq<Operation>, i: nat): string
    requires i < |ops| && Grant(w, ops, i)
  {
    var op := ops[i];
    Claim(After(w, ops[..i]), op.id, op.input, op.now, op.listing, op.order, op.newId).answer.job
  }

  function GrantEvents(w: World, ops: seq<Operation>, i: nat): seq<Event>
    requires i < |ops| && Grant(w, ops, i)
  {
    All(After(w, ops[..i]), ops[i])
  }

  lemma GrantIsWritten(w: World, ops: seq<Operation>, i: nat)
    requires i < |ops| && Grant(w, ops, i)
    ensures Events(w, ops[..i + 1]) == Events(w, ops[..i]) + GrantEvents(w, ops, i)
  {
    assert ops[..i + 1][..i] == ops[..i] && ops[..i + 1][i] == ops[i];
  }

  predicate Remembers(es: seq<Event>, p: nat, id: string) {
    p < |es| && es[p].Remember? && es[p].id == id
  }

  lemma LastRemembers(all: seq<Event>, first: seq<Event>, before: seq<Event>, es: seq<Event>, id: string) returns (p: nat)
    requires first == before + es && es != [] && Remembers(es, |es| - 1, id)
    requires |first| <= |all| && all[..|first|] == first
    ensures |before| <= p == |first| - 1 && Remembers(all, p, id)
  {
    p := |first| - 1;
    assert all[p] == first[p];
  }

  lemma ClaimRemembers(w: World, id: string, input: string, now: int, listing: seq<string>, order: seq<string>, newId: string)
    requires id != "" && Claim(w, id, input, now, listing, order, newId).answer.Granted?
    ensures var es := Claim(w, id, input, now, listing, order, newId).events;
            es != [] && Remembers(es, |es| - 1, id)
  {
    var w1 := DoAll(w, Pruning(w, id, now, listing));
    assert Decide(w1, id, input, now, order, newId).answer.Granted?;
  }

  lemma GrantEventsRemember(w: World, ops: seq<Operation>, i: nat)
    requires i < |ops| && Grant(w, ops, i) && ops[i].id != ""
    ensures var es := GrantEvents(w, ops, i); es != [] && Remembers(es, |es| - 1, ops[i].id)
  {
    var op := ops[i];
    ClaimRemembers(After(w, ops[..i]), op.id, op.input, op.now, op.listing, op.order, op.newId);
  }

  // The last write of a grant under a key is the record that remembers it.
  lemma GrantRemembers(w: World, ops: seq<Operation>, i: nat) returns (p: nat)
    requires i < |ops| && Grant(w, ops, i) && ops[i].id != ""
    ensures Point(w, ops, i) <= p == Point(w, ops, i + 1) - 1
    ensures Remembers(Events(w, ops), p, ops[i].id)
  {
    GrantEventsRemember(w, ops, i);
    GrantIsWritten(w, ops, i);
    p := LastOfOperation(w, ops, i, GrantEvents(w, ops, i), ops[i].id);
  }

  lemma LastOfOperation(w: World, ops: seq<Operation>, i: nat, es: seq<Event>, id: string) returns (p: nat)
    requires i < |ops| && Events(w, ops[..i + 1]) == Events(w, ops[..i]) + es && es != [] && Remembers(es, |es| - 1, id)
    ensures Point(w, ops, i) <= p == Point(w, ops, i + 1) - 1
    ensures Remembers(Events(w, ops), p, id)
  {
    PointPrefix(w, ops, i + 1);
    p := LastRemembers(Events(w, ops), Events(w, ops[..i + 1]), Events(w, ops[..i]), es, id);
  }

  lemma Between(w: World, es: seq<Event>, p: nat, q: nat, id: string) returns (k: nat)
    requires AllRight(w, es) && p < q && Remembers(es, p, id) && Remembers(es, q, id)
    ensures p < k < q < |es| && Evicts(DoAll(w, es[..k]), es[k], id)
  {
    k := RememberedTwice(w, es, p, q, id);
  }

  // Two claims of one key that were both granted are separated by the eviction of its record, which had then
  // ended and was older than seven days or outranked by 256 retained records at least as new.
  lemma GrantsSeparatedByEviction(w: World, ops: seq<Operation>, i: nat, j: nat) returns (k: nat)
    requires NonePaused(w) && Possible(w, ops) && i < j < |ops|
    requires Grant(w, ops, i) && Grant(w, ops, j) && ops[i].id == ops[j].id != ""
    ensures Point(w, ops, i + 1) <= k < Point(w, ops, j + 1) <= |Events(w, ops)|
    ensures Evicts(DoAll(w, Events(w, ops)[..k]), Events(w, ops)[k], ops[i].id)
  {
    RunIsRight(w, ops);
    var p := GrantRemembers(w, ops, i);
    var q := GrantRemembers(w, ops, j);
    PointsInOrder(w, ops, i + 1, j);
    k := Between(w, Events(w, ops), p, q, ops[i].id);
  }

  lemma GrantOpens(w: World, ops: seq<Operation>, i: nat)
    requires NonePaused(w) && Possible(w, ops) && i < |ops| && Grant(w, ops, i)
    ensures NoneOpen(After(w, ops[..i])) && Open(After(w, ops[..i + 1]), GrantedJob(w, ops, i))
    ensures ActiveRequest(After(w, ops[..i + 1]).jobs[GrantedJob(w, ops, i)]) == ops[i].id
  {
    var op := ops[i];
    var w1 := After(w, ops[..i]);
    PossiblePrefix(w, ops, i);
    NeverPaused(w, Events(w, ops[..i]));
    ClaimOutcome(w1, op.id, op.input, op.now, op.listing, op.order, op.newId);
    GrantIsWritten(w, ops, i);
    DoSplit(w, Events(w, ops[..i]), GrantEvents(w, ops, i));
  }

  // Of any two grants the later follows a write that ended the earlier turn: its own finish, the end, the
  // requeueing or the deletion of its job, or a restart or fence that found it running.
  lemma LaterGrantFollowsClose(w: World, ops: seq<Operation>, i: nat, j: nat) returns (k: nat)
    requires NonePaused(w) && Possible(w, ops) && i < j < |ops| && Grant(w, ops, i) && Grant(w, ops, j)
    ensures Point(w, ops, i + 1) <= k < Point(w, ops, j) <= |Events(w, ops)|
    ensures var w' := DoAll(w, Events(w, ops)[..k]);
            Open(w', GrantedJob(w, ops, i)) && Closes(w', Events(w, ops)[k], GrantedJob(w, ops, i))
  {
    var es, job := Events(w, ops), GrantedJob(w, ops, i);
    GrantOpens(w, ops, i);
    GrantOpens(w, ops, j);
    PointsInOrder(w, ops, i + 1, i + 1);
    PointsInOrder(w, ops, i + 1, j);
    k := ClosingPoint(w, es, Point(w, ops, i + 1), Point(w, ops, j), job);
    RunIsRight(w, ops);
    RightPrefix(w, es, k);
    DoNext(w, es, k);
    WhatCloses(DoAll(w, es[..k]), es[k], job);
  }

  // ---- At most one open turn ----

  // At every point of a stretch of writes.
  ghost predicate OneOpenThroughout(w: World, es: seq<Event>) {
    OneOpen(DoAll(w, es)) && (es != [] ==> OneOpenThroughout(w, es[..|es| - 1]))
  }

  lemma {:induction false} ThroughoutPrefix(w: World, es: seq<Event>, k: nat)
    requires OneOpenThroughout(w, es) && k <= |es|
    ensures OneOpenThroughout(w, es[..k]) && OneOpen(DoAll(w, es[..k]))
  {
    if k == |es| {
      assert es[..k] == es;
    } else {
      assert es[..|es| - 1][..k] == es[..k];
      ThroughoutPrefix(w, es[..|es| - 1], k);
    }
  }

  lemma {:induction false} ThroughoutConcat(w: World, xs: seq<Event>, ys: seq<Event>)
    ensures OneOpenThroughout(w, xs + ys) <==> OneOpenThroughout(w, xs) && OneOpenThroughout(DoAll(w, xs), ys)
  {
    DoSplit(w, xs, ys);
    if ys == [] {
      assert xs + ys == xs;
      if OneOpenThroughout(w, xs) {
        ThroughoutPrefix(w, xs, |xs|);
        assert xs[..|xs|] == xs;
      }
    } else {
      ThroughoutConcat(w, xs, ys[..|ys| - 1]);
      assert (xs + ys)[..|xs + ys| - 1] == xs + ys[..|ys| - 1];
    }
  }

  // The only thing that can open a second turn: setting a job running whose old turn was never closed, while
  // another is open. A claim has made sure of it; attaching a run and a bare restart of a job do not look.
  ghost predicate Harmless(w: World, op: Operation) {
    match op
    case AttachRun(order, newId, ok, now, cut) =>
      order != [] && cut > 0 && All(w, op)[0].Start? ==> MayStart(w, order[0])
    case Single(e) => e.Start? && e.job in w.jobs ==> MayStart(w, e.job)
    case _ => true
  }

  ghost predicate AllHarmless(w: World, ops: seq<Operation>) {
    ops == [] || (AllHarmless(w, ops[..|ops| - 1]) && Harmless(After(w, ops[..|ops| - 1]), ops[|ops| - 1]))
  }

  // Every start in a stretch of writes may be made.
  ghost predicate StartsAllowed(w: World, es: seq<Event>) {
    es == [] || (StartsAllowed(w, es[..|es| - 1])
                 && (es[|es| - 1].Start? ==> MayStart(DoAll(w, es[..|es| - 1]), es[|es| - 1].job)))
  }

  lemma {:induction false} AllowedKeepOne(w: World, es: seq<Event>)
    requires OneOpen(w) && AllRight(w, es) && StartsAllowed(w, es)
    ensures OneOpenThroughout(w, es)
  {
    if es != [] {
      AllowedKeepOne(w, es[..|es| - 1]);
      OneOpenStep(DoAll(w, es[..|es| - 1]), es[|es| - 1]);
    }
  }

  lemma {:induction false} NoStartsAllowed(w: World, es: seq<Event>)
    requires forall i :: 0 <= i < |es| ==> !es[i].Start?
    ensures StartsAllowed(w, es)
  {
    if es != [] {
      NoStartsAllowed(w, es[..|es| - 1]);
    }
  }

  lemma AllowedLast(w: World, es: seq<Event>, e: Event)
    requires StartsAllowed(w, es) && (e.Start? ==> MayStart(DoAll(w, es), e.job))
    ensures StartsAllowed(w, es + [e])
  {
    assert (es + [e])[..|es|] == es;
  }

  lemma {:induction false} AllowedConcat(w: World, xs: seq<Event>, ys: seq<Event>)
    requires StartsAllowed(w, xs) && StartsAllowed(DoAll(w, xs), ys)
    ensures StartsAllowed(w, xs + ys)
  {
    if ys == [] {
      assert xs + ys == xs;
    } else {
      var init := ys[..|ys| - 1];
      AllowedConcat(w, xs, init);
      DoSplit(w, xs, init);
      assert (xs + ys)[..|xs + ys| - 1] == xs + init;
    }
  }

  lemma {:induction false} AllowedPrefix(w: World, es: seq<Event>, k: nat)
    requires StartsAllowed(w, es) && k <= |es|
    ensures StartsAllowed(w, es[..k])
  {
    if k == |es| {
      assert es[..k] == es;
    } else {
      assert es[..|es| - 1][..k] == es[..k];
      AllowedPrefix(w, es[..|es| - 1], k);
    }
  }

  // Finding or creating the job and setting it running.
  lemma StartAllowed(w: World, order: seq<string>, newId: string, more: seq<Event>)
    requires Orders(w, order) && newId !in w.jobs && OneOpen(w)
    requires more == EnsureRunning(w, Chosen(order, newId)) || more == []
    requires order != [] && more != [] ==> MayStart(w, order[0])
    ensures StartsAllowed(w, FindOrCreate(order, newId) + more)
  {
    var found, job := FindOrCreate(order, newId), Chosen(order, newId);
    NoStartsAllowed(w, found);
    assert found + [] == found;
    if more != [] {
      FoundMayStart(w, order, newId);
      AllowedLast(w, found, Start(job));
      AllowedLast(w, found + [Start(job)], Reset(job));
      Associative(found, [Start(job)], [Reset(job)]);
      assert more == [Start(job)] + [Reset(job)];
    }
  }

  lemma FoundMayStart(w: World, order: seq<string>, newId: string)
    requires order != [] ==> MayStart(w, order[0])
    ensures MayStart(DoAll(w, FindOrCreate(order, newId)), Chosen(order, newId))
  {
    if order == [] {
      assert [CreateJob(newId)][..0] == [];
      assert !LeftOver(DoAll(w, FindOrCreate(order, newId)), newId);
    }
  }

  lemma PruningStartsNothing(w: World, id: string, now: int, listing: seq<string>)
    ensures forall i :: 0 <= i < |Pruning(w, id, now, listing)| ==> !Pruning(w, id, now, listing)[i].Start?
  {
  }

  // A claim only starts a job when nothing is open.
  lemma ClaimStartsAllowed(w: World, id: string, input: string, now: int, listing: seq<string>, order: seq<string>, newId: string)
    requires OneOpen(w) && IsListing(w.registry, listing) && Orders(w, order) && newId !in w.jobs
    ensures StartsAllowed(w, Claim(w, id, input, now, listing, order, newId).events)
  {
    var prune := Pruning(w, id, now, listing);
    var w1 := DoAll(w, prune);
    PruningOutcome(w, id, now, listing);
    SameJobs(w, w1, order);
    PruningStartsNothing(w, id, now, listing);
    NoStartsAllowed(w, prune);
    DecideStartsAllowed(w1, id, input, now, order, newId);
    AllowedConcat(w, prune, Decide(w1, id, input, now, order, newId).events);
  }

  lemma SameJobs(w: World, w1: World, order: seq<string>)
    requires w1.jobs == w.jobs
    ensures (OneOpen(w) <==> OneOpen(w1)) && (Orders(w, order) <==> Orders(w1, order))
  {
    assert forall j :: Open(w, j) <==> Open(w1, j);
  }

  lemma DecideStartsAllowed(w: World, id: string, input: string, now: int, order: seq<string>, newId: string)
    requires OneOpen(w) && Orders(w, order) && newId !in w.jobs
    ensures StartsAllowed(w, Decide(w, id, input, now, order, newId).events)
  {
    FirstOpenFinds(w, order);
    var rest := Decide(w, id, input, now, order, newId);
    if rest.answer.Granted? {
      var job := Chosen(order, newId);
      BeginStartsAllowed(w, id, order, newId);
      if id == "" {
        assert rest.events == Begin(w, id, order, newId) + [] == Begin(w, id, order, newId);
      } else {
        AllowedLast(w, Begin(w, id, order, newId), Remember(id, input, job, now));
      }
    } else {
      NoStartsAllowed(w, rest.events);
    }
  }

  lemma BeginStartsAllowed(w: World, id: string, order: seq<string>, newId: string)
    requires OneOpen(w) && NoneOpen(w) && Orders(w, order) && newId !in w.jobs
    ensures StartsAllowed(w, Begin(w, id, order, newId))
  {
    var job := Chosen(order, newId);
    StartAllowed(w, order, newId, EnsureRunning(w, job));
    AllowedLast(w, FindOrCreate(order, newId) + EnsureRunning(w, job), OpenTurn(job, id));
  }

  lemma AttachStartsAllowed(w: World, order: seq<string>, newId: string, ok: bool, now: int)
    requires OneOpen(w) && Orders(w, order) && newId !in w.jobs
    requires order != [] && Attaching(w, order, newId, ok, now)[0].Start? ==> MayStart(w, order[0])
    ensures StartsAllowed(w, Attaching(w, order, newId, ok, now))
  {
    var job := Chosen(order, newId);
    var cancelled := job in w.jobs && w.jobs[job].cancelRequested;
    var run := if cancelled then [] else EnsureRunning(w, job);
    StartAllowed(w, order, newId, run);
    AllowedLast(w, FindOrCreate(order, newId) + run, EndJob(job, if cancelled then Cancelled else if ok then Succeeded else Failed, now));
  }

  // Any other operation starts no job; cut short, an operation has made fewer starts.
  lemma FinishStartsNothing(w: World, id: string, job: string, ok: bool, now: int, listing: seq<string>, later: int, relisting: seq<string>)
    ensures StartsAllowed(w, Finishing(w, id, job, ok, now, listing, later, relisting))
  {
    PruningStartsNothing(w, id, now, listing);
    PruningStartsNothing(DoAll(w, FinishUpTo(w, id, job, ok, now, listing)), id, later, relisting);
    NoStartsAllowed(w, Finishing(w, id, job, ok, now, listing, later, relisting));
  }

  lemma CutAllowed(w: World, op: Operation)
    requires StartsAllowed(w, All(w, op))
    ensures StartsAllowed(w, Writes(w, op))
  {
    if !op.Single? && op.cut < |All(w, op)| {
      AllowedPrefix(w, All(w, op), op.cut);
    }
  }

  lemma AttachHarmless(w: World, op: Operation)
    requires op.AttachRun? && OneOpen(w) && Finds(w, op) && Harmless(w, op)
    ensures StartsAllowed(w, Writes(w, op))
  {
    if op.cut > 0 {
      AttachStartsAllowed(w, op.order, op.newId, op.ok, op.now);
      CutAllowed(w, op);
    }
  }

  lemma HarmlessAllowed(w: World, op: Operation)
    requires OneOpen(w) && Finds(w, op) && Harmless(w, op)
    ensures StartsAllowed(w, Writes(w, op))
  {
    match op
    case ClaimTurn(id, input, now, listing, order, newId, _) =>
      ClaimStartsAllowed(w, id, input, now, listing, order, newId);
      CutAllowed(w, op);
    case FinishTurn(id, job, ok, now, listing, later, relisting, _) =>
      FinishStartsNothing(w, id, job, ok, now, listing, later, relisting);
      CutAllowed(w, op);
    case CloseSnapshot(job, request, ok, now, _) =>
      NoStartsAllowed(w, Closing(w, job, request, ok, now));
      CutAllowed(w, op);
    case AttachRun(_, _, _, _, _) =>
      AttachHarmless(w, op);
    case CloseRestart(id, candidate, frame, now, _) =>
      NoStartsAllowed(w, CloseRestarted(w, id, candidate, frame, now));
      CutAllowed(w, op);
    case Single(e) =>
      AllowedLast(w, [], e);
      assert [] + [e] == [e];
  }

  lemma FirstWriteOpens(w: World, es: seq<Event>)
    requires OneOpenThroughout(w, es) && OneOpen(w) && NonePaused(w)
    requires es != [] && es[0].Start? && es[0].job in w.jobs
    ensures MayStart(w, es[0].job)
  {
    ThroughoutPrefix(w, es, 1);
    DoNext(w, es, 0);
    RestartedJobMayReopen(w, es[0].job);
  }

  lemma OperationKeepsOne(w: World, op: Operation)
    requires OneOpen(w) && NonePaused(w) && Finds(w, op)
    ensures OneOpenThroughout(w, Writes(w, op)) <==> Harmless(w, op)
  {
    var es := Writes(w, op);
    if Harmless(w, op) {
      HarmlessAllowed(w, op);
      WritesAreRight(w, op);
      AllowedKeepOne(w, es);
    } else if OneOpenThroughout(w, es) {
      if op.AttachRun? {
        assert op.order[0] in op.order;
      }
      FirstWriteOpens(w, es);
    }
  }

  // At every point of a run at most one turn of the session is open, if and only if no job with a left-over
  // turn is set running, other than by a claim, while another turn is open.
  lemma {:induction false} AtMostOneOpenTurn(w: World, ops: seq<Operation>)
    requires OneOpen(w) && NonePaused(w) && Possible(w, ops)
    ensures OneOpenThroughout(w, Events(w, ops)) <==> AllHarmless(w, ops)
  {
    if ops != [] {
      var init, last := ops[..|ops| - 1], ops[|ops| - 1];
      AtMostOneOpenTurn(w, init);
      ThroughoutConcat(w, Events(w, init), Writes(After(w, init), last));
      if OneOpenThroughout(w, Events(w, init)) {
        NeverPaused(w, Events(w, init));
        OperationKeepsOne(After(w, init), last);
      }
    }
  }
}
