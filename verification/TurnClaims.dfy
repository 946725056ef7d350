// Claiming, finishing and cancelling the turns of one session, one persistent write at a time
// (jobs/lifecycle.py, lines 174-361, 421-470 and 570-650; jobs/store.py, lines 135-200 and 325-396).
module TurnClaims {
  import opened Prelude
  import JobExecution
  import opened TurnRegistry

  // The session's registry and the jobs that carry its id.
  datatype World = World(registry: Registry, jobs: Jobs)

  datatype Event =
    | Keep(now: int, step: Step)
    | CreateJob(job: string)
    | Start(job: string)
    | Reset(job: string)
    | OpenTurn(job: string, request: string)
    | Remember(id: string, input: string, job: string, now: int)
    | FinishRecord(id: string, job: string, ok: bool, now: int)
    | CloseTurn(job: string, request: string, ok: bool)
    | EndJob(job: string, outcome: Outcome, now: int)
    | SetEnded(job: string, outcome: Outcome, now: int)
    | Recreate(id: string, record: Record)
    | Rewrite(id: string, status: Outcome, now: int)
    | Flag(id: string)
    | RequestCancel(job: string, expected: string)
    | Requeue(job: string)
    | CancelQueued(job: string)
    | Restart(job: string, now: int)
    | Fence(job: string, now: int)
    | DeleteSoft(job: string)
    | DeleteHard(job: string)

  function Ending(o: Outcome): JobExecution.Status {
    match o
    case Running => JobExecution.Running
    case Succeeded => JobExecution.Succeeded
    case Failed => JobExecution.Failed
    case Cancelled => JobExecution.Cancelled
  }

  function ActiveRequest(j: SessionJob): string {
    if j.active.Some? then j.active.value.request else ""
  }

  // A finish for another request than the one under way.
  predicate Stale(j: SessionJob, request: string) {
    request != "" && ActiveRequest(j) != "" && ActiveRequest(j) != request
  }

  // The first write of `finish_session_turn_snapshot`.
  function Close(j: SessionJob, request: string, ok: bool): SessionJob {
    if Stale(j, request) then j
    else
      var outcome := if j.cancelRequested then Cancelled else if ok then Succeeded else Failed;
      j.(active := Some(Turn(ActiveRequest(j), outcome)))
  }

  // The record that `finish_claimed_session_turn` writes.
  function Finish(w: World, id: string, job: string, ok: bool, now: int): Registry {
    if id !in w.registry || (job != "" && w.registry[id].jobId != job) then w.registry
    else
      var cancelled := job in w.jobs && (w.jobs[job].cancelRequested || w.jobs[job].status == JobExecution.Cancelled);
      w.registry[id := w.registry[id].(
        status := if cancelled then Cancelled else if ok then Succeeded else Failed,
        updated := now, finished := Some(now))]
  }

  // `reconcile_running_jobs`, for one job.
  function Interrupted(j: SessionJob, now: int): SessionJob {
    if j.status != JobExecution.Running then j
    else
      var outcome := if j.cancelRequested then Cancelled else Failed;
      j.(status := Ending(outcome), finished := Some(now),
         active := if j.active.Some? && j.active.value.status == Running
                   then Some(j.active.value.(status := outcome)) else j.active)
  }

  // `fence_reclaimed_running_job`
  function Fenced(j: SessionJob, now: int): SessionJob {
    if j.status != JobExecution.Running then j
    else j.(status := JobExecution.Failed, finished := Some(now),
            active := Some(Turn(ActiveRequest(j), Failed)))
  }

  function JobAfter(j: SessionJob, e: Event): SessionJob {
    match e
    case Start(_) =>
      if j.status in {JobExecution.Running, JobExecution.Paused} then j else j.(status := JobExecution.Running)
    case Reset(_) => j.(cancelRequested := false, finished := None)
    case OpenTurn(_, request) => j.(active := Some(Turn(request, Running)))
    case CloseTurn(_, request, ok) => Close(j, request, ok)
    case EndJob(_, outcome, now) =>
      if outcome == Running || !JobExecution.Permitted(j.status, Ending(outcome)) then j
      else j.(status := Ending(outcome), finished := Some(now), cancelRequested := j.cancelRequested || outcome == Cancelled)
    case SetEnded(_, outcome, now) =>
      if outcome == Running then j else j.(status := Ending(outcome), finished := Some(now))
    case RequestCancel(_, expected) =>
      if j.status != JobExecution.Running || (expected != "" && ActiveRequest(j) != expected) then j
      else j.(cancelRequested := true)
    case Requeue(_) => j.(status := JobExecution.Queued, cancelRequested := false)
    case CancelQueued(_) => if j.status == JobExecution.Queued then j.(status := JobExecution.Cancelled) else j
    case Restart(_, now) => Interrupted(j, now)
    case Fence(_, now) => Fenced(j, now)
    case DeleteSoft(_) => j.(status := JobExecution.Cancelled, cancelRequested := true)
    case _ => j
  }

  predicate OnJob(e: Event) {
    e.Start? || e.Reset? || e.OpenTurn? || e.CloseTurn? || e.EndJob? || e.SetEnded? || e.RequestCancel? || e.Requeue?
    || e.CancelQueued? || e.Restart? || e.Fence? || e.DeleteSoft?
  }

  function Do(w: World, e: Event): World {
    if OnJob(e) then
      if e.job in w.jobs then w.(jobs := w.jobs[e.job := JobAfter(w.jobs[e.job], e)]) else w
    else
      match e
      case Keep(_, step) => w.(registry := Apply(w.registry, step))
      case CreateJob(j) => w.(jobs := w.jobs[j := SessionJob(JobExecution.Created, false, None, None)])
      case Remember(id, input, j, now) => w.(registry := w.registry[id := Record(j, input, Running, now, None)])
      case FinishRecord(id, j, ok, now) => w.(registry := Finish(w, id, j, ok, now))
      case Recreate(id, record) => w.(registry := w.registry[id := record])
      case Rewrite(id, status, now) =>
        if id in w.registry then w.(registry := w.registry[id := w.registry[id].(status := status, updated := now)]) else w
      case DeleteHard(j) => w.(jobs := w.jobs - {j})
      case _ => w
  }

  function DoAll(w: World, es: seq<Event>): World {
    if es == [] then w else Do(DoAll(w, es[..|es| - 1]), es[|es| - 1])
  }

  // ---- What the code checks before it writes ----

  // A granted turn is under way.
  predicate Open(w: World, j: string) {
    && j in w.jobs && w.jobs[j].status == JobExecution.Running
    && w.jobs[j].active.Some? && w.jobs[j].active.value.status == Running
  }

  ghost predicate NoOtherOpen(w: World, j: string) {
    forall k :: k in w.jobs && k != j ==> !Open(w, k)
  }

  ghost predicate NoneOpen(w: World) {
    forall j :: j in w.jobs ==> !Open(w, j)
  }

  predicate LeftOver(w: World, j: string) {
    j in w.jobs && w.jobs[j].active.Some? && w.jobs[j].active.value.status == Running
  }

  ghost predicate Right(w: World, e: Event) {
    match e
    case Keep(now, step) => Legal(w.registry, w.jobs, now, step)
    case CreateJob(j) => j !in w.jobs
    case OpenTurn(j, _) => j in w.jobs && NoOtherOpen(w, j)
    case Remember(id, _, _, _) => id != "" && id !in w.registry
    case Recreate(id, record) => id !in w.registry && record.status != Running
    case Rewrite(id, status, _) => status != Running && (id in w.registry ==> w.registry[id].status != Running)
    case _ => true
  }

  ghost predicate AllRight(w: World, es: seq<Event>) {
    es == [] || (AllRight(w, es[..|es| - 1]) && Right(DoAll(w, es[..|es| - 1]), es[|es| - 1]))
  }

  lemma {:induction false} RightPrefix(w: World, es: seq<Event>, k: nat)
    requires AllRight(w, es) && k <= |es|
    ensures AllRight(w, es[..k])
    ensures k < |es| ==> Right(DoAll(w, es[..k]), es[k])
  {
    if k == |es| {
      assert es[..k] == es;
    } else if k < |es| - 1 {
      assert es[..|es| - 1][..k] == es[..k];
      RightPrefix(w, es[..|es| - 1], k);
    }
  }

  lemma DoNext(w: World, es: seq<Event>, k: nat)
    requires k < |es|
    ensures DoAll(w, es[..k + 1]) == Do(DoAll(w, es[..k]), es[k])
  {
    assert es[..k + 1][..k] == es[..k] && es[..k + 1][k] == es[k];
  }

  // No job of a session is paused: nothing pauses one.
  ghost predicate NonePaused(w: World) {
    forall j :: j in w.jobs ==> w.jobs[j].status != JobExecution.Paused
  }

  lemma {:induction false} NeverPaused(w: World, es: seq<Event>)
    requires NonePaused(w)
    ensures NonePaused(DoAll(w, es))
  {
    if es != [] {
      NeverPaused(w, es[..|es| - 1]);
    }
  }

  // ---- Records ----

  // A record never returns to running, and one whose job has not ended is never evicted.
  ghost predicate RecordKept(w: World, e: Event, id: string)
    requires id in w.registry
  {
    var w' := Do(w, e);
    && (id in w'.registry && w.registry[id].status != Running ==> w'.registry[id].status != Running)
    && (id !in w'.registry ==> e.Keep? && e.step == Drop(id) && w.registry[id].status != Running
                               && (Expired(w.registry, id, e.now) || Outranked(w.registry, id)))
    && (id in w'.registry && w'.registry[id].status != w.registry[id].status && e.Keep? ==>
          Reconcile(w.jobs, id, w.registry[id], e.now) == Some(w'.registry[id]))
  }

  lemma RecordStep(w: World, e: Event, id: string)
    requires Right(w, e) && id in w.registry
    ensures RecordKept(w, e, id)
  {
  }

  lemma {:induction false} EvictionPoint(w: World, es: seq<Event>, a: nat, b: nat, id: string) returns (k: nat)
    requires a <= b <= |es| && id in DoAll(w, es[..a]).registry && id !in DoAll(w, es[..b]).registry
    ensures a <= k < b && id in DoAll(w, es[..k]).registry && id !in DoAll(w, es[..k + 1]).registry
    decreases b - a
  {
    if id in DoAll(w, es[..b - 1]).registry {
      k := b - 1;
    } else {
      k := EvictionPoint(w, es, a, b - 1, id);
    }
  }

  // A record that had ended, and was older than seven days or outranked by 256 retained records at least as new.
  ghost predicate Evicts(w: World, e: Event, id: string) {
    && e.Keep? && e.step == Drop(id)
    && id in w.registry && w.registry[id].status != Running
    && (Expired(w.registry, id, e.now) || Outranked(w.registry, id))
  }

  // A key that is remembered twice has been evicted in between.
  lemma RememberedTwice(w: World, es: seq<Event>, i: nat, j: nat, id: string) returns (k: nat)
    requires AllRight(w, es) && i < j < |es|
    requires es[i].Remember? && es[j].Remember? && es[i].id == id && es[j].id == id
    ensures i < k < j && Evicts(DoAll(w, es[..k]), es[k], id)
  {
    DoNext(w, es, i);
    RightPrefix(w, es, j);
    k := EvictionPoint(w, es, i + 1, j, id);
    RightPrefix(w, es, k);
    DoNext(w, es, k);
    RecordStep(DoAll(w, es[..k]), es[k], id);
  }

  lemma {:induction false} DoSplit(w: World, xs: seq<Event>, ys: seq<Event>)
    ensures DoAll(w, xs + ys) == DoAll(DoAll(w, xs), ys)
  {
    if ys == [] {
      assert xs + ys == xs;
    } else {
      assert (xs + ys)[..|xs + ys| - 1] == xs + ys[..|ys| - 1];
      DoSplit(w, xs, ys[..|ys| - 1]);
    }
  }

  // ---- Open turns ----

  ghost predicate OneOpen(w: World) {
    forall j, k :: Open(w, j) && Open(w, k) ==> j == k
  }

  // Setting a job running does not reopen an old turn beside another one.
  ghost predicate MayStart(w: World, j: string) {
    NoOtherOpen(w, j) || !LeftOver(w, j)
  }

  lemma OneOpenStep(w: World, e: Event)
    requires OneOpen(w) && Right(w, e) && (e.Start? ==> MayStart(w, e.job))
    ensures OneOpen(Do(w, e))
  {
    var w' := Do(w, e);
    forall j | Open(w', j) && !Open(w, j) ensures (e.Start? || e.OpenTurn?) && e.job == j && NoOtherOpen(w, j) {
    }
  }

  // Setting a job running again is safe exactly when it has no left-over turn or no other turn is open.
  lemma RestartedJobMayReopen(w: World, j: string)
    requires OneOpen(w) && NonePaused(w) && j in w.jobs
    ensures OneOpen(Do(w, Start(j))) <==> MayStart(w, j)
  {
    if LeftOver(w, j) && !NoOtherOpen(w, j) {
      var k :| k in w.jobs && k != j && Open(w, k);
      var w' := Do(w, Start(j));
      assert Open(w', k) && Open(w', j);
    } else {
      OneOpenStep(w, Start(j));
    }
  }

  // Only these end an open turn; a finish for another request does not.
  predicate Closes(w: World, e: Event, j: string)
    requires Open(w, j)
  {
    && (e.CloseTurn? || e.EndJob? || e.SetEnded? || e.Requeue? || e.Restart? || e.Fence? || e.DeleteSoft? || e.DeleteHard?) && e.job == j
    && (e.CloseTurn? ==> !Stale(w.jobs[j], e.request))
  }

  lemma WhatCloses(w: World, e: Event, j: string)
    requires Right(w, e) && Open(w, j) && !Open(Do(w, e), j)
    ensures Closes(w, e, j)
  {
  }

  lemma StaleFinishClosesNothing(w: World, j: string, request: string, ok: bool)
    requires j in w.jobs && Stale(w.jobs[j], request)
    ensures Do(w, CloseTurn(j, request, ok)) == w
  {
    assert w.jobs[j := w.jobs[j]] == w.jobs;
  }

  lemma {:induction false} ClosingPoint(w: World, es: seq<Event>, a: nat, b: nat, j: string) returns (k: nat)
    requires a <= b <= |es| && Open(DoAll(w, es[..a]), j) && !Open(DoAll(w, es[..b]), j)
    ensures a <= k < b && Open(DoAll(w, es[..k]), j) && !Open(DoAll(w, es[..k + 1]), j)
    decreases b - a
  {
    if Open(DoAll(w, es[..b - 1]), j) {
      k := b - 1;
    } else {
      k := ClosingPoint(w, es, a, b - 1, j);
    }
  }

  // ---- Claiming ----

  datatype Answer =
    | Granted(job: string)
    | Busy(job: string)
    | Mismatch(job: string)
    | Known(job: string, status: Outcome)

  datatype Claiming = Claiming(events: seq<Event>, answer: Answer)

  function Kept(now: int, steps: seq<Step>): (es: seq<Event>)
    ensures |es| == |steps| && forall i :: 0 <= i < |steps| ==> es[i] == Keep(now, steps[i])
  {
    seq(|steps|, i requires 0 <= i < |steps| => Keep(now, steps[i]))
  }

  // `_running_session_turn_unlocked`: the first open job, in listing order.
  function FirstOpen(w: World, order: seq<string>): Option<string> {
    if order == [] then None else if Open(w, order[0]) then Some(order[0]) else FirstOpen(w, order[1..])
  }

  // `_ensure_running`: the two updates of `mark_running`, or nothing.
  function EnsureRunning(w: World, j: string): seq<Event> {
    if j in w.jobs && w.jobs[j].status in {JobExecution.Running, JobExecution.Paused} then [] else [Start(j), Reset(j)]
  }

  // `_find_or_create_job`
  function FindOrCreate(order: seq<string>, newId: string): seq<Event> {
    if order == [] then [CreateJob(newId)] else []
  }

  // `_begin_session_turn_unlocked`
  function Begin(w: World, id: string, order: seq<string>, newId: string): seq<Event> {
    FindOrCreate(order, newId) + EnsureRunning(w, Chosen(order, newId)) + [OpenTurn(Chosen(order, newId), id)]
  }

  function Chosen(order: seq<string>, newId: string): string {
    if order == [] then newId else order[0]
  }

  // What is done about a remembered key.
  function Recall(w: World, id: string, input: string, now: int): Claiming
    requires id in w.registry
  {
    var r := w.registry[id];
    if r.input != input then Claiming([], Mismatch(r.jobId))
    else
      var folded := Reconcile(w.jobs, id, r, now);
      if folded.Some? then Claiming([Keep(now, Fold(id, folded.value))], Known(r.jobId, folded.value.status))
      else Claiming([], Known(r.jobId, r.status))
  }

  // The claim proper, once the registry has been pruned.
  function Decide(w: World, id: string, input: string, now: int, order: seq<string>, newId: string): Claiming {
    if id != "" && id in w.registry then Recall(w, id, input, now)
    else if FirstOpen(w, order).Some? then Claiming([], Busy(FirstOpen(w, order).value))
    else
      var job := Chosen(order, newId);
      Claiming(Begin(w, id, order, newId) + if id == "" then [] else [Remember(id, input, job, now)], Granted(job))
  }

  function Pruning(w: World, id: string, now: int, listing: seq<string>): seq<Event> {
    if id == "" then [] else Kept(now, Prune(w.registry, w.jobs, listing, now))
  }

  // `_claim_session_turn_request`; `listing` and `order` are how the registry and the jobs are scanned.
  function Claim(w: World, id: string, input: string, now: int, listing: seq<string>, order: seq<string>, newId: string): Claiming {
    var prune := Pruning(w, id, now, listing);
    var rest := Decide(DoAll(w, prune), id, input, now, order, newId);
    Claiming(prune + rest.events, rest.answer)
  }

  ghost predicate Orders(w: World, order: seq<string>) {
    forall j :: j in order <==> j in w.jobs
  }

  lemma {:induction false} FirstOpenFinds(w: World, order: seq<string>)
    ensures FirstOpen(w, order).Some? ==> FirstOpen(w, order).value in order && Open(w, FirstOpen(w, order).value)
    ensures FirstOpen(w, order).None? ==> forall j :: j in order ==> !Open(w, j)
  {
    if order != [] {
      FirstOpenFinds(w, order[1..]);
      assert order == [order[0]] + order[1..];
    }
  }

  lemma {:induction false} KeptEffect(w: World, now: int, steps: seq<Step>)
    ensures DoAll(w, Kept(now, steps)) == w.(registry := ApplyAll(w.registry, steps))
    ensures AllLegal(w.registry, w.jobs, now, steps) ==> AllRight(w, Kept(now, steps))
  {
    if steps != [] {
      KeptEffect(w, now, steps[..|steps| - 1]);
      assert Kept(now, steps)[..|steps| - 1] == Kept(now, steps[..|steps| - 1]);
    }
  }

  lemma RightLast(w: World, es: seq<Event>, e: Event)
    requires AllRight(w, es) && Right(DoAll(w, es), e)
    ensures AllRight(w, es + [e]) && DoAll(w, es + [e]) == Do(DoAll(w, es), e)
  {
    assert (es + [e])[..|es|] == es;
  }

  lemma {:induction false} RightConcat(w: World, xs: seq<Event>, ys: seq<Event>)
    requires AllRight(w, xs) && AllRight(DoAll(w, xs), ys)
    ensures AllRight(w, xs + ys)
  {
    if ys == [] {
      assert xs + ys == xs;
    } else {
      var init := ys[..|ys| - 1];
      RightConcat(w, xs, init);
      DoSplit(w, xs, init);
      assert (xs + ys)[..|xs + ys| - 1] == xs + init;
    }
  }

  lemma BeginOpens(w: World, id: string, order: seq<string>, newId: string)
    requires NonePaused(w) && NoneOpen(w) && Orders(w, order) && newId !in w.jobs
    ensures var w' := DoAll(w, Begin(w, id, order, newId));
            var job := Chosen(order, newId);
            && AllRight(w, Begin(w, id, order, newId)) && w'.registry == w.registry
            && Open(w', job) && ActiveRequest(w'.jobs[job]) == id
  {
    var job := Chosen(order, newId);
    var found, run := FindOrCreate(order, newId), EnsureRunning(w, job);
    FoundJob(w, order, newId);
    SetRunning(w, found, job, run);
    RightLast(w, found + run, OpenTurn(job, id));
  }

  // The job the turn goes on: found or just created.
  lemma FoundJob(w: World, order: seq<string>, newId: string)
    requires Orders(w, order) && newId !in w.jobs
    ensures var job, w1 := Chosen(order, newId), DoAll(w, FindOrCreate(order, newId));
            && AllRight(w, FindOrCreate(order, newId)) && job in w1.jobs && w1.registry == w.registry
            && (forall j :: j in w1.jobs && j != job ==> j in w.jobs && w1.jobs[j] == w.jobs[j])
            && (job in w.jobs ==> w1 == w) && (job !in w.jobs ==> w1.jobs[job].status == JobExecution.Created)
  {
    if order == [] {
      RightLast(w, [], CreateJob(newId));
      assert [] + [CreateJob(newId)] == [CreateJob(newId)];
    } else {
      assert order[0] in order;
    }
  }

  lemma SetRunning(w: World, found: seq<Event>, job: string, run: seq<Event>)
    requires NonePaused(w) && NoneOpen(w) && AllRight(w, found) && run == EnsureRunning(w, job)
    requires var w1 := DoAll(w, found);
             && job in w1.jobs && w1.registry == w.registry
             && (forall j :: j in w1.jobs && j != job ==> j in w.jobs && w1.jobs[j] == w.jobs[j])
             && (job in w.jobs ==> w1 == w) && (job !in w.jobs ==> w1.jobs[job].status == JobExecution.Created)
    ensures var w2 := DoAll(w, found + run);
            && AllRight(w, found + run) && w2.registry == w.registry
            && job in w2.jobs && w2.jobs[job].status == JobExecution.Running && NoOtherOpen(w2, job)
  {
    if run == [] {
      assert found + run == found;
    } else {
      RightLast(w, found, Start(job));
      RightLast(w, found + [Start(job)], Reset(job));
      assert found + [Start(job)] + [Reset(job)] == found + run;
    }
  }

  // What a claim has to do with a grant: the key is not remembered, no turn is open, and afterwards both are.
  ghost predicate Grants(w: World, w': World, id: string, input: string, now: int, job: string) {
    && (id == "" || id !in w.registry) && NoneOpen(w)
    && Open(w', job) && ActiveRequest(w'.jobs[job]) == id
    && (id != "" ==> id in w'.registry && w'.registry[id] == Record(job, input, Running, now, None))
  }

  ghost predicate Answers(w: World, w': World, id: string, input: string, now: int, answer: Answer) {
    match answer
    case Granted(job) => Grants(w, w', id, input, now, job)
    case Busy(job) => w' == w && Open(w, job)
    case Mismatch(job) => w' == w && id in w.registry && w.registry[id].input != input && w.registry[id].jobId == job
    case Known(job, status) =>
      w'.jobs == w.jobs && id in w.registry && id in w'.registry && w.registry[id].input == input
      && w'.registry[id].status == status && w'.registry[id].jobId == job
  }

  lemma DecideOutcome(w: World, id: string, input: string, now: int, order: seq<string>, newId: string)
    requires NonePaused(w) && Orders(w, order) && newId !in w.jobs
    ensures var c := Decide(w, id, input, now, order, newId);
            && AllRight(w, c.events) && Answers(w, DoAll(w, c.events), id, input, now, c.answer)
            && (c.answer.Granted? <==> (id == "" || id !in w.registry) && NoneOpen(w))
  {
    if id != "" && id in w.registry {
      RecallOutcome(w, id, input, now);
    } else {
      FirstOpenFinds(w, order);
      if FirstOpen(w, order).None? {
        GrantOutcome(w, id, input, now, order, newId);
      }
    }
  }

  lemma RecallOutcome(w: World, id: string, input: string, now: int)
    requires id in w.registry
    ensures var c := Recall(w, id, input, now);
            AllRight(w, c.events) && Answers(w, DoAll(w, c.events), id, input, now, c.answer) && !c.answer.Granted?
  {
    var folded := Reconcile(w.jobs, id, w.registry[id], now);
    if w.registry[id].input == input && folded.Some? {
      RightLast(w, [], Keep(now, Fold(id, folded.value)));
      assert [] + [Keep(now, Fold(id, folded.value))] == [Keep(now, Fold(id, folded.value))];
    }
  }

  lemma GrantOutcome(w: World, id: string, input: string, now: int, order: seq<string>, newId: string)
    requires NonePaused(w) && NoneOpen(w) && Orders(w, order) && newId !in w.jobs && (id == "" || id !in w.registry)
    ensures var job := Chosen(order, newId);
            var es := Begin(w, id, order, newId) + if id == "" then [] else [Remember(id, input, job, now)];
            AllRight(w, es) && Grants(w, DoAll(w, es), id, input, now, job)
  {
    BeginOpens(w, id, order, newId);
    var es := Begin(w, id, order, newId);
    if id == "" {
      assert es + [] == es;
    } else {
      RightLast(w, es, Remember(id, input, Chosen(order, newId), now));
    }
  }

  // Every write of a claim is right when it happens, so it may be cut short anywhere; it grants a turn exactly
  // if the key is not remembered and no turn is open, and its answer is true of what it leaves.
  lemma ClaimOutcome(w: World, id: string, input: string, now: int, listing: seq<string>, order: seq<string>, newId: string)
    requires NonePaused(w) && IsListing(w.registry, listing) && Orders(w, order) && newId !in w.jobs
    ensures var c := Claim(w, id, input, now, listing, order, newId);
            var w1 := DoAll(w, Pruning(w, id, now, listing));
            && AllRight(w, c.events) && w1.jobs == w.jobs
            && Answers(w1, DoAll(w, c.events), id, input, now, c.answer)
            && (c.answer.Granted? <==> (id == "" || id !in w1.registry) && NoneOpen(w))
  {
    PruningOutcome(w, id, now, listing);
    var prune := Pruning(w, id, now, listing);
    var w1 := DoAll(w, prune);
    assert NoneOpen(w1) <==> NoneOpen(w);
    DecideOutcome(w1, id, input, now, order, newId);
    AfterPruning(w, prune, Decide(w1, id, input, now, order, newId).events);
  }

  lemma PruningOutcome(w: World, id: string, now: int, listing: seq<string>)
    requires IsListing(w.registry, listing)
    ensures AllRight(w, Pruning(w, id, now, listing))
    ensures DoAll(w, Pruning(w, id, now, listing)).jobs == w.jobs
  {
    PruneLegal(w.registry, w.jobs, listing, now);
    KeptEffect(w, now, Prune(w.registry, w.jobs, listing, now));
  }

  lemma AfterPruning(w: World, prune: seq<Event>, rest: seq<Event>)
    requires AllRight(w, prune) && AllRight(DoAll(w, prune), rest)
    ensures AllRight(w, prune + rest) && DoAll(w, prune + rest) == DoAll(DoAll(w, prune), rest)
  {
    RightConcat(w, prune, rest);
    DoSplit(w, prune, rest);
  }

  // ---- Finishing ----

  predicate Finishes(w: World, id: string, job: string) {
    id in w.registry && (job == "" || w.registry[id].jobId == job)
  }

  // `finish_claimed_session_turn`: a prune, the record, a second prune.
  function FinishUpTo(w: World, id: string, job: string, ok: bool, now: int, listing: seq<string>): seq<Event> {
    var prune := Pruning(w, id, now, listing);
    prune + if Finishes(DoAll(w, prune), id, job) then [FinishRecord(id, job, ok, now)] else []
  }

  function Finishing(w: World, id: string, job: string, ok: bool, now: int, listing: seq<string>,
                     later: int, relisting: seq<string>): seq<Event> {
    if id == "" then []
    else
      var first := FinishUpTo(w, id, job, ok, now, listing);
      if Finishes(DoAll(w, Pruning(w, id, now, listing)), id, job)
      then first + Pruning(DoAll(w, first), id, later, relisting) else first
  }

  lemma PruneAgain(w: World, first: seq<Event>, id: string, later: int, relisting: seq<string>)
    requires AllRight(w, first) && IsListing(DoAll(w, first).registry, relisting)
    ensures var again := Pruning(DoAll(w, first), id, later, relisting);
            AllRight(w, first + again) && DoAll(w, first + again).jobs == DoAll(w, first).jobs
  {
    PruningOutcome(DoAll(w, first), id, later, relisting);
    AfterPruning(w, first, Pruning(DoAll(w, first), id, later, relisting));
  }

  // It writes rightly throughout, and changes no job.
  lemma FinishingOutcome(w: World, id: string, job: string, ok: bool, now: int, listing: seq<string>,
                         later: int, relisting: seq<string>)
    requires IsListing(w.registry, listing)
    requires IsListing(DoAll(w, FinishUpTo(w, id, job, ok, now, listing)).registry, relisting)
    ensures AllRight(w, Finishing(w, id, job, ok, now, listing, later, relisting))
    ensures DoAll(w, Finishing(w, id, job, ok, now, listing, later, relisting)).jobs == w.jobs
  {
    if id != "" {
      var prune := Pruning(w, id, now, listing);
      PruningOutcome(w, id, now, listing);
      if Finishes(DoAll(w, prune), id, job) {
        RightLast(w, prune, FinishRecord(id, job, ok, now));
        PruneAgain(w, prune + [FinishRecord(id, job, ok, now)], id, later, relisting);
      } else {
        assert prune + [] == prune;
      }
    }
  }

  // `finish_session_turn_snapshot`: the turn is closed, then a requested cancellation ends the job.
  function Closing(w: World, job: string, request: string, ok: bool, now: int): seq<Event> {
    if job !in w.jobs || Stale(w.jobs[job], request) then []
    else [CloseTurn(job, request, ok)] + if w.jobs[job].cancelRequested then [EndJob(job, Cancelled, now)] else []
  }

  // `attach_run_to_session_job`
  function Attaching(w: World, order: seq<string>, newId: string, ok: bool, now: int): seq<Event> {
    var job := Chosen(order, newId);
    var cancelled := job in w.jobs && w.jobs[job].cancelRequested;
    FindOrCreate(order, newId) + (if cancelled then [] else EnsureRunning(w, job))
    + [EndJob(job, if cancelled then Cancelled else if ok then Succeeded else Failed, now)]
  }

  // ---- Closing what a restart left ----

  // `close_restarted_turns` for one request (agent/runtime/turn_closeout.py, lines 112-140). `candidate` is what was
  // read before the session lock was taken; `frame` is whether the turn's log ends in success, if it ends at all.
  function CloseRestarted(w: World, id: string, candidate: Record, frame: Option<bool>, now: int): seq<Event> {
    if id == "" then []
    else
      var first := Project(w, id, candidate, now);
      var r := Projected(w, id, candidate, now);
      if r.status == Running || frame.None? then first
      else
        var status := if r.status == Cancelled then Cancelled else if frame.value then Succeeded else Failed;
        first + Restate(id in w.registry || first != [], id, r, status, now)
        + CloseRestartedJob(w, r.jobId, id, status, frame.value, now)
  }

  // The record takes over how the log ends.
  function Restate(there: bool, id: string, r: Record, status: Outcome, now: int): seq<Event> {
    if there && r.status != status then [Rewrite(id, status, now)] else []
  }

  function Projected(w: World, id: string, candidate: Record, now: int): Record {
    var record := if id in w.registry then w.registry[id] else candidate;
    var folded := Reconcile(w.jobs, id, record, now);
    if folded.Some? then folded.value else record
  }

  // The record as its job ended, written even where it had been evicted since.
  function Project(w: World, id: string, candidate: Record, now: int): seq<Event> {
    var record := if id in w.registry then w.registry[id] else candidate;
    var folded := Reconcile(w.jobs, id, record, now);
    if folded.None? then []
    else if id in w.registry then [Keep(now, Fold(id, folded.value))] else [Recreate(id, folded.value)]
  }

  function CloseRestartedJob(w: World, job: string, id: string, status: Outcome, success: bool, now: int): seq<Event> {
    if job in w.jobs && w.jobs[job].active.Some? && w.jobs[job].active.value.request == id
       && (w.jobs[job].status != Ending(status) || w.jobs[job].active.value.status != status)
    then Closing(w, job, id, success, now) + [SetEnded(job, status, now)] else []
  }

  lemma ProjectRight(w: World, id: string, candidate: Record, now: int)
    ensures var first := Project(w, id, candidate, now);
            && AllRight(w, first) && DoAll(w, first).jobs == w.jobs
            && (id in DoAll(w, first).registry <==> id in w.registry || first != [])
            && (id in DoAll(w, first).registry ==> DoAll(w, first).registry[id] == Projected(w, id, candidate, now))
  {
    var first := Project(w, id, candidate, now);
    if first != [] {
      RightLast(w, [], first[0]);
      assert [] + [first[0]] == first;
    }
  }
}
