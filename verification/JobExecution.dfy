// One job, the callers that change it and the workers that execute it, against a queue that may deliver
// anything to anyone at any time (jobs/store.py, lines 70-200 and 306-396; jobs/manager.py, lines 13-49 and
// 80-265; jobs/runner.py, lines 11-55; jobs/worker.py, lines 62-134).
module JobExecution {
  import opened Prelude

  datatype Status = Created | Queued | Running | Paused | Succeeded | Failed | Cancelled

  datatype Job = Job(status: Status, cancelRequested: bool, retryCount: nat, maxRetries: nat)

  // The fields that `update_job` is given; it overwrites them whatever the job has become meanwhile.
  datatype Patch = Patch(status: Option<Status>, cancel: Option<bool>, retryCount: Option<nat>)

  // What a worker is doing with a delivery. `known`: the job was there when the delivery was read.
  datatype Phase = Received(attempt: int, known: bool) | Cleared | Executing

  // Manager operations that look at the job, decide, and update it afterwards without holding its lock.
  datatype Op =
    | Enqueue
    | Retry(force: bool)
    | MarkRunning
    | MarkSucceeded
    | MarkFailed
    | MarkCancelled
    | CancelQueued
    | Reconcile

  datatype Event =
    | Look(p: nat, op: Op)
    | Write(p: nat)
    | RequestCancel
    | SoftDelete
    | HardDelete
    | Deliver(p: nat, attempt: int)
    | CallRun(p: nat)
    | Fence(p: nat)
    | Claim(p: nat)
    | Return(p: nat)

  // `timesQueued` and `starts` count the updates that set the status to queued and the claims that started
  // a body; `retries` the former updates that were retries.
  datatype World = World(
    job: Option<Job>,
    pending: map<nat, seq<Patch>>,
    working: map<nat, Phase>,
    timesQueued: nat,
    retries: nat,
    starts: nat)

  // `ALLOWED_TRANSITIONS` and `PLANNED_TRANSITIONS`.
  predicate Allowed(current: Status, target: Status) {
    match current
    case Created => target in {Queued, Cancelled, Running}
    case Queued => target in {Running, Cancelled, Failed}
    case Running => target in {Succeeded, Failed, Cancelled, Paused}
    case Paused => target in {Running, Cancelled, Failed}
    case Failed => target in {Queued, Running, Cancelled}
    case Succeeded => target == Running
    case Cancelled => target == Running
  }

  // `_check_transition`
  predicate Permitted(current: Status, target: Status) {
    current == target || Allowed(current, target)
  }

  function StatusPatch(s: Status): Patch {
    Patch(Some(s), None, None)
  }

  // What an operation decides to write, from the job as it looks; nothing if it raises or has nothing to do.
  function Decide(job: Option<Job>, op: Op): seq<Patch> {
    if job.None? then []
    else
      var j := job.value;
      match op
      case Enqueue => if Permitted(j.status, Queued) then [StatusPatch(Queued)] else []
      case Retry(force) =>
        if (!force && !Permitted(j.status, Queued)) || j.retryCount >= j.maxRetries then []
        else [Patch(Some(Queued), Some(false), Some(j.retryCount + 1))]
      case MarkRunning =>
        if Permitted(j.status, Running) then [StatusPatch(Running), Patch(None, Some(false), None)] else []
      case MarkSucceeded => if Permitted(j.status, Succeeded) then [StatusPatch(Succeeded)] else []
      case MarkFailed => if Permitted(j.status, Failed) then [StatusPatch(Failed)] else []
      case MarkCancelled => if Permitted(j.status, Cancelled) then [Patch(Some(Cancelled), Some(true), None)] else []
      case CancelQueued => if j.status == Queued then [StatusPatch(Cancelled)] else []
      case Reconcile =>
        if j.status != Running then []
        else [Patch(Some(if j.cancelRequested then Cancelled else Failed), Some(j.cancelRequested), None)]
  }

  function Amend(j: Job, p: Patch): Job {
    j.(status := if p.status.Some? then p.status.value else j.status,
       cancelRequested := if p.cancel.Some? then p.cancel.value else j.cancelRequested,
       retryCount := if p.retryCount.Some? then p.retryCount.value else j.retryCount)
  }

  // `update_job`
  function Update(w: World, p: Patch): World {
    if w.job.None? then w
    else w.(job := Some(Amend(w.job.value, p)),
            timesQueued := w.timesQueued + if p.status == Some(Queued) then 1 else 0,
            retries := w.retries + if p.retryCount.Some? then 1 else 0)
  }

  function Step(w: World, e: Event): World {
    match e
    case Look(p, op) =>
      if p in w.pending && w.pending[p] != [] then w else w.(pending := w.pending[p := Decide(w.job, op)])
    case Write(p) =>
      if p !in w.pending || w.pending[p] == [] then w
      else Update(w, w.pending[p][0]).(pending := w.pending[p := w.pending[p][1..]])
    case RequestCancel =>
      if w.job.Some? && w.job.value.status == Running then w.(job := Some(w.job.value.(cancelRequested := true))) else w
    case SoftDelete => Update(w, Patch(Some(Cancelled), Some(true), None))
    case HardDelete => w.(job := None)
    case Deliver(p, attempt) => if p in w.working then w else w.(working := w.working[p := Received(attempt, w.job.Some?)])
    case CallRun(p) => if p in w.working then w else w.(working := w.working[p := Cleared])
    case Fence(p) =>
      if p !in w.working || !w.working[p].Received? then w
      else if w.working[p].attempt > 1 && w.job.Some? && w.job.value.status == Running then
        w.(job := Some(w.job.value.(status := Failed)), working := w.working - {p})
      else if !w.working[p].known then w.(working := w.working - {p})
      else w.(working := w.working[p := Cleared])
    case Claim(p) =>
      if p !in w.working || w.working[p] != Cleared then w
      else if w.job.None? || w.job.value.status != Queued then w.(working := w.working - {p})
      else w.(job := Some(w.job.value.(status := Running, cancelRequested := false)),
              working := w.working[p := Executing], starts := w.starts + 1)
    case Return(p) => if p in w.working && w.working[p] == Executing then w.(working := w.working - {p}) else w
  }

  function After(w: World, es: seq<Event>): World {
    if es == [] then w else Step(After(w, es[..|es| - 1]), es[|es| - 1])
  }

  function QueuedNow(w: World): nat {
    if w.job.Some? && w.job.value.status == Queued then 1 else 0
  }

  // A new job, just created.
  function Fresh(maxRetries: nat): World {
    World(Some(Job(Created, false, 0, maxRetries)), map[], map[], 0, 0, 0)
  }

  // ---- A body starts at most as often as the job is put into `queued` ----

  lemma StepBound(w: World, e: Event)
    ensures var w' := Step(w, e);
            && w'.timesQueued >= w.timesQueued
            && w'.starts + QueuedNow(w') <= w.starts + QueuedNow(w) + (w'.timesQueued - w.timesQueued)
  {
  }

  // Over any stretch of any interleaving.
  lemma {:induction false} StartsWithin(w: World, es: seq<Event>)
    ensures var w' := After(w, es);
            && w'.timesQueued >= w.timesQueued
            && w'.starts + QueuedNow(w') <= w.starts + QueuedNow(w) + (w'.timesQueued - w.timesQueued)
  {
    if es != [] {
      StartsWithin(w, es[..|es| - 1]);
      StepBound(After(w, es[..|es| - 1]), es[|es| - 1]);
    }
  }

  lemma StartsBounded(maxRetries: nat, es: seq<Event>)
    ensures var w := After(Fresh(maxRetries), es);
            w.starts + QueuedNow(w) <= w.timesQueued
  {
    StartsWithin(Fresh(maxRetries), es);
  }

  // A job that has left the queue is not started again by any delivery, however late, often or out of
  // order, unless someone puts it back.
  lemma DeliveriesAloneNeverRestart(w: World, es: seq<Event>)
    requires QueuedNow(w) == 0 && After(w, es).timesQueued == w.timesQueued
    ensures After(w, es).starts == w.starts
  {
    StartsWithin(w, es);
    StartsGrow(w, es);
  }

  lemma {:induction false} StartsGrow(w: World, es: seq<Event>)
    ensures w.starts <= After(w, es).starts
  {
    if es != [] {
      StartsGrow(w, es[..|es| - 1]);
    }
  }

  // Of all workers that hold a delivery, only one gets to start: the claims after the first find the job
  // running.
  lemma OneClaimWins(w: World, p: nat, q: nat)
    requires p != q && p in w.working && q in w.working && w.working[p] == Cleared && w.working[q] == Cleared
    ensures After(w, [Claim(p), Claim(q)]).starts == w.starts + QueuedNow(w)
    ensures q !in After(w, [Claim(p), Claim(q)]).working
  {
    var w1 := Step(w, Claim(p));
    AfterTwo(w, Claim(p), Claim(q));
  }

  lemma AfterTwo(w: World, a: Event, b: Event)
    ensures After(w, [a]) == Step(w, a)
    ensures After(w, [a, b]) == Step(Step(w, a), b)
  {
    assert [a][..0] == [];
    assert [a, b][..1] == [a];
  }

  // ---- Retries ----

  // `p` has decided to retry and not yet written it.
  predicate Retrying(w: World, p: nat) {
    p in w.pending && w.pending[p] != [] && w.pending[p][0].retryCount.Some?
  }

  // A look that ends in the decision to retry.
  predicate DecidesRetry(w: World, e: Event) {
    e.Look? && e.op.Retry? && (e.p in w.pending ==> w.pending[e.p] == []) && Decide(w.job, e.op) != []
  }

  // No retry is decided while another is still to be written.
  ghost predicate RetriesApart(w: World, es: seq<Event>) {
    es == [] ||
    (var before := After(w, es[..|es| - 1]);
     && RetriesApart(w, es[..|es| - 1])
     && (DecidesRetry(before, es[|es| - 1]) ==> forall p :: !Retrying(before, p)))
  }

  ghost predicate Counted(w: World, limit: nat) {
    && w.retries <= limit
    && (forall p, q :: Retrying(w, p) && Retrying(w, q) ==> p == q)
    && (forall p :: p in w.pending ==> forall i :: 0 < i < |w.pending[p]| ==> w.pending[p][i].retryCount.None?)
    && (w.job.Some? ==>
          && w.job.value.maxRetries == limit && w.job.value.retryCount == w.retries
          && forall p :: Retrying(w, p) ==>
               w.pending[p][0] == Patch(Some(Queued), Some(false), Some(w.retries + 1)) && w.retries < limit)
  }

  lemma DecideRetries(job: Option<Job>, op: Op)
    ensures forall i :: 0 < i < |Decide(job, op)| ==> Decide(job, op)[i].retryCount.None?
    ensures Decide(job, op) != [] && Decide(job, op)[0].retryCount.Some? ==>
              op.Retry? && job.Some? && Decide(job, op)[0] == Patch(Some(Queued), Some(false), Some(job.value.retryCount + 1))
              && job.value.retryCount < job.value.maxRetries
  {
  }

  lemma LookCounted(w: World, p: nat, op: Op, limit: nat)
    requires Counted(w, limit) && (DecidesRetry(w, Look(p, op)) ==> forall q :: !Retrying(w, q))
    ensures Counted(Step(w, Look(p, op)), limit)
  {
    DecideRetries(w.job, op);
    var w' := Step(w, Look(p, op));
    forall q ensures Retrying(w', q) ==> Retrying(w, q) || (q == p && DecidesRetry(w, Look(p, op))) {
    }
  }

  lemma WriteCounted(w: World, p: nat, limit: nat)
    requires Counted(w, limit)
    ensures Counted(Step(w, Write(p)), limit)
  {
    var w' := Step(w, Write(p));
    if p in w.pending && w.pending[p] != [] {
      assert Retrying(w, p) <==> w.pending[p][0].retryCount.Some?;
      forall q ensures Retrying(w', q) ==> Retrying(w, q) && q != p {
        if q == p && w'.pending[p] != [] {
          assert w'.pending[p][0] == w.pending[p][1];
        }
      }
      forall i | 0 < i < |w'.pending[p]| ensures w'.pending[p][i].retryCount.None? {
        assert w'.pending[p][i] == w.pending[p][i + 1];
      }
    }
  }

  lemma OtherCounted(w: World, e: Event, limit: nat)
    requires Counted(w, limit) && !e.Look? && !e.Write?
    ensures Counted(Step(w, e), limit)
  {
    assert Step(w, e).pending == w.pending;
    assert forall p :: Retrying(Step(w, e), p) <==> Retrying(w, p);
  }

  lemma {:induction false} CountedAlways(w: World, es: seq<Event>, limit: nat)
    requires Counted(w, limit) && RetriesApart(w, es)
    ensures Counted(After(w, es), limit)
  {
    if es != [] {
      var before, e := After(w, es[..|es| - 1]), es[|es| - 1];
      CountedAlways(w, es[..|es| - 1], limit);
      match e
      case Look(p, op) => LookCounted(before, p, op, limit);
      case Write(p) => WriteCounted(before, p, limit);
      case _ => OtherCounted(before, e, limit);
    }
  }

  // Retries that do not overlap keep the retry limit, and with it the number of starts.
  lemma RetryLimitKept(maxRetries: nat, es: seq<Event>)
    requires RetriesApart(Fresh(maxRetries), es)
    ensures var w := After(Fresh(maxRetries), es);
            && w.retries <= maxRetries
            && (w.job.Some? ==> w.job.value.retryCount == w.retries)
            && w.starts <= (w.timesQueued - w.retries) + maxRetries
  {
    CountedAlways(Fresh(maxRetries), es, maxRetries);
    StartsBounded(maxRetries, es);
  }

  // ---- Retries that overlap ----

  lemma ApartLast(w: World, es: seq<Event>, e: Event)
    requires RetriesApart(w, es) && (DecidesRetry(After(w, es), e) ==> forall p :: !Retrying(After(w, es), p))
    ensures RetriesApart(w, es + [e])
  {
    assert (es + [e])[..|es|] == es;
  }

  lemma {:induction false} ApartConcat(w: World, xs: seq<Event>, ys: seq<Event>)
    requires RetriesApart(w, xs) && RetriesApart(After(w, xs), ys)
    ensures RetriesApart(w, xs + ys)
  {
    if ys == [] {
      assert xs + ys == xs;
    } else {
      var init := ys[..|ys| - 1];
      ApartConcat(w, xs, init);
      AfterSplit(w, xs, init);
      assert (xs + ys)[..|xs + ys| - 1] == xs + init;
    }
  }

  // A decided retry is written and delivered, its body starts, and fails.
  function Carry(p: nat, k: nat): seq<Event> {
    Begun(p, k) + Failing(k)
  }

  function Begun(p: nat, k: nat): seq<Event> {
    [Write(p)] + [CallRun(k)] + [Claim(k)]
  }

  function Failing(k: nat): seq<Event> {
    [Look(k, MarkFailed)] + [Write(k)] + [Return(k)]
  }

  // Nobody forces a retry.
  predicate Unforced(es: seq<Event>) {
    forall i :: 0 <= i < |es| ==> !(es[i].Look? && es[i].op == Retry(true))
  }

  lemma UnforcedConcat(xs: seq<Event>, ys: seq<Event>)
    requires Unforced(xs) && Unforced(ys)
    ensures Unforced(xs + ys)
  {
  }

  lemma {:induction false} NoRetryApart(w: World, es: seq<Event>)
    requires forall i :: 0 <= i < |es| ==> !(es[i].Look? && es[i].op.Retry?)
    ensures RetriesApart(w, es) && Unforced(es)
  {
    if es != [] {
      NoRetryApart(w, es[..|es| - 1]);
    }
  }

  // What a carried-out retry leaves behind.
  function Carried(w: World, p: nat, k: nat, count: nat): World
    requires w.job.Some? && p in w.pending && w.pending[p] != []
  {
    w.(job := Some(Job(Failed, false, count, w.job.value.maxRetries)),
       pending := w.pending[p := w.pending[p][1..]][k := []],
       timesQueued := w.timesQueued + 1, retries := w.retries + 1, starts := w.starts + 1)
  }

  lemma AfterThree(w: World, a: Event, b: Event, c: Event)
    ensures After(w, [a] + [b] + [c]) == Step(Step(Step(w, a), b), c)
  {
    AfterLast(w, [], a);
    assert [] + [a] == [a];
    AfterLast(w, [a], b);
    AfterLast(w, [a] + [b], c);
  }

  lemma BegunEffect(w: World, p: nat, k: nat, count: nat)
    requires w.job.Some? && p in w.pending && w.pending[p] != [] && k !in w.working
    requires w.pending[p][0] == Patch(Some(Queued), Some(false), Some(count))
    ensures After(w, Begun(p, k))
         == w.(job := Some(Job(Running, false, count, w.job.value.maxRetries)), pending := w.pending[p := w.pending[p][1..]],
               working := w.working[k := Executing],
               timesQueued := w.timesQueued + 1, retries := w.retries + 1, starts := w.starts + 1)
  {
    AfterThree(w, Write(p), CallRun(k), Claim(k));
    var w1 := Step(w, Write(p));
    assert w1.job == Some(Job(Queued, false, count, w.job.value.maxRetries)) && w1.working == w.working;
    assert w.working[k := Cleared][k := Executing] == w.working[k := Executing];
  }

  lemma FailingEffect(w: World, k: nat, working: map<nat, Phase>)
    requires w.job.Some? && w.job.value.status == Running && (k in w.pending ==> w.pending[k] == [])
    requires k !in working && w.working == working[k := Executing]
    ensures After(w, Failing(k))
         == w.(job := Some(w.job.value.(status := Failed)), pending := w.pending[k := []], working := working)
  {
    AfterThree(w, Look(k, MarkFailed), Write(k), Return(k));
    var w1 := Step(w, Look(k, MarkFailed));
    assert w1.pending == w.pending[k := [StatusPatch(Failed)]];
    assert [StatusPatch(Failed)][1..] == [];
    var w2 := Step(w1, Write(k));
    assert w2.pending == w.pending[k := []];
    assert working[k := Executing] - {k} == working;
  }

  lemma CarryEffect(w: World, p: nat, k: nat, count: nat)
    requires w.job.Some? && p in w.pending && w.pending[p] != [] && k !in w.working && k != p && (k in w.pending ==> w.pending[k] == [])
    requires w.pending[p][0] == Patch(Some(Queued), Some(false), Some(count))
    ensures After(w, Carry(p, k)) == Carried(w, p, k, count) && RetriesApart(w, Carry(p, k)) && Unforced(Carry(p, k))
  {
    BegunEffect(w, p, k, count);
    FailingEffect(After(w, Begun(p, k)), k, w.working);
    AfterSplit(w, Begun(p, k), Failing(k));
    NoRetryApart(w, Carry(p, k));
  }

  lemma {:induction false} NewNumber(s: set<nat>) returns (k: nat)
    ensures k !in s && forall x :: x in s ==> x < k
    decreases |s|
  {
    if s == {} {
      k := 0;
    } else {
      var x :| x in s;
      k := NewNumber(s - {x});
      assert forall y :: y in s ==> y in s - {x} || y == x;
      if k <= x {
        k := x + 1;
      }
    }
  }

  // One retry after another, up to the stored limit.
  lemma {:induction false} RetryToLimit(w: World, q: nat, k: nat) returns (es: seq<Event>)
    requires w.job.Some? && w.job.value.status == Failed && w.job.value.retryCount <= w.job.value.maxRetries
    requires k !in w.working && k != q && (k in w.pending ==> w.pending[k] == [])
    requires (q in w.pending ==> w.pending[q] == []) && forall p :: !Retrying(w, p)
    ensures RetriesApart(w, es) && Unforced(es)
    ensures var w', more := After(w, es), w.job.value.maxRetries - w.job.value.retryCount;
            && w'.job.Some? && w'.job.value.retryCount == w'.job.value.maxRetries == w.job.value.maxRetries
            && w'.retries == w.retries + more && w'.starts == w.starts + more
    decreases w.job.value.maxRetries - w.job.value.retryCount
  {
    var j := w.job.value;
    if j.retryCount == j.maxRetries {
      es := [];
    } else {
      var once := RetryOnce(w, q, k);
      var rest := RetryToLimit(After(w, once), q, k);
      ApartConcat(w, once, rest);
      AfterSplit(w, once, rest);
      UnforcedConcat(once, rest);
      es := once + rest;
    }
  }

  // One of them.
  lemma RetryOnce(w: World, q: nat, k: nat) returns (es: seq<Event>)
    requires w.job.Some? && w.job.value.status == Failed && w.job.value.retryCount < w.job.value.maxRetries
    requires k !in w.working && k != q && (k in w.pending ==> w.pending[k] == [])
    requires (q in w.pending ==> w.pending[q] == []) && forall p :: !Retrying(w, p)
    ensures RetriesApart(w, es) && Unforced(es)
    ensures var w' := After(w, es);
            && w'.job == Some(Job(Failed, false, w.job.value.retryCount + 1, w.job.value.maxRetries))
            && w'.retries == w.retries + 1 && w'.starts == w.starts + 1 && w'.working == w.working
            && w'.pending == w.pending[q := []][k := []]
            && forall p :: !Retrying(w', p)
  {
    var e := Look(q, Retry(false));
    var w1 := RetryDecided(w, q, false);
    CarryEffect(w1, q, k, w.job.value.retryCount + 1);
    es := OneThen(w, e, Carry(q, k));
    assert w1.pending[q][1..] == [] && w1.pending[q := []] == w.pending[q := []];
    NoneRetrying(w, After(w, es));
  }

  lemma OneThen(w: World, e: Event, rest: seq<Event>) returns (es: seq<Event>)
    requires (forall p :: !Retrying(w, p)) && RetriesApart(Step(w, e), rest) && Unforced([e]) && Unforced(rest)
    ensures After(w, es) == After(Step(w, e), rest) && RetriesApart(w, es) && Unforced(es)
  {
    ApartLast(w, [], e);
    AfterLast(w, [], e);
    assert [] + [e] == [e];
    ApartConcat(w, [e], rest);
    AfterSplit(w, [e], rest);
    UnforcedConcat([e], rest);
    es := [e] + rest;
  }

  lemma NoneRetrying(w: World, w': World)
    requires forall p :: !Retrying(w, p)
    requires forall p :: p in w'.pending && w'.pending[p] != [] ==> p in w.pending && w'.pending[p] == w.pending[p]
    ensures forall p :: !Retrying(w', p)
  {
    forall p ensures !Retrying(w', p) {
      assert !Retrying(w, p);
    }
  }

  lemma RetryDecided(w: World, q: nat, force: bool) returns (w1: World)
    requires DecidesRetry(w, Look(q, Retry(force))) && w.job.Some?
    ensures w1 == Step(w, Look(q, Retry(force)))
    ensures w1 == w.(pending := w.pending[q := [Patch(Some(Queued), Some(false), Some(w.job.value.retryCount + 1))]])
  {
    w1 := Step(w, Look(q, Retry(force)));
  }

  // A retry decided while another is still to be written: both will be counted as one, so that one retry more
  // than the limit is carried out, and its body started, without any further overlap.
  lemma OverlapExceeds(w: World, p: nat, q: nat, force: bool, limit: nat) returns (es: seq<Event>)
    requires Counted(w, limit) && w.job.Some? && Retrying(w, p) && DecidesRetry(w, Look(q, Retry(force)))
    ensures var w1 := Step(w, Look(q, Retry(force)));
            var w' := After(w1, es);
            && RetriesApart(w1, es) && Unforced(es) && w'.retries == limit + 1 && w'.starts == w.starts + (limit + 1 - w.retries)
            && w'.job.Some? && w'.job.value.retryCount == limit
  {
    var k := NewNumber(w.working.Keys + w.pending.Keys + {q});
    var w1 := RetryDecided(w, q, force);
    CarryEffect(w1, p, k, w.retries + 1);
    var w2 := Carried(w1, p, k, w.retries + 1);
    CarryEffect(w2, q, k, w.retries + 1);
    var w3 := Carried(w2, q, k, w.retries + 1);
    NoneLeft(w, p, q, k, w1, w3, limit);
    var rest := RetryToLimit(w3, q, k);
    es := InTurn(w1, w2, w3, Carry(p, k), Carry(q, k), rest);
  }

  lemma InTurn(w1: World, w2: World, w3: World, a: seq<Event>, b: seq<Event>, c: seq<Event>) returns (es: seq<Event>)
    requires After(w1, a) == w2 && After(w2, b) == w3
    requires RetriesApart(w1, a) && RetriesApart(w2, b) && RetriesApart(w3, c) && Unforced(a) && Unforced(b) && Unforced(c)
    ensures After(w1, es) == After(w3, c) && RetriesApart(w1, es) && Unforced(es)
  {
    ApartConcat(w1, a, b);
    AfterSplit(w1, a, b);
    ApartConcat(w1, a + b, c);
    AfterSplit(w1, a + b, c);
    UnforcedConcat(a, b);
    UnforcedConcat(a + b, c);
    es := a + b + c;
  }

  lemma NoneLeft(w: World, p: nat, q: nat, k: nat, w1: World, w3: World, limit: nat)
    requires Counted(w, limit) && Retrying(w, p) && p != q && k !in w.pending && k != q
    requires q in w1.pending && |w1.pending[q]| == 1 && w1.pending == w.pending[q := w1.pending[q]]
    requires w3.pending == w1.pending[p := w1.pending[p][1..]][k := []][q := w1.pending[q][1..]][k := []]
    ensures w3.pending[q] == [] && forall x :: !Retrying(w3, x)
  {
    forall x ensures !Retrying(w3, x) {
      if x == p && |w.pending[p]| > 1 {
        assert w3.pending[p][0] == w.pending[p][1];
      } else if x != p && x != q && x != k && x in w3.pending {
        assert w3.pending[x] == w.pending[x] && !Retrying(w, x);
      }
    }
  }

  // A retry may be decided exactly when none is still to be written: then, and only then, does every
  // continuation without further overlaps keep the limit.
  lemma RetryLimitExactly(w: World, q: nat, force: bool, limit: nat)
    requires Counted(w, limit) && w.job.Some? && DecidesRetry(w, Look(q, Retry(force)))
    ensures var w1 := Step(w, Look(q, Retry(force)));
            (forall es :: RetriesApart(w1, es) ==> After(w1, es).retries <= limit) <==> (forall p :: !Retrying(w, p))
  {
    var w1 := Step(w, Look(q, Retry(force)));
    if p :| Retrying(w, p) {
      var es := OverlapExceeds(w, p, q, force, limit);
      assert RetriesApart(w1, es) && After(w1, es).retries > limit;
    } else {
      LookCounted(w, q, Retry(force), limit);
      forall es | RetriesApart(w1, es) ensures After(w1, es).retries <= limit {
        CountedAlways(w1, es, limit);
      }
    }
  }

  // Whatever the limit, if it allows any retry: two overlapping ones, and the body is retried once too often.
  lemma OverlappingRetriesExceedLimit(maxRetries: nat) returns (es: seq<Event>)
    requires maxRetries > 0
    ensures Unforced(es)
    ensures var w := After(Fresh(maxRetries), es);
            && w.retries == maxRetries + 1 && w.starts == maxRetries + 1
            && w.job.Some? && w.job.value.retryCount == maxRetries
  {
    var w, a, b := Fresh(maxRetries), Look(0, Retry(false)), Look(1, Retry(false));
    LookCounted(w, 0, Retry(false), maxRetries);
    var w1 := RetryDecided(w, 0, false);
    assert Retrying(w1, 0);
    var rest := OverlapExceeds(w1, 0, 1, false, maxRetries);
    AfterTwo(w, a, b);
    AfterSplit(w, [a, b], rest);
    UnforcedConcat([a, b], rest);
    es := [a, b] + rest;
  }

  lemma {:induction false} AfterSplit(w: World, xs: seq<Event>, ys: seq<Event>)
    ensures After(w, xs + ys) == After(After(w, xs), ys)
  {
    if ys == [] {
      assert xs + ys == xs;
    } else {
      assert (xs + ys)[..|xs + ys| - 1] == xs + ys[..|ys| - 1];
      AfterSplit(w, xs, ys[..|ys| - 1]);
    }
  }

  lemma AfterLast(w: World, es: seq<Event>, e: Event)
    ensures After(w, es + [e]) == Step(After(w, es), e)
  {
    assert (es + [e])[..|es|] == es;
  }

  // ---- The transition table ----

  // Nothing of the given process's own: its decisions and its deliveries.
  predicate Foreign(p: nat, e: Event) {
    match e
    case Look(q, _) => q != p
    case Write(q) => q != p
    case Deliver(q, _) => q != p
    case CallRun(q) => q != p
    case Fence(q) => q != p
    case Claim(q) => q != p
    case Return(q) => q != p
    case _ => true
  }

  predicate Others(p: nat, es: seq<Event>) {
    forall i :: 0 <= i < |es| ==> Foreign(p, es[i])
  }

  lemma {:induction false} OthersLeave(w: World, p: nat, es: seq<Event>)
    requires Others(p, es)
    ensures var w' := After(w, es);
            && (p in w.pending <==> p in w'.pending) && (p in w.pending ==> w'.pending[p] == w.pending[p])
            && (p in w.working <==> p in w'.working) && (p in w.working ==> w'.working[p] == w.working[p])
  {
    if es != [] {
      OthersLeave(w, p, es[..|es| - 1]);
      assert Foreign(p, es[|es| - 1]);
    }
  }

  // An operation of `p` is under way: it has looked at the job and decided on an update.
  predicate Decided(w: World, p: nat, op: Op) {
    w.job.Some? && (p in w.pending ==> w.pending[p] == []) && Decide(w.job, op) != []
  }

  // The statuses on which an update decided earlier is against the table. `cancelled`: a cancellation was
  // requested when the job was looked at.
  predicate AgainstTable(op: Op, cancelled: bool, current: Status) {
    match op
    case Enqueue => current in {Running, Paused, Succeeded, Cancelled}
    case Retry(_) => current in {Running, Paused, Succeeded, Cancelled}
    case MarkRunning => false
    case MarkSucceeded => current in {Created, Queued, Paused, Failed, Cancelled}
    case MarkFailed => current in {Created, Succeeded, Cancelled}
    case MarkCancelled => current == Succeeded
    case CancelQueued => current == Succeeded
    case Reconcile => current == Succeeded || (!cancelled && current in {Created, Cancelled})
  }

  // For whatever others do between the look and the update: the update leaves the table exactly on these.
  lemma LateWriteTable(w: World, p: nat, op: Op, es: seq<Event>)
    requires Decided(w, p, op) && Others(p, es) && After(Step(w, Look(p, op)), es).job.Some?
    ensures var w1 := After(Step(w, Look(p, op)), es);
            var w2 := Step(w1, Write(p));
            w2.job.Some?
            && (Permitted(w1.job.value.status, w2.job.value.status)
                <==> !AgainstTable(op, w.job.value.cancelRequested, w1.job.value.status))
  {
    OthersLeave(Step(w, Look(p, op)), p, es);
  }

  // A look and its update with nothing in between follow the table, except a forced retry of a job that is
  // running, paused, succeeded or cancelled and has retries left.
  lemma FreshDecisionFollowsTable(w: World, p: nat, op: Op)
    requires w.job.Some? && (p in w.pending ==> w.pending[p] == [])
    ensures var w' := Step(Step(w, Look(p, op)), Write(p));
            w'.job.Some?
            && (Permitted(w.job.value.status, w'.job.value.status)
                <==> !(op == Retry(true) && w.job.value.retryCount < w.job.value.maxRetries
                       && w.job.value.status in {Running, Paused, Succeeded, Cancelled}))
  {
    if Decide(w.job, op) != [] {
      assert After(Step(w, Look(p, op)), []) == Step(w, Look(p, op));
      LateWriteTable(w, p, op, []);
    }
  }

  // Every operation but `mark_running` can be overtaken so that its update leaves the table.
  lemma OvertakenLeavesTable(w: World, p: nat, op: Op)
    requires Decided(w, p, op)
    ensures op != MarkRunning <==>
            exists es :: Others(p, es) && LeavesTable(w, p, op, es)
  {
    if op == MarkRunning {
      forall es | Others(p, es) ensures !LeavesTable(w, p, op, es) {
        if After(Step(w, Look(p, op)), es).job.Some? {
          LateWriteTable(w, p, op, es);
        }
      }
    } else {
      var es := [];
      if op in {MarkCancelled, CancelQueued, Reconcile} {
        es := OthersSucceed(w, p, op);
      } else {
        es := OthersCancel(w, p, op);
      }
      LateWriteTable(w, p, op, es);
      assert LeavesTable(w, p, op, es);
    }
  }

  ghost predicate LeavesTable(w: World, p: nat, op: Op, es: seq<Event>) {
    var w1 := After(Step(w, Look(p, op)), es);
    var w2 := Step(w1, Write(p));
    w1.job.Some? && w2.job.Some? && !Permitted(w1.job.value.status, w2.job.value.status)
  }

  lemma OthersCancel(w: World, p: nat, op: Op) returns (es: seq<Event>)
    requires w.job.Some?
    ensures Others(p, es)
    ensures var w1 := After(Step(w, Look(p, op)), es); w1.job.Some? && w1.job.value.status == Cancelled
  {
    AfterLast(Step(w, Look(p, op)), [], SoftDelete);
    assert [] + [SoftDelete] == [SoftDelete];
    es := [SoftDelete];
  }

  // Another process sets the job running and succeeded.
  lemma OthersSucceed(w: World, p: nat, op: Op) returns (es: seq<Event>)
    requires w.job.Some?
    ensures Others(p, es)
    ensures var w1 := After(Step(w, Look(p, op)), es); w1.job.Some? && w1.job.value.status == Succeeded
  {
    var w0 := Step(w, Look(p, op));
    var q := NewNumber(w0.pending.Keys + {p});
    var es1, es2 := [Look(q, MarkRunning), Write(q), Write(q)], [Look(q, MarkSucceeded), Write(q)];
    AfterTwo(w0, Look(q, MarkRunning), Write(q));
    AfterLast(w0, [Look(q, MarkRunning), Write(q)], Write(q));
    assert [Look(q, MarkRunning), Write(q)] + [Write(q)] == es1;
    RunningWrites(w0, q);
    var w1 := After(w0, es1);
    AfterTwo(w1, Look(q, MarkSucceeded), Write(q));
    AfterSplit(w0, es1, es2);
    es := es1 + es2;
  }

  lemma RunningWrites(w: World, q: nat)
    requires w.job.Some? && q !in w.pending
    ensures var w' := Step(Step(Step(w, Look(q, MarkRunning)), Write(q)), Write(q));
            w'.job.Some? && w'.job.value.status == Running && q in w'.pending && w'.pending[q] == []
  {
    var patches := [StatusPatch(Running), Patch(None, Some(false), None)];
    assert patches[1..] == [Patch(None, Some(false), None)] && patches[1..][1..] == [];
    assert Step(w, Look(q, MarkRunning)).pending[q] == patches;
  }

  // The steps that hold the lock throughout follow the table; deleting softly does unless the job succeeded.
  lemma LockedStepsFollowTable(w: World, e: Event)
    requires w.job.Some? && !e.Write? && !e.HardDelete?
    ensures Step(w, e).job.Some?
    ensures Permitted(w.job.value.status, Step(w, e).job.value.status) <==> !(e.SoftDelete? && w.job.value.status == Succeeded)
  {
  }

  // One such run: a decision overtaken by a fence, and a failed job becomes succeeded.
  lemma LateWriteLeavesTable(w: World, p: nat, q: nat, attempt: int)
    requires w.job.Some? && w.job.value.status == Running && attempt > 1
    requires p !in w.pending && q !in w.working
    ensures var w1 := After(w, [Look(p, MarkSucceeded), Deliver(q, attempt)]);
            var w2 := Step(w1, Fence(q));
            var w3 := Step(w2, Write(p));
            && w2.job.Some? && w2.job.value.status == Failed && w3.job.Some? && w3.job.value.status == Succeeded
            && !Permitted(Failed, Succeeded)
  {
    AfterTwo(w, Look(p, MarkSucceeded), Deliver(q, attempt));
  }
}
