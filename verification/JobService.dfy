// The job operations as they read and rewrite the stored record. Whatever other processes do between a
// look and the update it leads to is a parameter (jobs/store.py, lines 70-200; jobs/manager.py, lines
// 80-230; jobs/runner.py, lines 11-55; jobs/worker.py, lines 62-134).
module JobService {
  import opened Prelude
  import opened JobExecution

  // How one execution goes: what happens while the body runs (its own updates and everyone else's,
  // under numbers of their own), whether it raises, when the lease is found lost, and what others do before
  // the outcome is decided and before each update is written.
  datatype Course = Course(body: seq<Event>, raises: bool, lostBefore: bool, lostAfter: bool,
                           gap: seq<Event>, late: seq<Event>, later: seq<Event>)

  // `_check_transition` inside an operation raised.
  predicate Refused(w: World, op: Op) {
    w.job.Some? && Decide(w.job, op) == []
  }

  // Look, whatever happens meanwhile, write.
  function OpEvents(p: nat, op: Op, meanwhile: seq<Event>): seq<Event> {
    [Look(p, op)] + meanwhile + [Write(p)]
  }

  // `run_job` after a successful claim, up to what it does about the outcome.
  function OutcomeEvents(w: World, p: nat, c: Course): seq<Event> {
    if c.raises then OpEvents(p, MarkFailed, c.late)
    else if c.lostBefore || w.job.None? || w.job.value.status in {Failed, Cancelled} || c.lostAfter then []
    else
      c.gap + OpEvents(p, MarkSucceeded, c.late)
      + if Refused(After(w, c.gap), MarkSucceeded) then OpEvents(p, MarkFailed, c.later) else []
  }

  function ExecutionEvents(w: World, p: nat, c: Course): seq<Event> {
    c.body + OutcomeEvents(After(w, c.body), p, c) + [Return(p)]
  }

  function RunEvents(w: World, p: nat, c: Course): seq<Event> {
    if QueuedNow(w) == 0 then [Claim(p)] else [Claim(p)] + ExecutionEvents(Step(w, Claim(p)), p, c)
  }

  // `_run_once` from the delivery on.
  function IterationEvents(w: World, p: nat, attempt: int, c: Course): seq<Event> {
    var w1 := After(w, [Deliver(p, attempt), Fence(p)]);
    if p !in w1.working then [Deliver(p, attempt), Fence(p)]
    else [Deliver(p, attempt), Fence(p)] + RunEvents(w1, p, c)
  }

  // ---- What a delivery can do, whatever else is going on ----

  // A repeated delivery of a job that is running ends it; it never starts the body again.
  lemma ReclaimedRunningIsFenced(w: World, p: nat, attempt: int, c: Course)
    requires p !in w.working && attempt > 1 && w.job.Some? && w.job.value.status == Running
    ensures var es := IterationEvents(w, p, attempt, c);
            && es == [Deliver(p, attempt), Fence(p)]
            && After(w, es) == w.(job := Some(w.job.value.(status := Failed)))
  {
    AfterTwo(w, Deliver(p, attempt), Fence(p));
    assert (w.working[p := Received(attempt, true)]) - {p} == w.working;
  }

  // One delivery starts the body at most once, and only if the job was queued when it was claimed.
  lemma {:induction false} OneDeliveryOneStart(w: World, p: nat, attempt: int, c: Course)
    requires p !in w.working && Others(p, c.body) && Others(p, c.gap) && Others(p, c.late) && Others(p, c.later)
    requires After(w, IterationEvents(w, p, attempt, c)).timesQueued == w.timesQueued
    ensures var w' := After(w, IterationEvents(w, p, attempt, c));
            w.starts <= w'.starts <= w.starts + QueuedNow(w)
  {
    StartsWithin(w, IterationEvents(w, p, attempt, c));
    StartsGrow(w, IterationEvents(w, p, attempt, c));
  }

  class JobRecordFile {
    var job: Option<Job>
    var pending: map<nat, seq<Patch>>
    var working: map<nat, Phase>
    var timesQueued: nat
    var retries: nat
    var starts: nat

    constructor (maxRetries: nat)
      ensures Now() == Fresh(maxRetries)
    {
      job := Some(Job(Created, false, 0, maxRetries));
      pending, working, timesQueued, retries, starts := map[], map[], 0, 0, 0;
    }

    function Now(): World
      reads this
    {
      World(job, pending, working, timesQueued, retries, starts)
    }

    // Whatever the given processes do in the meantime.
    method Elapse(es: seq<Event>)
      modifies this
      ensures Now() == After(old(Now()), es)
    {
      var w := After(Now(), es);
      job, pending, working, timesQueued, retries, starts := w.job, w.pending, w.working, w.timesQueued, w.retries, w.starts;
    }

    // `update_job`, under the job lock.
    method UpdateJob(patch: Patch)
      modifies this
      ensures Now() == Update(old(Now()), patch)
    {
      if job.None? {
        return;
      }
      var record := job.value;
      if patch.status.Some? {
        record := record.(status := patch.status.value);
        timesQueued := timesQueued + if patch.status.value == Queued then 1 else 0;
      }
      if patch.cancel.Some? {
        record := record.(cancelRequested := patch.cancel.value);
      }
      if patch.retryCount.Some? {
        record := record.(retryCount := patch.retryCount.value);
        retries := retries + 1;
      }
      job := Some(record);
    }

    // The first half of a manager operation: read, check, decide.
    method LookAt(p: nat, op: Op) returns (refused: bool)
      requires p in pending ==> pending[p] == []
      modifies this
      ensures Now() == Step(old(Now()), Look(p, op)) && refused == Refused(old(Now()), op)
    {
      var decided := [];
      refused := false;
      if job.Some? {
        var j := job.value;
        match op {
          case Enqueue => if Permitted(j.status, Queued) { decided := [StatusPatch(Queued)]; }
          case Retry(force) =>
            if (force || Permitted(j.status, Queued)) && j.retryCount < j.maxRetries {
              decided := [Patch(Some(Queued), Some(false), Some(j.retryCount + 1))];
            }
          case MarkRunning =>
            if Permitted(j.status, Running) { decided := [StatusPatch(Running), Patch(None, Some(false), None)]; }
          case MarkSucceeded => if Permitted(j.status, Succeeded) { decided := [StatusPatch(Succeeded)]; }
          case MarkFailed => if Permitted(j.status, Failed) { decided := [StatusPatch(Failed)]; }
          case MarkCancelled =>
            if Permitted(j.status, Cancelled) { decided := [Patch(Some(Cancelled), Some(true), None)]; }
          case CancelQueued => if j.status == Queued { decided := [StatusPatch(Cancelled)]; }
          case Reconcile =>
            if j.status == Running {
              decided := [Patch(Some(if j.cancelRequested then Cancelled else Failed), Some(j.cancelRequested), None)];
            }
        }
        refused := decided == [];
      }
      pending := pending[p := decided];
    }

    // The second half: write what was decided, over whatever the job is by now.
    method WriteDecided(p: nat)
      modifies this
      ensures Now() == Step(old(Now()), Write(p))
    {
      if p in pending && pending[p] != [] {
        var patch := pending[p][0];
        UpdateJob(patch);
        pending := pending[p := pending[p][1..]];
      }
    }

    // `claim_job_for_execution`, under the job lock.
    method ClaimForExecution(p: nat) returns (claimed: bool)
      requires p in working && working[p] == Cleared
      modifies this
      ensures Now() == Step(old(Now()), Claim(p)) && claimed == (QueuedNow(old(Now())) == 1)
    {
      if job.None? || job.value.status != Queued {
        working := working - {p};
        return false;
      }
      job := Some(job.value.(status := Running, cancelRequested := false));
      working := working[p := Executing];
      starts := starts + 1;
      claimed := true;
    }

    // `fence_reclaimed_running_job`, under the job lock, and what `_run_once` does with the answer.
    method FenceReclaimed(p: nat) returns (proceed: bool)
      requires p in working && working[p].Received?
      modifies this
      ensures Now() == Step(old(Now()), Fence(p)) && proceed == (p in working) && (proceed ==> working[p] == Cleared)
    {
      if working[p].attempt > 1 && job.Some? && job.value.status == Running {
        job := Some(job.value.(status := Failed));
        working := working - {p};
        return false;
      }
      if !working[p].known {
        working := working - {p};
        return false;
      }
      working := working[p := Cleared];
      proceed := true;
    }

    // `request_job_cancellation` for a running job.
    method RequestCancellation() returns (applied: bool)
      modifies this
      ensures Now() == Step(old(Now()), RequestCancel)
      ensures applied == (old(job).Some? && old(job).value.status == Running && !old(job).value.cancelRequested)
    {
      if job.None? || job.value.status != Running || job.value.cancelRequested {
        return false;
      }
      job := Some(job.value.(cancelRequested := true));
      applied := true;
    }

    // A whole manager operation with one update.
    method Perform(p: nat, op: Op, meanwhile: seq<Event>) returns (refused: bool)
      requires (p in pending ==> pending[p] == []) && Others(p, meanwhile) && op != MarkRunning
      modifies this
      ensures Now() == After(old(Now()), OpEvents(p, op, meanwhile)) && refused == Refused(old(Now()), op)
      ensures p in pending && pending[p] == []
      ensures (p in working <==> p in old(working)) && (p in working ==> working[p] == old(working)[p])
    {
      ghost var w := Now();
      refused := LookAt(p, op);
      ghost var w1 := Now();
      Elapse(meanwhile);
      OthersLeave(w1, p, meanwhile);
      WriteDecided(p);
      AfterTwo(w, Look(p, op), Look(p, op));
      AfterSplit(w, [Look(p, op)], meanwhile);
      AfterLast(w, [Look(p, op)] + meanwhile, Write(p));
    }

    // What `run_job` does once the body has ended.
    method Conclude(p: nat, c: Course)
      requires (p in pending ==> pending[p] == []) && Others(p, c.gap) && Others(p, c.late) && Others(p, c.later)
      modifies this
      ensures Now() == After(old(Now()), OutcomeEvents(old(Now()), p, c))
      ensures (p in working <==> p in old(working)) && (p in working ==> working[p] == old(working)[p])
    {
      ghost var w := Now();
      if c.raises {
        var refused := Perform(p, MarkFailed, c.late);
        return;
      }
      if c.lostBefore {
        return;
      }
      var final := job;
      if final.None? || final.value.status in {Failed, Cancelled} {
        return;
      }
      if c.lostAfter {
        return;
      }
      Elapse(c.gap);
      OthersLeave(w, p, c.gap);
      ghost var w1 := Now();
      var refused := Perform(p, MarkSucceeded, c.late);
      AfterSplit(w, c.gap, OpEvents(p, MarkSucceeded, c.late));
      if refused {
        refused := Perform(p, MarkFailed, c.later);
        AfterSplit(w, c.gap + OpEvents(p, MarkSucceeded, c.late), OpEvents(p, MarkFailed, c.later));
      } else {
        assert c.gap + OpEvents(p, MarkSucceeded, c.late) + [] == c.gap + OpEvents(p, MarkSucceeded, c.late);
      }
    }

    // `run_job` once the job has been claimed.
    method Execute(p: nat, c: Course)
      requires p in working && working[p] == Executing && (p in pending ==> pending[p] == [])
      requires Others(p, c.body) && Others(p, c.gap) && Others(p, c.late) && Others(p, c.later)
      modifies this
      ensures Now() == After(old(Now()), ExecutionEvents(old(Now()), p, c))
    {
      ghost var w := Now();
      Elapse(c.body);
      OthersLeave(w, p, c.body);
      ghost var outcome := OutcomeEvents(Now(), p, c);
      Conclude(p, c);
      AfterSplit(w, c.body, outcome);
      AfterLast(w, c.body + outcome, Return(p));
      working := working - {p};
    }

    // `run_job`
    method RunJob(p: nat, c: Course)
      requires p in working && working[p] == Cleared && (p in pending ==> pending[p] == [])
      requires Others(p, c.body) && Others(p, c.gap) && Others(p, c.late) && Others(p, c.later)
      modifies this
      ensures Now() == After(old(Now()), RunEvents(old(Now()), p, c))
    {
      ghost var w := Now();
      AfterTwo(w, Claim(p), Claim(p));
      var claimed := ClaimForExecution(p);
      if claimed {
        ghost var w1 := Now();
        Execute(p, c);
        AfterSplit(w, [Claim(p)], ExecutionEvents(w1, p, c));
      }
    }

    // `_run_once` on one receipt.
    method RunOnce(p: nat, attempt: int, c: Course)
      requires p !in working && (p in pending ==> pending[p] == [])
      requires Others(p, c.body) && Others(p, c.gap) && Others(p, c.late) && Others(p, c.later)
      modifies this
      ensures Now() == After(old(Now()), IterationEvents(old(Now()), p, attempt, c))
    {
      ghost var w := Now();
      AfterTwo(w, Deliver(p, attempt), Fence(p));
      working := working[p := Received(attempt, job.Some?)];
      var proceed := FenceReclaimed(p);
      if proceed {
        ghost var w1 := Now();
        RunJob(p, c);
        AfterSplit(w, [Deliver(p, attempt), Fence(p)], RunEvents(w1, p, c));
      }
    }
  }
}
