// One session's registry and jobs as the lifecycle functions read and rewrite them, under the session lock
// (jobs/lifecycle.py, lines 90-361, 421-470 and 570-650).
module TurnService {
  import opened Prelude
  import JobExecution
  import opened TurnRegistry
  import opened TurnClaims

  lemma KeptConcat(now: int, xs: seq<Step>, ys: seq<Step>)
    ensures Kept(now, xs + ys) == Kept(now, xs) + Kept(now, ys)
  {
  }

  // `terminal.sort(key=...)`: stable insertion.
  method SortStamps(stamps: seq<Stamp>) returns (sorted: seq<Stamp>)
    ensures sorted == SortByTime(stamps)
  {
    sorted := [];
    for i := 0 to |stamps|
      invariant sorted == SortByTime(stamps[..i])
    {
      assert stamps[..i + 1][..i] == stamps[..i] && stamps[..i + 1][i] == stamps[i];
      var later := [];
      ghost var target := Insert(sorted, stamps[i]);
      while sorted != [] && sorted[|sorted| - 1].time > stamps[i].time
        invariant Insert(sorted, stamps[i]) + later == target
        decreases |sorted|
      {
        later := [sorted[|sorted| - 1]] + later;
        sorted := sorted[..|sorted| - 1];
      }
      sorted := sorted + [stamps[i]] + later;
    }
    assert stamps[..|stamps|] == stamps;
  }

  class SessionTurns {
    var registry: Registry
    var jobs: Jobs
    ghost var log: seq<Event>

    ghost function Now(): World
      reads this
    {
      World(registry, jobs)
    }

    // `es` is what has been written since the given state, in order.
    ghost predicate Performed(w: World, log0: seq<Event>, es: seq<Event>)
      reads this
    {
      Now() == DoAll(w, es) && log == log0 + es
    }

    lemma PerformedMore(w: World, w1: World, log0: seq<Event>, log1: seq<Event>, xs: seq<Event>, ys: seq<Event>)
      requires w1 == DoAll(w, xs) && log1 == log0 + xs && Performed(w1, log1, ys)
      ensures Performed(w, log0, xs + ys)
    {
      DoSplit(w, xs, ys);
      Associative(log0, xs, ys);
    }

    // One registry file written or unlinked.
    method KeepOne(now: int, step: Step)
      modifies this`registry, this`log
      ensures Performed(old(Now()), old(log), Kept(now, [step])) && registry == Apply(old(registry), step)
    {
      assert Kept(now, [step]) == [Keep(now, step)];
      assert [Keep(now, step)][..0] == [];
      match step {
        case Fold(id, r) => registry := registry[id := r];
        case Drop(id) => registry := registry - {id};
      }
      log := log + [Keep(now, step)];
    }

    // One candidate of the prune.
    method ConsiderOne(id: string, now: int) returns (terminal: seq<Stamp>)
      modifies this`registry, this`log
      ensures terminal == Consider(old(registry), jobs, id, now).terminal
      ensures Performed(old(Now()), old(log), Kept(now, Consider(old(registry), jobs, id, now).steps))
    {
      terminal := [];
      if id !in registry {
        assert log + Kept(now, []) == log;
        return;
      }
      ghost var w, log0 := Now(), log;
      var folded := Reconcile(jobs, id, registry[id], now);
      ghost var steps := [];
      assert log + Kept(now, []) == log;
      if folded.Some? {
        KeepOne(now, Fold(id, folded.value));
        steps := [Fold(id, folded.value)];
      }
      if registry[id].status == Running {
        return;
      }
      if Timestamp(registry[id]) < now - TTL {
        ghost var w1, log1 := Now(), log;
        KeepOne(now, Drop(id));
        PerformedMore(w, w1, log0, log1, Kept(now, steps), Kept(now, [Drop(id)]));
        KeptConcat(now, steps, [Drop(id)]);
        return;
      }
      terminal := [Stamp(Timestamp(registry[id]), id)];
    }

    lemma SurveyNext(reg: Registry, js: Jobs, listing: seq<string>, i: nat, now: int)
      requires i < |listing|
      ensures var before := Survey(reg, js, listing[..i], now);
              var last := Consider(reg, js, listing[i], now);
              Survey(reg, js, listing[..i + 1], now) == Scan(before.steps + last.steps, before.terminal + last.terminal)
    {
      assert listing[..i + 1][..i] == listing[..i] && listing[..i + 1][i] == listing[i];
    }

    // A candidate not visited yet is as it was.
    lemma NotYetVisited(reg: Registry, js: Jobs, listing: seq<string>, i: nat, now: int)
      requires IsListing(reg, listing) && i < |listing|
      ensures var reg1 := ApplyAll(reg, Survey(reg, js, listing[..i], now).steps);
              Consider(reg1, js, listing[i], now) == Consider(reg, js, listing[i], now)
    {
      SurveyLegal(reg, js, listing[..i], now);
      assert listing[i] !in Names(listing[..i]);
      SameConsider(reg, ApplyAll(reg, Survey(reg, js, listing[..i], now).steps), js, listing[i], now);
    }

    // The first loop of the prune.
    method SurveyAll(listing: seq<string>, now: int) returns (terminal: seq<Stamp>)
      requires IsListing(registry, listing)
      modifies this`registry, this`log
      ensures terminal == Survey(old(registry), jobs, listing, now).terminal
      ensures Performed(old(Now()), old(log), Kept(now, Survey(old(registry), jobs, listing, now).steps))
    {
      ghost var w, log0, reg := Now(), log, registry;
      terminal := [];
      assert log + Kept(now, []) == log;
      for i := 0 to |listing|
        invariant jobs == w.jobs && terminal == Survey(reg, jobs, listing[..i], now).terminal
        invariant Performed(w, log0, Kept(now, Survey(reg, jobs, listing[..i], now).steps))
      {
        SurveyNext(reg, jobs, listing, i, now);
        NotYetVisited(reg, jobs, listing, i, now);
        KeptEffect(w, now, Survey(reg, jobs, listing[..i], now).steps);
        ghost var w1, log1 := Now(), log;
        ghost var before := Survey(reg, jobs, listing[..i], now).steps;
        ghost var last := Consider(reg, jobs, listing[i], now).steps;
        var more := ConsiderOne(listing[i], now);
        PerformedMore(w, w1, log0, log1, Kept(now, before), Kept(now, last));
        KeptConcat(now, before, last);
        terminal := terminal + more;
      }
      assert listing[..|listing|] == listing;
    }

    lemma DropsNext(sorted: seq<Stamp>, i: nat)
      requires i < |sorted|
      ensures Drops(sorted[..i + 1]) == Drops(sorted[..i]) + [Drop(sorted[i].id)]
    {
    }

    // The second loop: the oldest records over the limit.
    method DropOldest(sorted: seq<Stamp>, overflow: nat, now: int)
      requires overflow <= |sorted|
      modifies this`registry, this`log
      ensures Performed(old(Now()), old(log), Kept(now, Drops(sorted[..overflow])))
    {
      ghost var w, log0 := Now(), log;
      assert Kept(now, Drops(sorted[..0])) == [] && log + [] == log;
      for i := 0 to overflow
        invariant jobs == w.jobs
        invariant Performed(w, log0, Kept(now, Drops(sorted[..i])))
      {
        ghost var w1, log1 := Now(), log;
        KeepOne(now, Drop(sorted[i].id));
        PerformedMore(w, w1, log0, log1, Kept(now, Drops(sorted[..i])), Kept(now, [Drop(sorted[i].id)]));
        KeptConcat(now, Drops(sorted[..i]), [Drop(sorted[i].id)]);
        DropsNext(sorted, i);
      }
    }

    method DropOverflow(terminal: seq<Stamp>, now: int) returns (ghost drops: seq<Step>)
      modifies this`registry, this`log
      ensures var sorted := SortByTime(terminal); drops == Drops(sorted[..Overflow(sorted)])
      ensures Performed(old(Now()), old(log), Kept(now, drops))
    {
      var sorted := SortStamps(terminal);
      var overflow := if |sorted| > MAX_TERMINAL then |sorted| - MAX_TERMINAL else 0;
      DropOldest(sorted, overflow, now);
      drops := Drops(sorted[..overflow]);
    }

    // `_prune_request_registry_unlocked`
    method PruneRegistry(listing: seq<string>, now: int)
      requires IsListing(registry, listing)
      modifies this`registry, this`log
      ensures Performed(old(Now()), old(log), Kept(now, Prune(old(registry), jobs, listing, now)))
    {
      ghost var w, log0, steps := Now(), log, Survey(registry, jobs, listing, now).steps;
      var terminal := SurveyAll(listing, now);
      ghost var w1, log1 := Now(), log;
      ghost var drops := DropOverflow(terminal, now);
      PerformedMore(w, w1, log0, log1, Kept(now, steps), Kept(now, drops));
      KeptConcat(now, steps, drops);
    }

    // `_running_session_turn_unlocked`
    method RunningTurn(order: seq<string>) returns (open: Option<string>)
      requires Orders(Now(), order)
      ensures open == FirstOpen(Now(), order)
    {
      for i := 0 to |order|
        invariant FirstOpen(Now(), order) == FirstOpen(Now(), order[i..])
      {
        assert order[i] in order;
        var job := jobs[order[i]];
        if job.status == JobExecution.Running && job.active.Some? && job.active.value.status == Running {
          return Some(order[i]);
        }
        assert order[i..][1..] == order[i + 1..];
      }
      open := None;
    }

    method SaveJob(job: string, e: Event)
      requires OnJob(e) && e.job == job && job in jobs
      modifies this`jobs, this`log
      ensures Performed(old(Now()), old(log), [e]) && job in jobs
    {
      assert [e][..0] == [];
      jobs := jobs[job := JobAfter(jobs[job], e)];
      log := log + [e];
    }

    // `_find_or_create_job`
    method FindOrCreateJob(order: seq<string>, newId: string) returns (job: string)
      modifies this`jobs, this`log
      ensures job == Chosen(order, newId) && Performed(old(Now()), old(log), FindOrCreate(order, newId))
      ensures Orders(old(Now()), order) ==> job in jobs
    {
      if order == [] {
        assert [CreateJob(newId)][..0] == [];
        jobs := jobs[newId := SessionJob(JobExecution.Created, false, None, None)];
        log := log + [CreateJob(newId)];
        return newId;
      }
      assert order[0] in order && log + [] == log;
      job := order[0];
    }

    // `_ensure_running`
    method EnsureJobRunning(job: string)
      requires job in jobs
      modifies this`jobs, this`log
      ensures Performed(old(Now()), old(log), EnsureRunning(old(Now()), job)) && job in jobs
    {
      if jobs[job].status in {JobExecution.Running, JobExecution.Paused} {
        assert log + [] == log;
        return;
      }
      ghost var w, log0 := Now(), log;
      SaveJob(job, Start(job));
      ghost var w1, log1 := Now(), log;
      SaveJob(job, Reset(job));
      PerformedMore(w, w1, log0, log1, [Start(job)], [Reset(job)]);
      assert [Start(job)] + [Reset(job)] == [Start(job), Reset(job)];
    }

    // A job found or created before is decided about as it was.
    lemma SameStart(w: World, order: seq<string>, newId: string)
      requires Orders(w, order) && newId !in w.jobs
      ensures EnsureRunning(DoAll(w, FindOrCreate(order, newId)), Chosen(order, newId)) == EnsureRunning(w, Chosen(order, newId))
    {
      if order == [] {
        assert [CreateJob(newId)][..0] == [];
      }
    }

    // `_begin_session_turn_unlocked`
    method BeginTurn(id: string, order: seq<string>, newId: string) returns (job: string)
      requires Orders(Now(), order) && newId !in jobs
      modifies this`jobs, this`log
      ensures job == Chosen(order, newId) && Performed(old(Now()), old(log), Begin(old(Now()), id, order, newId))
    {
      ghost var w, log0 := Now(), log;
      job := FindOrCreateJob(order, newId);
      ghost var w1, log1, found := Now(), log, FindOrCreate(order, newId);
      EnsureJobRunning(job);
      SameStart(w, order, newId);
      ghost var run := EnsureRunning(w, job);
      PerformedMore(w, w1, log0, log1, found, run);
      ghost var w2, log2 := Now(), log;
      SaveJob(job, OpenTurn(job, id));
      PerformedMore(w, w2, log0, log2, found + run, [OpenTurn(job, id)]);
    }

    // What a claim does once the registry has been pruned.
    method DecideClaim(id: string, input: string, now: int, order: seq<string>, newId: string) returns (answer: Answer)
      requires Orders(Now(), order) && newId !in jobs
      modifies this
      ensures var c := Decide(old(Now()), id, input, now, order, newId);
              answer == c.answer && Performed(old(Now()), old(log), c.events)
    {
      if id != "" && id in registry {
        var r := registry[id];
        if r.input != input {
          return Mismatch(r.jobId);
        }
        var folded := Reconcile(jobs, id, r, now);
        if folded.Some? {
          KeepOne(now, Fold(id, folded.value));
          assert Kept(now, [Fold(id, folded.value)]) == [Keep(now, Fold(id, folded.value))];
          return Known(r.jobId, folded.value.status);
        }
        return Known(r.jobId, r.status);
      }
      var open := RunningTurn(order);
      if open.Some? {
        return Busy(open.value);
      }
      ghost var w, log0 := Now(), log;
      var job := BeginTurn(id, order, newId);
      if id != "" {
        ghost var w1, log1 := Now(), log;
        ghost var e := Remember(id, input, job, now);
        assert [e][..0] == [];
        registry := registry[id := Record(job, input, Running, now, None)];
        log := log + [Remember(id, input, job, now)];
        PerformedMore(w, w1, log0, log1, Begin(w, id, order, newId), [e]);
      } else {
        assert Begin(w, id, order, newId) + [] == Begin(w, id, order, newId);
      }
      answer := Granted(job);
    }

    // `_claim_session_turn_request`
    method ClaimTurn(id: string, input: string, now: int, listing: seq<string>, order: seq<string>, newId: string)
      returns (answer: Answer)
      requires IsListing(registry, listing) && Orders(Now(), order) && newId !in jobs
      modifies this
      ensures var c := Claim(old(Now()), id, input, now, listing, order, newId);
              answer == c.answer && Performed(old(Now()), old(log), c.events)
    {
      ghost var w, log0 := Now(), log;
      ghost var prune := Pruning(w, id, now, listing);
      PruningOutcome(w, id, now, listing);
      if id != "" {
        PruneRegistry(listing, now);
      }
      ghost var w1, log1 := Now(), log;
      answer := DecideClaim(id, input, now, order, newId);
      PerformedMore(w, w1, log0, log1, prune, Decide(w1, id, input, now, order, newId).events);
    }

    // The record of a finished turn.
    method FinishOne(id: string, job: string, ok: bool, now: int)
      requires Finishes(Now(), id, job)
      modifies this`registry, this`log
      ensures Performed(old(Now()), old(log), [FinishRecord(id, job, ok, now)])
    {
      assert [FinishRecord(id, job, ok, now)][..0] == [];
      var cancelled := job in jobs && (jobs[job].cancelRequested || jobs[job].status == JobExecution.Cancelled);
      var status := if cancelled then Cancelled else if ok then Succeeded else Failed;
      registry := registry[id := registry[id].(status := status, updated := now, finished := Some(now))];
      log := log + [FinishRecord(id, job, ok, now)];
    }

    // `finish_claimed_session_turn`
    method FinishClaimed(id: string, job: string, ok: bool, now: int, listing: seq<string>, later: int, relisting: seq<string>)
      requires IsListing(registry, listing)
      requires IsListing(DoAll(Now(), FinishUpTo(Now(), id, job, ok, now, listing)).registry, relisting)
      modifies this`registry, this`log
      ensures Performed(old(Now()), old(log), Finishing(old(Now()), id, job, ok, now, listing, later, relisting))
    {
      ghost var w, log0 := Now(), log;
      if id == "" {
        assert log + [] == log;
        return;
      }
      ghost var prune := Pruning(w, id, now, listing);
      PruneRegistry(listing, now);
      if id !in registry || (job != "" && registry[id].jobId != job) {
        assert prune + [] == prune;
        return;
      }
      ghost var w1, log1 := Now(), log;
      FinishOne(id, job, ok, now);
      PerformedMore(w, w1, log0, log1, prune, [FinishRecord(id, job, ok, now)]);
      ghost var w2, log2, first := Now(), log, prune + [FinishRecord(id, job, ok, now)];
      PruneRegistry(relisting, later);
      PerformedMore(w, w2, log0, log2, first, Pruning(w2, id, later, relisting));
    }

    // `finish_session_turn_snapshot`
    method CloseSnapshot(job: string, request: string, ok: bool, now: int)
      modifies this`jobs, this`log
      ensures Performed(old(Now()), old(log), Closing(old(Now()), job, request, ok, now))
    {
      ghost var w, log0 := Now(), log;
      if job !in jobs {
        assert log + [] == log;
        return;
      }
      var cancelled := jobs[job].cancelRequested;
      var active := if jobs[job].active.Some? then jobs[job].active.value.request else "";
      if request != "" && active != "" && active != request {
        assert log + [] == log;
        return;
      }
      SaveJob(job, CloseTurn(job, request, ok));
      ghost var w1, log1 := Now(), log;
      if cancelled {
        SaveJob(job, EndJob(job, Cancelled, now));
        PerformedMore(w, w1, log0, log1, [CloseTurn(job, request, ok)], [EndJob(job, Cancelled, now)]);
      } else {
        assert [CloseTurn(job, request, ok)] + [] == [CloseTurn(job, request, ok)];
      }
    }

    // `attach_run_to_session_job`, as far as the job's status goes.
    method AttachRun(order: seq<string>, newId: string, ok: bool, now: int)
      requires Orders(Now(), order) && newId !in jobs
      modifies this`jobs, this`log
      ensures Performed(old(Now()), old(log), Attaching(old(Now()), order, newId, ok, now))
    {
      ghost var w, log0 := Now(), log;
      var job := FindOrCreateJob(order, newId);
      ghost var w1, log1, found := Now(), log, FindOrCreate(order, newId);
      var cancelled := jobs[job].cancelRequested;
      ghost var run := [];
      if !cancelled {
        EnsureJobRunning(job);
        SameStart(w, order, newId);
        run := EnsureRunning(w, job);
        PerformedMore(w, w1, log0, log1, found, run);
      } else {
        assert found + [] == found;
      }
      ghost var w2, log2 := Now(), log;
      var e := EndJob(job, if cancelled then Cancelled else if ok then Succeeded else Failed, now);
      SaveJob(job, e);
      PerformedMore(w, w2, log0, log2, found + run, [e]);
      SameCancel(w, order, newId);
    }

    lemma SameCancel(w: World, order: seq<string>, newId: string)
      requires Orders(w, order) && newId !in w.jobs
      ensures var job, w1 := Chosen(order, newId), DoAll(w, FindOrCreate(order, newId));
              job in w1.jobs && (w1.jobs[job].cancelRequested <==> job in w.jobs && w.jobs[job].cancelRequested)
    {
      if order == [] {
        assert [CreateJob(newId)][..0] == [];
      } else {
        assert order[0] in order;
      }
    }
  }
}
