// The request registry of one session: which idempotency keys are remembered, for how long, and how a
// stranded one is folded into its job's outcome (jobs/lifecycle.py, lines 26-171).
module TurnRegistry {
  import opened Prelude
  import JobExecution

  datatype Outcome = Running | Succeeded | Failed | Cancelled

  // One remembered request. `input` stands for the digest of what was accepted under the key.
  datatype Record = Record(jobId: string, input: string, status: Outcome, updated: int, finished: Option<int>)

  // The turn a job last described.
  datatype Turn = Turn(request: string, status: Outcome)

  datatype SessionJob = SessionJob(status: JobExecution.Status, cancelRequested: bool, finished: Option<int>, active: Option<Turn>)

  type Registry = map<string, Record>
  type Jobs = map<string, SessionJob>

  const TTL: int := 7 * 24 * 60 * 60
  const MAX_TERMINAL: nat := 256

  function Timestamp(r: Record): int {
    if r.finished.Some? then r.finished.value else r.updated
  }

  // `_reconcile_running_request_record`: the record after it, or `None` if there is nothing to project yet.
  function Reconcile(jobs: Jobs, id: string, r: Record, now: int): Option<Record> {
    if r.status != Running || r.jobId !in jobs then None
    else
      var job := jobs[r.jobId];
      var end := r.(updated := now, finished := Some(if job.finished.Some? then job.finished.value else now));
      if job.active.Some? && job.active.value.request != "" && job.active.value.request != id then Some(end.(status := Failed))
      else if job.cancelRequested || job.status == JobExecution.Cancelled then Some(end.(status := Cancelled))
      else if job.status == JobExecution.Succeeded then Some(end.(status := Succeeded))
      else if job.status == JobExecution.Failed then Some(end.(status := Failed))
      else None
  }

  // ---- Pruning, one write or unlink at a time ----

  datatype Step = Fold(id: string, record: Record) | Drop(id: string)

  function Apply(reg: Registry, s: Step): Registry {
    match s
    case Fold(id, r) => reg[id := r]
    case Drop(id) => reg - {id}
  }

  function ApplyAll(reg: Registry, steps: seq<Step>): Registry {
    if steps == [] then reg else Apply(ApplyAll(reg, steps[..|steps| - 1]), steps[|steps| - 1])
  }

  datatype Stamp = Stamp(time: int, id: string)

  datatype Scan = Scan(steps: seq<Step>, terminal: seq<Stamp>)

  // One candidate file.
  function Consider(reg: Registry, jobs: Jobs, id: string, now: int): Scan {
    if id !in reg then Scan([], [])
    else
      var folded := Reconcile(jobs, id, reg[id], now);
      var r := if folded.Some? then folded.value else reg[id];
      var fold := if folded.Some? then [Fold(id, r)] else [];
      if r.status == Running then Scan(fold, [])
      else if Timestamp(r) < now - TTL then Scan(fold + [Drop(id)], [])
      else Scan(fold, [Stamp(Timestamp(r), id)])
  }

  // The first loop, in directory order.
  function Survey(reg: Registry, jobs: Jobs, listing: seq<string>, now: int): Scan {
    if listing == [] then Scan([], [])
    else
      var before := Survey(reg, jobs, listing[..|listing| - 1], now);
      var last := Consider(reg, jobs, listing[|listing| - 1], now);
      Scan(before.steps + last.steps, before.terminal + last.terminal)
  }

  function Insert(sorted: seq<Stamp>, x: Stamp): seq<Stamp> {
    if sorted == [] || sorted[|sorted| - 1].time <= x.time then sorted + [x]
    else Insert(sorted[..|sorted| - 1], x) + [sorted[|sorted| - 1]]
  }

  // Sorting by time, equal times staying in order.
  function SortByTime(stamps: seq<Stamp>): seq<Stamp> {
    if stamps == [] then [] else Insert(SortByTime(stamps[..|stamps| - 1]), stamps[|stamps| - 1])
  }

  function Overflow(stamps: seq<Stamp>): (n: nat)
    ensures n <= |stamps|
  {
    if |stamps| > MAX_TERMINAL then |stamps| - MAX_TERMINAL else 0
  }

  function Drops(stamps: seq<Stamp>): (steps: seq<Step>)
    ensures |steps| == |stamps| && forall i :: 0 <= i < |stamps| ==> steps[i] == Drop(stamps[i].id)
  {
    seq(|stamps|, i requires 0 <= i < |stamps| => Drop(stamps[i].id))
  }

  // `_prune_request_registry_unlocked`
  function Prune(reg: Registry, jobs: Jobs, listing: seq<string>, now: int): seq<Step> {
    var scan := Survey(reg, jobs, listing, now);
    var sorted := SortByTime(scan.terminal);
    scan.steps + Drops(sorted[..Overflow(sorted)])
  }

  ghost predicate IsListing(reg: Registry, listing: seq<string>) {
    && (forall id :: id in listing <==> id in reg)
    && (forall i, j :: 0 <= i < j < |listing| ==> listing[i] != listing[j])
  }

  // ---- When a step is right ----

  ghost predicate AtLeastAsNew(reg: Registry, id: string, x: string)
    requires id in reg
  {
    x != id && x in reg && reg[x].status != Running && Timestamp(reg[x]) >= Timestamp(reg[id])
  }

  // 256 retained terminal records are at least as new.
  ghost predicate Outranked(reg: Registry, id: string)
    requires id in reg
  {
    exists others: set<string> :: |others| == MAX_TERMINAL && forall x :: x in others ==> AtLeastAsNew(reg, id, x)
  }

  ghost predicate Expired(reg: Registry, id: string, now: int)
    requires id in reg
  {
    Timestamp(reg[id]) < now - TTL
  }

  ghost predicate Legal(reg: Registry, jobs: Jobs, now: int, s: Step) {
    match s
    case Fold(id, r) => id in reg && Reconcile(jobs, id, reg[id], now) == Some(r)
    case Drop(id) => id in reg && reg[id].status != Running && (Expired(reg, id, now) || Outranked(reg, id))
  }

  ghost predicate AllLegal(reg: Registry, jobs: Jobs, now: int, steps: seq<Step>) {
    steps == [] || (AllLegal(reg, jobs, now, steps[..|steps| - 1])
                    && Legal(ApplyAll(reg, steps[..|steps| - 1]), jobs, now, steps[|steps| - 1]))
  }

  lemma {:induction false} LegalPrefix(reg: Registry, jobs: Jobs, now: int, steps: seq<Step>, k: nat)
    requires AllLegal(reg, jobs, now, steps) && k <= |steps|
    ensures AllLegal(reg, jobs, now, steps[..k])
  {
    if k == |steps| {
      assert steps[..k] == steps;
    } else {
      assert steps[..|steps| - 1][..k] == steps[..k];
      LegalPrefix(reg, jobs, now, steps[..|steps| - 1], k);
    }
  }

  lemma {:induction false} ApplySplit(reg: Registry, xs: seq<Step>, ys: seq<Step>)
    ensures ApplyAll(reg, xs + ys) == ApplyAll(ApplyAll(reg, xs), ys)
  {
    if ys == [] {
      assert xs + ys == xs;
    } else {
      assert (xs + ys)[..|xs + ys| - 1] == xs + ys[..|ys| - 1];
      ApplySplit(reg, xs, ys[..|ys| - 1]);
    }
  }

  lemma {:induction false} LegalConcat(reg: Registry, jobs: Jobs, now: int, xs: seq<Step>, ys: seq<Step>)
    requires AllLegal(reg, jobs, now, xs) && AllLegal(ApplyAll(reg, xs), jobs, now, ys)
    ensures AllLegal(reg, jobs, now, xs + ys)
  {
    if ys == [] {
      assert xs + ys == xs;
    } else {
      var init := ys[..|ys| - 1];
      LegalConcat(reg, jobs, now, xs, init);
      ApplySplit(reg, xs, init);
      assert (xs + ys)[..|xs + ys| - 1] == xs + init;
    }
  }

  lemma LegalLast(reg: Registry, jobs: Jobs, now: int, steps: seq<Step>, s: Step)
    requires AllLegal(reg, jobs, now, steps) && Legal(ApplyAll(reg, steps), jobs, now, s)
    ensures AllLegal(reg, jobs, now, steps + [s]) && ApplyAll(reg, steps + [s]) == Apply(ApplyAll(reg, steps), s)
  {
    assert (steps + [s])[..|steps|] == steps;
  }

  // ---- The first loop ----

  // What a candidate has become, if it is still there.
  function Settled(jobs: Jobs, id: string, r: Record, now: int): Record {
    var folded := Reconcile(jobs, id, r, now);
    if folded.Some? then folded.value else r
  }

  // After surveying some of the files.
  ghost predicate Surveyed(reg: Registry, jobs: Jobs, now: int, done: set<string>, reg': Registry) {
    forall id ::
      && (id in reg' ==> id in reg)
      && (id in reg && id !in done ==> id in reg' && reg'[id] == reg[id])
      && (id in reg && id in done ==>
            var r := Settled(jobs, id, reg[id], now);
            if r.status != Running && Timestamp(r) < now - TTL then id !in reg' else id in reg' && reg'[id] == r)
  }

  // What becomes of one record.
  function Considered(reg: Registry, jobs: Jobs, id: string, now: int): Registry {
    if id !in reg then reg
    else
      var r := Settled(jobs, id, reg[id], now);
      if r.status != Running && Timestamp(r) < now - TTL then reg - {id} else reg[id := r]
  }

  lemma FoldLegal(reg: Registry, jobs: Jobs, id: string, now: int)
    requires id in reg
    ensures var folded := Reconcile(jobs, id, reg[id], now);
            var fold := if folded.Some? then [Fold(id, folded.value)] else [];
            AllLegal(reg, jobs, now, fold) && ApplyAll(reg, fold) == reg[id := Settled(jobs, id, reg[id], now)]
  {
    var folded := Reconcile(jobs, id, reg[id], now);
    if folded.Some? {
      LegalLast(reg, jobs, now, [], Fold(id, folded.value));
      assert [] + [Fold(id, folded.value)] == [Fold(id, folded.value)];
    } else {
      assert reg[id := reg[id]] == reg;
    }
  }

  lemma ConsiderLegal(reg: Registry, jobs: Jobs, id: string, now: int)
    ensures var c := Consider(reg, jobs, id, now);
            AllLegal(reg, jobs, now, c.steps) && ApplyAll(reg, c.steps) == Considered(reg, jobs, id, now)
  {
    if id in reg {
      FoldLegal(reg, jobs, id, now);
      var folded := Reconcile(jobs, id, reg[id], now);
      var fold := if folded.Some? then [Fold(id, folded.value)] else [];
      var r := Settled(jobs, id, reg[id], now);
      if r.status != Running && Timestamp(r) < now - TTL {
        LegalLast(reg, jobs, now, fold, Drop(id));
        assert reg[id := r] - {id} == reg - {id};
      }
    }
  }

  function Names(listing: seq<string>): set<string> {
    set i | 0 <= i < |listing| :: listing[i]
  }

  lemma NamesAppend(listing: seq<string>, id: string)
    ensures Names(listing + [id]) == Names(listing) + {id}
  {
    var all := listing + [id];
    assert all[|listing|] == id;
    forall x ensures x in Names(all) <==> x in Names(listing) || x == id {
      if x in Names(listing) {
        var i :| 0 <= i < |listing| && listing[i] == x;
        assert all[i] == x;
      }
      if x in Names(all) && x != id {
        var i :| 0 <= i < |all| && all[i] == x;
        assert listing[i] == x;
      }
    }
  }

  lemma SameConsider(reg: Registry, reg1: Registry, jobs: Jobs, id: string, now: int)
    requires id in reg ==> id in reg1 && reg1[id] == reg[id]
    requires id in reg1 ==> id in reg
    ensures Consider(reg, jobs, id, now) == Consider(reg1, jobs, id, now)
  {
  }

  lemma {:induction false} SurveyLegal(reg: Registry, jobs: Jobs, listing: seq<string>, now: int)
    requires forall i, j :: 0 <= i < j < |listing| ==> listing[i] != listing[j]
    ensures var s := Survey(reg, jobs, listing, now);
            && AllLegal(reg, jobs, now, s.steps)
            && Surveyed(reg, jobs, now, Names(listing), ApplyAll(reg, s.steps))
  {
    if listing != [] {
      var init, id := listing[..|listing| - 1], listing[|listing| - 1];
      SurveyLegal(reg, jobs, init, now);
      assert listing == init + [id];
      NamesAppend(init, id);
      assert id !in Names(init);
      var before := Survey(reg, jobs, init, now);
      var reg1 := ApplyAll(reg, before.steps);
      SameConsider(reg, reg1, jobs, id, now);
      ConsiderLegal(reg1, jobs, id, now);
      var last := Consider(reg, jobs, id, now);
      LegalConcat(reg, jobs, now, before.steps, last.steps);
      ApplySplit(reg, before.steps, last.steps);
      SurveyedNext(reg, jobs, now, Names(init), reg1, id, ApplyAll(reg1, last.steps));
    }
  }

  lemma SurveyedNext(reg: Registry, jobs: Jobs, now: int, done: set<string>, reg1: Registry, id: string, reg2: Registry)
    requires Surveyed(reg, jobs, now, done, reg1) && id !in done
    requires reg2 == Considered(reg1, jobs, id, now)
    ensures Surveyed(reg, jobs, now, done + {id}, reg2)
  {
  }

  // ---- Sorting ----

  ghost predicate Sorted(s: seq<Stamp>) {
    forall i, j :: 0 <= i < j < |s| ==> s[i].time <= s[j].time
  }

  ghost predicate DistinctIds(s: seq<Stamp>) {
    forall i, j :: 0 <= i < j < |s| ==> s[i].id != s[j].id
  }

  lemma {:induction false} InsertMembers(s: seq<Stamp>, x: Stamp)
    ensures |Insert(s, x)| == |s| + 1
    ensures forall y :: y in Insert(s, x) <==> y in s || y == x
  {
    if s != [] && s[|s| - 1].time > x.time {
      InsertMembers(s[..|s| - 1], x);
      assert s == s[..|s| - 1] + [s[|s| - 1]];
    }
  }

  lemma {:induction false} InsertSorts(s: seq<Stamp>, x: Stamp)
    requires Sorted(s)
    ensures Sorted(Insert(s, x))
  {
    if s != [] && s[|s| - 1].time > x.time {
      var init, last := s[..|s| - 1], s[|s| - 1];
      InsertSorts(init, x);
      InsertMembers(init, x);
      forall y | y in Insert(init, x) ensures y.time <= last.time {
      }
    }
  }

  lemma {:induction false} InsertStaysDistinct(s: seq<Stamp>, x: Stamp)
    requires DistinctIds(s) && forall y :: y in s ==> y.id != x.id
    ensures DistinctIds(Insert(s, x))
  {
    if s != [] && s[|s| - 1].time > x.time {
      var init, last := s[..|s| - 1], s[|s| - 1];
      InsertStaysDistinct(init, x);
      InsertMembers(init, x);
      forall y | y in Insert(init, x) ensures y.id != last.id {
        assert last in s;
      }
    }
  }

  lemma {:induction false} SortKeeps(s: seq<Stamp>)
    ensures Sorted(SortByTime(s)) && |SortByTime(s)| == |s|
    ensures forall y :: y in SortByTime(s) <==> y in s
    ensures DistinctIds(s) ==> DistinctIds(SortByTime(s))
  {
    if s != [] {
      var init, last := s[..|s| - 1], s[|s| - 1];
      SortKeeps(init);
      InsertMembers(SortByTime(init), last);
      InsertSorts(SortByTime(init), last);
      assert s == init + [last];
      if DistinctIds(s) {
        forall y | y in init ensures y.id != last.id {
          var i :| 0 <= i < |init| && init[i] == y;
          assert s[i] == y;
        }
        InsertStaysDistinct(SortByTime(init), last);
      }
    }
  }

  // ---- The second loop ----

  ghost predicate StampOf(reg: Registry, x: Stamp) {
    x.id in reg && reg[x.id].status != Running && x.time == Timestamp(reg[x.id])
  }

  // `stamps` lists exactly the terminal records among the given files.
  ghost predicate Stamped(reg: Registry, done: set<string>, stamps: seq<Stamp>) {
    && DistinctIds(stamps)
    && (forall x :: x in stamps ==> StampOf(reg, x) && x.id in done)
    && (forall id :: id in done && id in reg && reg[id].status != Running ==> Stamp(Timestamp(reg[id]), id) in stamps)
  }

  lemma StampedNext(reg: Registry, jobs: Jobs, now: int, done: set<string>, reg1: Registry, id: string, reg2: Registry, stamps: seq<Stamp>)
    requires Stamped(reg1, done, stamps) && id !in done && (id in reg1 <==> id in reg) && (id in reg ==> reg1[id] == reg[id])
    requires reg2 == Considered(reg1, jobs, id, now)
    ensures Stamped(reg2, done + {id}, stamps + Consider(reg, jobs, id, now).terminal)
  {
    var more := Consider(reg, jobs, id, now).terminal;
    var all := stamps + more;
    assert forall x :: x in all <==> x in stamps || x in more;
    assert forall x :: x in stamps ==> x.id != id && StampOf(reg2, x);
    if more != [] {
      assert more == [Stamp(Timestamp(reg2[id]), id)];
      assert more[0] in all;
    }
  }

  lemma {:induction false} SurveyStamps(reg: Registry, jobs: Jobs, listing: seq<string>, now: int)
    requires forall i, j :: 0 <= i < j < |listing| ==> listing[i] != listing[j]
    ensures var s := Survey(reg, jobs, listing, now);
            Stamped(ApplyAll(reg, s.steps), Names(listing), s.terminal)
  {
    if listing != [] {
      var init, id := listing[..|listing| - 1], listing[|listing| - 1];
      SurveyStamps(reg, jobs, init, now);
      SurveyLegal(reg, jobs, init, now);
      assert listing == init + [id];
      NamesAppend(init, id);
      assert id !in Names(init);
      var before := Survey(reg, jobs, init, now);
      var reg1 := ApplyAll(reg, before.steps);
      SameConsider(reg, reg1, jobs, id, now);
      ConsiderLegal(reg1, jobs, id, now);
      var last := Consider(reg, jobs, id, now);
      ApplySplit(reg, before.steps, last.steps);
      StampedNext(reg, jobs, now, Names(init), reg1, id, ApplyAll(reg1, last.steps), before.terminal);
    }
  }

  function Ids(stamps: seq<Stamp>): set<string> {
    if stamps == [] then {} else Ids(stamps[..|stamps| - 1]) + {stamps[|stamps| - 1].id}
  }

  lemma {:induction false} IdsMember(stamps: seq<Stamp>, id: string)
    ensures id in Ids(stamps) <==> exists i :: 0 <= i < |stamps| && stamps[i].id == id
  {
    if stamps != [] {
      var init := stamps[..|stamps| - 1];
      IdsMember(init, id);
      if i :| 0 <= i < |stamps| && stamps[i].id == id {
        assert i < |init| ==> init[i].id == id;
      }
      if i :| 0 <= i < |init| && init[i].id == id {
        assert stamps[i].id == id;
      }
    }
  }

  lemma IdsHas(stamps: seq<Stamp>, i: nat)
    requires i < |stamps|
    ensures stamps[i].id in Ids(stamps)
  {
    IdsMember(stamps, stamps[i].id);
  }

  lemma {:induction false} IdsCount(stamps: seq<Stamp>)
    requires DistinctIds(stamps)
    ensures |Ids(stamps)| == |stamps|
  {
    if stamps != [] {
      var init := stamps[..|stamps| - 1];
      IdsCount(init);
      IdsMember(init, stamps[|stamps| - 1].id);
    }
  }

  // The first `n` of the sorted stamps, while the newest 256 stay.
  lemma {:induction false} DropsLegal(reg: Registry, jobs: Jobs, now: int, sorted: seq<Stamp>, n: nat)
    requires Sorted(sorted) && DistinctIds(sorted) && (forall x :: x in sorted ==> StampOf(reg, x))
    requires n <= Overflow(sorted)
    ensures AllLegal(reg, jobs, now, Drops(sorted[..n]))
    ensures ApplyAll(reg, Drops(sorted[..n])) == reg - Ids(sorted[..n])
  {
    if n == 0 {
      assert Drops(sorted[..0]) == [];
    } else {
      DropsLegal(reg, jobs, now, sorted, n - 1);
      OldestIsOutranked(reg, sorted, n - 1);
      OneMoreDrop(reg, sorted, n);
      LegalLast(reg, jobs, now, Drops(sorted[..n - 1]), Drop(sorted[n - 1].id));
    }
  }

  lemma OneMoreDrop(reg: Registry, sorted: seq<Stamp>, n: nat)
    requires 0 < n <= |sorted|
    ensures Drops(sorted[..n]) == Drops(sorted[..n - 1]) + [Drop(sorted[n - 1].id)]
    ensures Apply(reg - Ids(sorted[..n - 1]), Drop(sorted[n - 1].id)) == reg - Ids(sorted[..n])
  {
    assert sorted[..n][..n - 1] == sorted[..n - 1] && sorted[..n][n - 1] == sorted[n - 1];
    assert Ids(sorted[..n]) == Ids(sorted[..n - 1]) + {sorted[n - 1].id};
  }

  lemma OldestIsOutranked(reg: Registry, sorted: seq<Stamp>, k: nat)
    requires Sorted(sorted) && DistinctIds(sorted) && (forall x :: x in sorted ==> StampOf(reg, x))
    requires k < Overflow(sorted)
    ensures var reg1 := reg - Ids(sorted[..k]);
            sorted[k].id in reg1 && reg1[sorted[k].id].status != Running && Outranked(reg1, sorted[k].id)
  {
    var reg1 := reg - Ids(sorted[..k]);
    var newest := sorted[Overflow(sorted)..];
    StillThere(reg, sorted, k, k);
    TailDistinct(sorted, Overflow(sorted));
    IdsCount(newest);
    forall id | id in Ids(newest) ensures AtLeastAsNew(reg1, sorted[k].id, id) {
      IdsMember(newest, id);
      var i :| 0 <= i < |newest| && newest[i].id == id;
      StillThere(reg, sorted, k, Overflow(sorted) + i);
    }
    assert |Ids(newest)| == MAX_TERMINAL;
  }

  lemma TailDistinct(sorted: seq<Stamp>, n: nat)
    requires DistinctIds(sorted) && n <= |sorted|
    ensures DistinctIds(sorted[n..])
  {
  }

  // Dropping the first `k` leaves the others.
  lemma StillThere(reg: Registry, sorted: seq<Stamp>, k: nat, i: nat)
    requires DistinctIds(sorted) && (forall x :: x in sorted ==> StampOf(reg, x)) && k <= i < |sorted|
    ensures var reg1 := reg - Ids(sorted[..k]);
            sorted[i].id in reg1 && reg1[sorted[i].id] == reg[sorted[i].id] && StampOf(reg, sorted[i])
  {
    assert sorted[i] in sorted;
    IdsMember(sorted[..k], sorted[i].id);
  }

  // ---- The whole prune ----

  // Every write or unlink is right when it happens, so pruning may stop after any of them.
  lemma PruneLegal(reg: Registry, jobs: Jobs, listing: seq<string>, now: int)
    requires IsListing(reg, listing)
    ensures AllLegal(reg, jobs, now, Prune(reg, jobs, listing, now))
  {
    var scan := Survey(reg, jobs, listing, now);
    var reg1 := ApplyAll(reg, scan.steps);
    SurveyLegal(reg, jobs, listing, now);
    SurveyStamps(reg, jobs, listing, now);
    var sorted := SortByTime(scan.terminal);
    SortKeeps(scan.terminal);
    DropsLegal(reg1, jobs, now, sorted, Overflow(sorted));
    LegalConcat(reg, jobs, now, scan.steps, Drops(sorted[..Overflow(sorted)]));
  }

  function Terminal(reg: Registry): set<string> {
    set id | id in reg && reg[id].status != Running
  }

  // What is left: at most 256 terminal records, none older than seven days, and every record whose job has
  // not ended, as it was.
  lemma PruneResult(reg: Registry, jobs: Jobs, listing: seq<string>, now: int)
    requires IsListing(reg, listing)
    ensures var reg' := ApplyAll(reg, Prune(reg, jobs, listing, now));
            && |Terminal(reg')| <= MAX_TERMINAL
            && (forall id :: id in reg' ==> id in reg && reg'[id] == Settled(jobs, id, reg[id], now))
            && (forall id :: id in Terminal(reg') ==> !Expired(reg', id, now))
            && (forall id :: id in reg && Settled(jobs, id, reg[id], now).status == Running ==> id in reg')
  {
    var scan := Survey(reg, jobs, listing, now);
    var reg1 := ApplyAll(reg, scan.steps);
    SurveyLegal(reg, jobs, listing, now);
    SurveyStamps(reg, jobs, listing, now);
    var sorted := SortByTime(scan.terminal);
    SortKeeps(scan.terminal);
    AllNamed(reg, listing);
    DropsLegal(reg1, jobs, now, sorted, Overflow(sorted));
    ApplySplit(reg, scan.steps, Drops(sorted[..Overflow(sorted)]));
    NewestStay(reg1, sorted);
  }

  // Dropping the overflow takes terminal records only, and leaves at most 256 of them.
  lemma NewestStay(reg: Registry, sorted: seq<Stamp>)
    requires Stamped(reg, reg.Keys, sorted)
    ensures var reg' := reg - Ids(sorted[..Overflow(sorted)]);
            && |Terminal(reg')| <= MAX_TERMINAL
            && forall id :: id in reg && reg[id].status == Running ==> id in reg'
  {
    var n := Overflow(sorted);
    TailDistinct(sorted, n);
    IdsCount(sorted[n..]);
    TerminalKept(reg, sorted, n);
    Fewer(Terminal(reg - Ids(sorted[..n])), Ids(sorted[n..]));
    forall id | id in Ids(sorted[..n]) ensures id in reg && reg[id].status != Running {
      IdsMember(sorted[..n], id);
      var i :| 0 <= i < n && sorted[..n][i].id == id;
      assert sorted[i] in sorted;
    }
  }

  lemma TerminalKept(reg: Registry, sorted: seq<Stamp>, n: nat)
    requires Stamped(reg, reg.Keys, sorted) && n <= |sorted|
    ensures Terminal(reg - Ids(sorted[..n])) <= Ids(sorted[n..])
  {
    forall id | id in Terminal(reg - Ids(sorted[..n])) ensures id in Ids(sorted[n..]) {
      var i :| 0 <= i < |sorted| && sorted[i] == Stamp(Timestamp(reg[id]), id);
      if i < n {
        IdsHas(sorted[..n], i);
      } else {
        IdsHas(sorted[n..], i - n);
      }
    }
  }

  lemma AllNamed(reg: Registry, listing: seq<string>)
    requires IsListing(reg, listing)
    ensures Names(listing) == reg.Keys
  {
    forall id ensures id in Names(listing) <==> id in reg {
      if id in listing {
        var i :| 0 <= i < |listing| && listing[i] == id;
      }
    }
  }

  lemma {:induction false} Fewer(a: set<string>, b: set<string>)
    requires a <= b
    ensures |a| <= |b|
    decreases |a|
  {
    if a != {} {
      var x :| x in a;
      Fewer(a - {x}, b - {x});
    }
  }
}
