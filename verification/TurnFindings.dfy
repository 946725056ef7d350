// A run that ends with the turns of two keys open: setting a job running again does not look for another open
// turn (jobs/lifecycle.py, lines 735-750; backend/api/session_routes.py, lines 266-288).
module TurnFindings {
  import opened Prelude
  import JobExecution
  import opened TurnRegistry
  import opened TurnClaims
  import opened TurnRuns

  lemma OneMore(w: World, ops: seq<Operation>, op: Operation)
    requires Possible(w, ops) && Finds(After(w, ops), op)
    ensures Possible(w, ops + [op]) && After(w, ops + [op]) == DoAll(After(w, ops), Writes(After(w, ops), op))
  {
    assert (ops + [op])[..|ops|] == ops;
    DoSplit(w, Events(w, ops), Writes(After(w, ops), op));
  }

  lemma DoLast(w: World, es: seq<Event>, e: Event)
    ensures DoAll(w, es + [e]) == Do(DoAll(w, es), e)
  {
    assert (es + [e])[..|es|] == es;
  }

  ghost predicate Leads(w0: World, ops: seq<Operation>, w: World) {
    Possible(w0, ops) && After(w0, ops) == w
  }

  lemma SingleMore(w0: World, ops: seq<Operation>, w: World, e: Event)
    requires Leads(w0, ops, w) && Alone(w, e)
    ensures Leads(w0, ops + [Single(e)], Do(w, e))
  {
    OneMore(w0, ops, Single(e));
    DoLast(w, [], e);
    assert [] + [e] == [e];
  }

  function OpenJob(status: JobExecution.Status, finished: Option<int>, request: string): SessionJob {
    SessionJob(status, false, finished, Some(Turn(request, Running)))
  }

  const NEW := SessionJob(JobExecution.Created, false, None, None)

  // A claim that is carried through.
  function Asks(w: World, id: string, listing: seq<string>, order: seq<string>, newId: string): Operation {
    ClaimTurn(id, "", 0, listing, order, newId, |Claim(w, id, "", 0, listing, order, newId).events|)
  }

  // A created job is set running and given its turn.
  lemma FreshEffect(w: World, found: seq<Event>, job: string, id: string)
    requires job in DoAll(w, found).jobs && DoAll(w, found).jobs[job] == NEW
    ensures var w1 := DoAll(w, found);
            DoAll(w, found + [Start(job)] + [Reset(job)] + [OpenTurn(job, id)])
            == w1.(jobs := w1.jobs[job := OpenJob(JobExecution.Running, None, id)])
  {
    DoLast(w, found, Start(job));
    DoLast(w, found + [Start(job)], Reset(job));
    DoLast(w, found + [Start(job)] + [Reset(job)], OpenTurn(job, id));
  }

  lemma FoundEffect(w: World, order: seq<string>, newId: string)
    requires order == [] || (order[0] in w.jobs && w.jobs[order[0]] == NEW)
    ensures DoAll(w, FindOrCreate(order, newId)) == w.(jobs := w.jobs[Chosen(order, newId) := NEW])
  {
    if order == [] {
      DoLast(w, [], CreateJob(newId));
      assert [] + [CreateJob(newId)] == FindOrCreate(order, newId);
    } else {
      assert w.jobs[order[0] := w.jobs[order[0]]] == w.jobs;
    }
  }

  // Where the session's first job is new, or there is none, a turn begins on it and nothing else changes.
  lemma BeginEffect(w: World, id: string, order: seq<string>, newId: string, job: string)
    requires job == Chosen(order, newId) && (if order == [] then newId !in w.jobs else order[0] in w.jobs && w.jobs[order[0]] == NEW)
    ensures DoAll(w, Begin(w, id, order, newId)) == w.(jobs := w.jobs[job := OpenJob(JobExecution.Running, None, id)])
  {
    FoundEffect(w, order, newId);
    FreshEffect(w, FindOrCreate(order, newId), job, id);
    BeginShape(w, id, order, newId, job);
    SetTwice(w.jobs, job, NEW, OpenJob(JobExecution.Running, None, id));
  }

  lemma SetTwice<K, V>(m: map<K, V>, k: K, a: V, b: V)
    ensures m[k := a][k := b] == m[k := b]
  {
  }

  lemma BeginShape(w: World, id: string, order: seq<string>, newId: string, job: string)
    requires job == Chosen(order, newId) && (job in w.jobs ==> w.jobs[job] == NEW)
    ensures Begin(w, id, order, newId) == FindOrCreate(order, newId) + [Start(job)] + [Reset(job)] + [OpenTurn(job, id)]
  {
    assert EnsureRunning(w, job) == [Start(job)] + [Reset(job)];
    Associative(FindOrCreate(order, newId), [Start(job)], [Reset(job)]);
  }

  // What is known of the session after such a claim.
  ghost predicate Begun(w: World, w': World, id: string, job: string) {
    && w'.jobs == w.jobs[job := OpenJob(JobExecution.Running, None, id)]
    && id in w'.registry && forall x :: x in w'.registry ==> x == id || x in w.registry
  }

  lemma DecideBegins(w: World, id: string, order: seq<string>, newId: string, job: string)
    requires id != "" && id !in w.registry && NoneOpen(w) && Orders(w, order) && newId !in w.jobs
    requires job == Chosen(order, newId) && (order == [] || (order[0] in w.jobs && w.jobs[order[0]] == NEW))
    ensures var c := Decide(w, id, "", 0, order, newId);
            c.answer == Granted(job) && Begun(w, DoAll(w, c.events), id, job)
  {
    FirstOpenFinds(w, order);
    BeginEffect(w, id, order, newId, job);
    DoLast(w, Begin(w, id, order, newId), Remember(id, "", job, 0));
  }

  lemma PrunedKeys(w: World, id: string, listing: seq<string>)
    requires id != "" && IsListing(w.registry, listing)
    ensures var w1 := DoAll(w, Pruning(w, id, 0, listing));
            w1.jobs == w.jobs && forall x :: x in w1.registry ==> x in w.registry
  {
    KeptEffect(w, 0, Prune(w.registry, w.jobs, listing, 0));
    PruneResult(w.registry, w.jobs, listing, 0);
  }

  lemma ClaimBegins(w: World, id: string, listing: seq<string>, order: seq<string>, newId: string, job: string)
    requires id != "" && id !in w.registry && NoneOpen(w) && IsListing(w.registry, listing) && Orders(w, order) && newId !in w.jobs
    requires job == Chosen(order, newId) && (order == [] || (order[0] in w.jobs && w.jobs[order[0]] == NEW))
    ensures var c := Claim(w, id, "", 0, listing, order, newId);
            c.answer == Granted(job) && Begun(w, DoAll(w, c.events), id, job)
  {
    var prune := Pruning(w, id, 0, listing);
    var w1 := DoAll(w, prune);
    PrunedKeys(w, id, listing);
    SameJobs(w, w1, order);
    assert forall j :: Open(w, j) <==> Open(w1, j);
    DecideBegins(w1, id, order, newId, job);
    DoSplit(w, prune, Decide(w1, id, "", 0, order, newId).events);
  }

  // The claim would be granted and is carried through.
  predicate Answered(w: World, op: Operation) {
    op.ClaimTurn? &&
    var c := Claim(w, op.id, op.input, op.now, op.listing, op.order, op.newId);
    c.answer.Granted? && |c.events| <= op.cut
  }

  lemma ClaimMore(w0: World, ops: seq<Operation>, w: World, id: string, listing: seq<string>, order: seq<string>, newId: string, job: string)
    returns (w': World)
    requires Leads(w0, ops, w)
    requires id != "" && id !in w.registry && NoneOpen(w) && IsListing(w.registry, listing) && Orders(w, order) && newId !in w.jobs
    requires job == Chosen(order, newId) && (order == [] || (order[0] in w.jobs && w.jobs[order[0]] == NEW))
    ensures Leads(w0, ops + [Asks(w, id, listing, order, newId)], w') && Begun(w, w', id, job)
    ensures Answered(w, Asks(w, id, listing, order, newId))
  {
    var op := Asks(w, id, listing, order, newId);
    ClaimBegins(w, id, listing, order, newId, job);
    OneMore(w0, ops, op);
    w' := After(w0, ops + [op]);
    assert Writes(w, op) == Claim(w, id, "", 0, listing, order, newId).events;
  }

  const EMPTY: World := World(map[], map[])

  lemma OneAsked(a: string, x: string) returns (ops: seq<Operation>, w: World)
    requires a != ""
    ensures Leads(EMPTY, ops, w) && |ops| == 1 && Asked(ops[0], a) && Grant(EMPTY, ops, 0) && Begun(EMPTY, w, a, x)
  {
    var op := Asks(EMPTY, a, [], [], x);
    assert Events(EMPTY, []) == [];
    w := ClaimMore(EMPTY, [], EMPTY, a, [], [], x, x);
    GrantsCarry([], op, EMPTY);
    ops := [] + [op];
  }

  // The first turn is granted, its job is ended from outside, and the session gets a second job.
  lemma FirstThree(a: string, x: string, y: string) returns (ops: seq<Operation>, w: World)
    requires a != "" && x != y
    ensures Leads(EMPTY, ops, w) && |ops| == 3 && Asked(ops[0], a) && Grant(EMPTY, ops, 0) && SecondJob(w, a, x, y)
  {
    var one, w1 := OneAsked(a, x);
    var e, f := EndJob(x, Failed, 0), CreateJob(y);
    EndsAndCreates(w1, a, x, y);
    SingleMore(EMPTY, one, w1, e);
    GrantsStay(one, Single(e));
    SingleMore(EMPTY, one + [Single(e)], Do(w1, e), f);
    GrantsStay(one + [Single(e)], Single(f));
    ops := one + [Single(e)] + [Single(f)];
    w := Do(Do(w1, e), f);
  }

  // The first turn's job has been ended with the turn left on it; there is a second job, and one key remembered.
  ghost predicate SecondJob(w: World, a: string, x: string, y: string) {
    && w.jobs == map[x := OpenJob(JobExecution.Failed, Some(0), a), y := NEW]
    && a in w.registry && forall id :: id in w.registry ==> id == a
  }

  lemma EndsAndCreates(w: World, a: string, x: string, y: string)
    requires x != y && Begun(EMPTY, w, a, x)
    ensures y !in Do(w, EndJob(x, Failed, 0)).jobs && SecondJob(Do(Do(w, EndJob(x, Failed, 0)), CreateJob(y)), a, x, y)
  {
  }

  predicate Asked(op: Operation, id: string) {
    op.ClaimTurn? && op.id == id
  }

  // The next turn, under another key, is granted on the second job.
  lemma FirstFour(a: string, b: string, x: string, y: string, z: string) returns (ops: seq<Operation>, w: World)
    requires a != "" && b != "" && a != b && x != y && z !in {x, y}
    ensures Leads(EMPTY, ops, w) && |ops| == 4
    ensures Asked(ops[0], a) && Grant(EMPTY, ops, 0) && Asked(ops[3], b) && Grant(EMPTY, ops, 3)
    ensures w.jobs == map[x := OpenJob(JobExecution.Failed, Some(0), a), y := OpenJob(JobExecution.Running, None, b)]
  {
    var three, w3 := FirstThree(a, x, y);
    SecondIsReady(w3, a, x, y);
    var op := Asks(w3, b, [a], [y, x], z);
    w := ClaimMore(EMPTY, three, w3, b, [a], [y, x], z, y);
    GrantsCarry(three, op, w3);
    SecondBegun(w3, w, a, b, x, y);
    ops := three + [op];
  }

  lemma SecondBegun(w3: World, w: World, a: string, b: string, x: string, y: string)
    requires SecondJob(w3, a, x, y) && x != y && Begun(w3, w, b, y)
    ensures w.jobs == map[x := OpenJob(JobExecution.Failed, Some(0), a), y := OpenJob(JobExecution.Running, None, b)]
  {
  }

  lemma SecondIsReady(w: World, a: string, x: string, y: string)
    requires x != y && SecondJob(w, a, x, y)
    ensures NoneOpen(w) && IsListing(w.registry, [a]) && Orders(w, [y, x]) && w.jobs[y] == NEW
  {
  }

  // What was granted stays so as the run goes on.
  lemma GrantsCarry(ops: seq<Operation>, op: Operation, w: World)
    requires Leads(EMPTY, ops, w) && Answered(w, op)
    ensures Grant(EMPTY, ops + [op], |ops|)
    ensures forall i :: 0 <= i < |ops| && Grant(EMPTY, ops, i) ==> Grant(EMPTY, ops + [op], i)
  {
    assert (ops + [op])[..|ops|] == ops;
    GrantsStay(ops, op);
  }

  lemma GrantsStay(ops: seq<Operation>, op: Operation)
    ensures forall i :: 0 <= i < |ops| && Grant(EMPTY, ops, i) ==> Grant(EMPTY, ops + [op], i)
  {
    forall i | 0 <= i < |ops| && Grant(EMPTY, ops, i) ensures Grant(EMPTY, ops + [op], i) {
      assert (ops + [op])[..i] == ops[..i] && (ops + [op])[i] == ops[i];
    }
  }

  lemma Reopened(w: World, a: string, b: string, x: string, y: string)
    requires x != y
    requires w.jobs == map[x := OpenJob(JobExecution.Failed, Some(0), a), y := OpenJob(JobExecution.Running, None, b)]
    ensures !MayStart(w, x) && Open(Do(w, Start(x)), x) && Open(Do(w, Start(x)), y)
  {
    assert Open(w, y);
  }

  // Restoring the session sets the first job running again: the turns of two keys are open at once.
  lemma TwoTurnsOpen(a: string, b: string, x: string, y: string, z: string) returns (ops: seq<Operation>)
    requires a != "" && b != "" && a != b && x != y && z !in {x, y}
    ensures Possible(EMPTY, ops) && |ops| == 5
    ensures Asked(ops[0], a) && Grant(EMPTY, ops, 0) && Asked(ops[3], b) && Grant(EMPTY, ops, 3)
    ensures ops[4] == Single(Start(x)) && !MayStart(After(EMPTY, ops[..4]), x)
    ensures Open(After(EMPTY, ops), x) && Open(After(EMPTY, ops), y)
  {
    var four, w := FirstFour(a, b, x, y, z);
    Reopened(w, a, b, x, y);
    SingleMore(EMPTY, four, w, Start(x));
    GrantsStay(four, Single(Start(x)));
    ops := four + [Single(Start(x))];
    assert ops[..4] == four;
  }
}
