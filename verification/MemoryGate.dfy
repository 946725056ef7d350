// The write gate, and every run of the memory store
// (storage/memory_governance.py, lines 412-431 and 436-620).
module MemoryGate {
  import opened Prelude
  import opened MemoryGraph
  import opened MemoryLifecycle
  import opened MemoryConfirm

  // ---- What the gate decides from outside the store ----

  datatype Verdict = Missing | TooLow | Keep(score: int, summary: string)

  // Answers of the text checks the gate consults: workspace validation, secret and low-value detection,
  // redaction, the cached consolidation decision and the verified tool quotation. `damaged` says that the
  // file at the candidate's id could not be read.
  datatype Judgement = Judgement(
    knownWorkspace: bool,
    damaged: bool,
    secret: bool,
    lowValue: bool,
    content: string,
    summary: string,
    verdict: Verdict,
    observed: bool)

  datatype Reply =
    | Refused(error: string)
    | Held(status: Status, id: string)
    | Duplicate(status: Status, id: string)
    | Stored(status: Status)

  datatype Outcome = Outcome(reply: Reply, writes: seq<Write>)

  predicate HexDigit(c: char) {
    '0' <= c <= '9' || 'a' <= c <= 'f'
  }

  predicate ValidId(id: string) {
    |id| == 16 && id[..4] == "mem-" && forall i :: 4 <= i < 16 ==> HexDigit(id[i])
  }

  predicate Subagent(c: Record) {
    c.createdBy == "subagent" || c.source == "subagent"
  }

  predicate AgentGenerated(c: Record) {
    c.source == "agent_suggestion" || Subagent(c)
  }

  // The status a candidate has before conflicts are considered.
  function GateStatus(c: Record, j: Judgement): Status {
    var s0 := if AgentGenerated(c) then Pending else c.status;
    var s1 := if s0 == Pending && c.kind in {"core_rule", "knowledge_note", "profile"} && c.confident
                 && c.source in {"user", "manual_confirm"} then Active else s0;
    if !AgentGenerated(c) then s1
    else match j.verdict
      case Keep(score, _) =>
        if Subagent(c) || score < 4 || c.kind !in {"semantic_fact", "episodic_case"}
           || c.authority != "verified_tool" || !j.observed
        then Pending else Active
      case _ => Pending
  }

  function Prepared(c: Record, j: Judgement): Record {
    c.(content := j.content,
       summary := if AgentGenerated(c) && j.verdict.Keep? && j.verdict.summary != "" then j.verdict.summary else j.summary,
       status := GateStatus(c, j))
  }

  function Text(r: Record): string {
    Strip(if r.content != "" then r.content else r.summary)
  }

  // ---- Conflicts ----

  predicate Conflicting(st: Store, c: Record, id: string) {
    && id in st && id != c.id && !Superseded(st, id)
    && st[id].scope == c.scope && st[id].kind == c.kind
    && (c.scope == Session ==> st[id].session == c.session)
    && (c.scope == Task ==> st[id].task == c.task)
    && (st[id].status == Active || st[id].status == Pending)
    && st[id].key == c.key
  }

  // `find_conflicts`: visible records under the same key, in listing order.
  function FindConflicts(st: Store, listing: seq<string>, c: Record): (ids: seq<string>)
    ensures forall x :: x in ids ==> x in listing && Conflicting(st, c, x)
  {
    if c.key == "" || listing == [] then []
    else
      var last := listing[|listing| - 1];
      FindConflicts(st, listing[..|listing| - 1], c) + (if Conflicting(st, c, last) then [last] else [])
  }

  function FirstDuplicate(st: Store, ids: seq<string>, c: Record): (d: Option<string>)
    requires forall x :: x in ids ==> x in st
    ensures d.Some? ==> d.value in ids && Text(st[d.value]) == Text(c)
    ensures d.None? ==> forall x :: x in ids ==> Text(st[x]) != Text(c)
  {
    if ids == [] then None
    else if Text(st[ids[0]]) == Text(c) then Some(ids[0])
    else FirstDuplicate(st, ids[1..], c)
  }

  // The most recently updated, the earliest listed among equals.
  function Newest(st: Store, ids: seq<string>): (id: string)
    requires ids != [] && forall x :: x in ids ==> x in st
    ensures id in ids && forall x :: x in ids ==> st[x].updatedAt <= st[id].updatedAt
  {
    if |ids| == 1 then ids[0]
    else
      var best := Newest(st, ids[1..]);
      if st[best].updatedAt <= st[ids[0]].updatedAt then ids[0] else best
  }

  function ActiveOnes(st: Store, ids: seq<string>): (r: seq<string>)
    requires forall x :: x in ids ==> x in st
    ensures forall x :: x in r <==> x in ids && st[x].status == Active
  {
    if ids == [] then []
    else
      var last := ids[|ids| - 1];
      ActiveOnes(st, ids[..|ids| - 1]) + (if st[last].status == Active then [last] else [])
  }

  function MarkGroup(st: Store, ids: seq<string>, group: string, now: int): seq<Write>
    requires forall x :: x in ids ==> x in st
  {
    if ids == [] then []
    else
      var last := ids[|ids| - 1];
      MarkGroup(st, ids[..|ids| - 1], group, now) + [Save(st[last].(group := group, updatedAt := now))]
  }

  // ---- The gate ----

  // Checks before any conflict is looked for. `None` lets the candidate through.
  function GateRefusal(st: Store, c: Record, j: Judgement): Option<Outcome> {
    if c.workspace == "" then Some(Outcome(Refused("workspace_id is required"), []))
    else if !j.knownWorkspace then Some(Outcome(Refused("invalid_workspace_id"), []))
    else if c.scope == Unknown then Some(Outcome(Refused("invalid_memory_scope"), []))
    else if c.kind !in KINDS then Some(Outcome(Refused("invalid_memory_type"), []))
    else if c.scope == Session && c.session == "" then Some(Outcome(Refused("session_id_required"), []))
    else if c.scope == Task && c.task == "" then Some(Outcome(Refused("task_id_required"), []))
    else if !ValidId(c.id) then Some(Outcome(Refused("invalid_memory_id"), []))
    else if j.damaged then Some(Outcome(Refused("memory_record_unavailable"), []))
    else if c.id in st && Visible(c.workspace, st[c.id]) then
      if st[c.id].content == j.content && SameDomain(c, st[c.id])
      then Some(Outcome(Held(st[c.id].status, c.id), []))
      else Some(Outcome(Refused("memory_identity_conflict"), []))
    else if j.secret then Some(Outcome(Refused("content contains secret-like patterns, rejected"), []))
    else if j.lowValue then
      Some(Outcome(Refused("low_value_memory"), [Save(c.(content := j.content, summary := j.summary, status := Rejected))]))
    else
      var t := c.supersedes;
      if t != "" && (t !in st || !Visible(c.workspace, st[t]) || t == c.id || !SameDomain(c, st[t]))
      then Some(Outcome(Refused("invalid_memory_revision_target"), []))
      else if t != "" && Superseded(st, t) then Some(Outcome(Refused("memory_revision_stale"), []))
      else None
  }

  function AllConflicts(st: Store, listing: seq<string>, c: Record): (ids: seq<string>)
    requires c.supersedes != "" ==> c.supersedes in st && c.supersedes != c.id && !Superseded(st, c.supersedes) && SameDomain(c, st[c.supersedes])
    ensures forall x :: x in ids ==> x in st && x != c.id && !Superseded(st, x)
  {
    var found := FindConflicts(st, listing, c);
    if c.supersedes != "" && st[c.supersedes].status == Active && c.supersedes !in found
    then found + [c.supersedes] else found
  }

  // The candidate as it is saved, and the group marks written before it.
  function Resolved(st: Store, listing: seq<string>, c: Record, now: int, group: string): (Record, seq<Write>)
    requires c.supersedes != "" ==> c.supersedes in st && c.supersedes != c.id && !Superseded(st, c.supersedes) && SameDomain(c, st[c.supersedes])
  {
    var conflicts := AllConflicts(st, listing, c);
    if conflicts != [] && c.source in {"user", "manual_confirm"} && (c.supersedes != "" || c.kind == "core_rule") then
      (c.(supersedes := if c.supersedes != "" then c.supersedes else Newest(st, conflicts)), [])
    else if ActiveOnes(st, conflicts) != [] then
      (c.(status := Conflict, group := group), MarkGroup(st, ActiveOnes(st, conflicts), group, now))
    else (c, [])
  }

  // Writes after the candidate is saved: its undecided target is rejected, then, if it is in force,
  // what it revises is expired.
  function GateTail(st1: Store, target: string, c: Record, now: int): seq<Write>
    requires c.id in st1
  {
    var reject := if target in st1 && Undecided(st1[target])
                  then [Save(st1[target].(status := Rejected, updatedAt := now, supersededBy := c.id))] else [];
    reject
    + (if c.status == Active then var st2 := ApplyAll(st1, reject); RetireAll(st2, Ancestors(st2, c), c.id, now) else [])
  }

  // Everything written for a candidate that is stored.
  function StoreWrites(st: Store, listing: seq<string>, c: Record, now: int, group: string): seq<Write>
    requires c.supersedes != "" ==> c.supersedes in st && c.supersedes != c.id && !Superseded(st, c.supersedes) && SameDomain(c, st[c.supersedes])
  {
    var (saved, marks) := Resolved(st, listing, c, now, group);
    marks + ([Save(saved)] + GateTail(ApplyAll(st, marks)[saved.id := saved], c.supersedes, saved, now))
  }

  // What happens to a candidate that passed every check.
  function Admission(st: Store, listing: seq<string>, c: Record, now: int, group: string): Outcome
    requires c.supersedes != "" ==> c.supersedes in st && c.supersedes != c.id && !Superseded(st, c.supersedes) && SameDomain(c, st[c.supersedes])
  {
    var duplicate := FirstDuplicate(st, AllConflicts(st, listing, c), c);
    if duplicate.Some? then Outcome(Duplicate(st[duplicate.value].status, duplicate.value), [])
    else Outcome(Stored(Resolved(st, listing, c, now, group).0.status), StoreWrites(st, listing, c, now, group))
  }

  function Gate(st: Store, listing: seq<string>, c: Record, j: Judgement, now: int, group: string): Outcome {
    var refusal := GateRefusal(st, c, j);
    if refusal.Some? then refusal.value else Admission(st, listing, Prepared(c, j), now, group)
  }

  // ---- At most one record in force replaces another directly ----

  ghost predicate ForkFree(st: Store) {
    forall a, b :: a in st && b in st && a != b && st[a].status == Active && st[b].status == Active
      && SameDomain(st[a], st[b]) && st[a].supersedes == st[b].supersedes && st[a].supersedes != ""
      ==> st[a].supersedes == a || st[a].supersedes == b
  }

  // What a single write must satisfy to keep that.
  ghost predicate Admissible(st: Store, w: Write) {
    match w
    case Unlink(_) => true
    case Save(r) =>
      r.id != "" &&
      (|| r.status != Active
       || (r.id in st && SameLinks(st[r.id], r) && st[r.id].status == Active)
       || r.supersedes == ""
       || (r.supersedes in st && SameDomain(r, st[r.supersedes]) && !Superseded(st, r.supersedes)))
  }

  ghost predicate AllAdmissible(st: Store, ws: seq<Write>) {
    forall i :: 0 <= i < |ws| ==> Admissible(ApplyAll(st, ws[..i]), ws[i])
  }

  lemma DirectReplacement(st: Store, b: string)
    requires WellFormed(st) && b in st && st[b].status == Active && Link(st, b).Some? && Link(st, b).value != b
    ensures Superseded(st, st[b].supersedes)
  {
    LinkReaches(st, b);
    SupersededIfActiveOver(st, b, st[b].supersedes);
  }

  lemma AdmissibleKeeps(st: Store, w: Write)
    requires WellFormed(st) && ForkFree(st) && Admissible(st, w)
    ensures WellFormed(Apply(st, w)) && ForkFree(Apply(st, w))
  {
    if w.Save? && w.record.status == Active {
      var r := w.record;
      forall b | b in st && b != r.id && st[b].status == Active && SameDomain(st[b], r)
                 && st[b].supersedes == r.supersedes && r.supersedes != ""
        ensures r.supersedes == r.id || r.supersedes == b
      {
        if r.supersedes in st && SameDomain(r, st[r.supersedes]) && r.supersedes != b {
          DirectReplacement(st, b);
        }
      }
    }
  }

  lemma {:induction false} AllAdmissibleKeeps(st: Store, ws: seq<Write>, k: nat)
    requires WellFormed(st) && ForkFree(st) && AllAdmissible(st, ws) && k <= |ws|
    ensures WellFormed(ApplyAll(st, ws[..k])) && ForkFree(ApplyAll(st, ws[..k]))
    decreases k
  {
    if k == 0 {
      assert ws[..k] == [];
    } else {
      AllAdmissibleKeeps(st, ws, k - 1);
      assert ws[..k][..k - 1] == ws[..k - 1];
      AdmissibleKeeps(ApplyAll(st, ws[..k - 1]), ws[k - 1]);
    }
  }

  // ---- Each operation writes admissibly ----

  // Writes that put nothing in force.
  ghost predicate Quiet(ws: seq<Write>) {
    forall i :: 0 <= i < |ws| ==> ws[i].Unlink? || (ws[i].record.id != "" && ws[i].record.status != Active)
  }

  lemma {:induction false} RetireAllQuiet(st: Store, ids: seq<string>, heir: string, now: int)
    requires WellFormed(st) && forall x :: x in ids ==> x in st
    ensures Quiet(RetireAll(st, ids, heir, now))
  {
    if ids != [] {
      RetireAllQuiet(st, ids[..|ids| - 1], heir, now);
    }
  }

  lemma {:induction false} GroupExpiryQuiet(st: Store, listing: seq<string>, rec: Record)
    requires WellFormed(st)
    ensures Quiet(GroupExpiry(st, listing, rec))
  {
    if listing != [] {
      GroupExpiryQuiet(st, listing[..|listing| - 1], rec);
    }
  }

  lemma FirstThenQuiet(st: Store, first: Write, rest: seq<Write>)
    requires Admissible(st, first) && Quiet(rest)
    ensures AllAdmissible(st, [first] + rest)
  {
    assert ([first] + rest)[..0] == [];
  }

  lemma QuietAdmissible(st: Store, ws: seq<Write>)
    requires Quiet(ws)
    ensures AllAdmissible(st, ws)
  {
  }

  lemma AdmissibleConcat(st: Store, a: seq<Write>, b: seq<Write>)
    requires AllAdmissible(st, a) && AllAdmissible(ApplyAll(st, a), b)
    ensures AllAdmissible(st, a + b)
  {
    forall i | 0 <= i < |a + b| ensures Admissible(ApplyAll(st, (a + b)[..i]), (a + b)[i]) {
      if i < |a| {
        assert (a + b)[..i] == a[..i];
      } else {
        assert (a + b)[..i] == a + b[..i - |a|];
        ApplySplit(st, a, b[..i - |a|]);
      }
    }
  }

  lemma {:induction false} MarksAdmissible(st: Store, ids: seq<string>, group: string, now: int)
    requires WellFormed(st) && forall x :: x in ids ==> x in st && st[x].status == Active
    ensures AllAdmissible(st, MarkGroup(st, ids, group, now))
    ensures var st' := ApplyAll(st, MarkGroup(st, ids, group, now));
            SameGraph(st, st') && WellFormed(st') && forall x :: x in st ==> st'[x].status == st[x].status
  {
    if ids != [] {
      var init, last := ids[..|ids| - 1], ids[|ids| - 1];
      MarksAdmissible(st, init, group, now);
      var before := MarkGroup(st, init, group, now);
      var mark := Save(st[last].(group := group, updatedAt := now));
      OneMarkAdmissible(ApplyAll(st, before), mark);
      AdmissibleConcat(st, before, [mark]);
      ApplyLast(st, before, mark);
    }
  }

  lemma OneMarkAdmissible(st: Store, mark: MemoryLifecycle.Write)
    requires WellFormed(st) && mark.Save? && mark.record.id in st
    requires SameLinks(st[mark.record.id], mark.record) && st[mark.record.id].status == Active
    ensures AllAdmissible(st, [mark])
  {
    FirstThenQuiet(st, mark, []);
    assert [mark] + [] == [mark];
  }

  lemma GateTailQuiet(st1: Store, target: string, c: Record, now: int)
    requires WellFormed(st1) && c.id in st1
    ensures Quiet(GateTail(st1, target, c, now))
  {
    if target in st1 && Undecided(st1[target]) {
      var reject := [Save(st1[target].(status := Rejected, updatedAt := now, supersededBy := c.id))];
      ApplyFirst(st1, reject[0], []);
      assert reject == [reject[0]] + [];
      var st2 := ApplyAll(st1, reject);
      RetireAllQuiet(st2, Ancestors(st2, c), c.id, now);
    } else {
      RetireAllQuiet(st1, Ancestors(st1, c), c.id, now);
    }
  }

  // A directory scan: every visible record once, in an order the clock of the file system decides.
  ghost predicate IsListing(st: Store, ws: string, listing: seq<string>) {
    && (forall x :: x in listing <==> x in st && Visible(ws, st[x]))
    && (forall i, j :: 0 <= i < j < |listing| ==> listing[i] != listing[j])
  }

  lemma ResolvedAdmissible(st: Store, listing: seq<string>, c: Record, now: int, group: string)
    requires WellFormed(st) && c.id != "" && IsListing(st, c.workspace, listing)
    requires c.supersedes != "" ==> c.supersedes in st && c.supersedes != c.id && !Superseded(st, c.supersedes) && SameDomain(c, st[c.supersedes])
    ensures var (saved, marks) := Resolved(st, listing, c, now, group);
            && saved.id == c.id
            && AllAdmissible(st, marks)
            && WellFormed(ApplyAll(st, marks))
            && Admissible(ApplyAll(st, marks), Save(saved))
  {
    var (saved, marks) := Resolved(st, listing, c, now, group);
    var conflicts := AllConflicts(st, listing, c);
    if marks != [] {
      MarksAdmissible(st, ActiveOnes(st, conflicts), group, now);
    } else if saved.supersedes != c.supersedes {
      var newest := Newest(st, conflicts);
      assert newest in FindConflicts(st, listing, c);
      assert SameDomain(c, st[newest]);
    }
  }

  lemma StoreAdmissible(st: Store, listing: seq<string>, c: Record, now: int, group: string)
    requires WellFormed(st) && c.id != "" && IsListing(st, c.workspace, listing)
    requires c.supersedes != "" ==> c.supersedes in st && c.supersedes != c.id && !Superseded(st, c.supersedes) && SameDomain(c, st[c.supersedes])
    ensures AllAdmissible(st, StoreWrites(st, listing, c, now, group))
  {
    var (saved, marks) := Resolved(st, listing, c, now, group);
    ResolvedAdmissible(st, listing, c, now, group);
    var st1 := ApplyAll(st, marks);
    var tail := GateTail(st1[saved.id := saved], c.supersedes, saved, now);
    GateTailQuiet(st1[saved.id := saved], c.supersedes, saved, now);
    FirstThenQuiet(st1, Save(saved), tail);
    AdmissibleConcat(st, marks, [Save(saved)] + tail);
  }

  lemma GateAdmissible(st: Store, listing: seq<string>, c: Record, j: Judgement, now: int, group: string)
    requires WellFormed(st) && IsListing(st, c.workspace, listing)
    ensures AllAdmissible(st, Gate(st, listing, c, j, now, group).writes)
  {
    var refusal := GateRefusal(st, c, j);
    if refusal.Some? {
      assert Quiet(refusal.value.writes);
      QuietAdmissible(st, refusal.value.writes);
    } else {
      StoreAdmissible(st, listing, Prepared(c, j), now, group);
    }
  }

  lemma ConfirmAdmissible(st: Store, ws: string, id: string, authority: string, now: int, listing: seq<string>)
    requires WellFormed(st)
    ensures AllAdmissible(st, ConfirmWrites(st, ws, id, authority, now, listing))
  {
    if ConfirmRefusal(st, ws, id).None? && !st[id].retires {
      ConfirmShape(st, ws, id, authority, now, listing);
      var active := Confirmed(st[id], authority, now);
      var st1 := st[id := active];
      var ids := Ancestors(st1, active);
      RetireAllQuiet(st1, ids, id, now);
      RetireAllResult(st1, ids, id, now);
      GroupExpiryQuiet(Retired(st1, ids, id, now), listing, active);
      FirstThenQuiet(st, Save(active), ConfirmTail(st1, id, now, listing));
    } else {
      QuietAdmissible(st, ConfirmWrites(st, ws, id, authority, now, listing));
    }
  }

  // ---- Runs ----

  datatype Op =
    | Write(candidate: Record, judgement: Judgement, listing: seq<string>, group: string)
    | Confirm(ws: string, id: string, authority: string, order: seq<string>)
    | Retire(ws: string, id: string, reject: bool)
    | Delete(ws: string, id: string)

  function OpWrites(st: Store, op: Op, now: int): seq<MemoryLifecycle.Write> {
    match op
    case Write(c, j, listing, group) => Gate(st, listing, c, j, now, group).writes
    case Confirm(ws, id, authority, order) => ConfirmWrites(st, ws, id, authority, now, order)
    case Retire(ws, id, reject) => RetireWrites(st, ws, id, if reject then Rejected else Expired, now)
    case Delete(ws, id) => DeleteWrites(st, ws, id, now)
  }

  // One operation, stopped after at most `cut` of its writes.
  datatype Step = Step(op: Op, now: int, cut: nat)

  function After(st: Store, step: Step): Store {
    var writes := OpWrites(st, step.op, step.now);
    ApplyAll(st, if step.cut < |writes| then writes[..step.cut] else writes)
  }

  function Run(steps: seq<Step>): Store {
    if steps == [] then map[] else After(Run(steps[..|steps| - 1]), steps[|steps| - 1])
  }

  ghost predicate Possible(steps: seq<Step>) {
    forall i :: 0 <= i < |steps| && steps[i].op.Write? ==>
      IsListing(Run(steps[..i]), steps[i].op.candidate.workspace, steps[i].op.listing)
  }

  lemma OpAdmissible(st: Store, op: Op, now: int)
    requires WellFormed(st)
    requires op.Write? ==> IsListing(st, op.candidate.workspace, op.listing)
    ensures AllAdmissible(st, OpWrites(st, op, now))
  {
    match op
    case Write(c, j, listing, group) => GateAdmissible(st, listing, c, j, now, group);
    case Confirm(ws, id, authority, order) => ConfirmAdmissible(st, ws, id, authority, now, order);
    case Retire(ws, id, reject) =>
      if id in st {
        RetireAllQuiet(st, Ancestors(st, st[id]), id, now);
      }
      QuietAdmissible(st, OpWrites(st, op, now));
    case Delete(ws, id) =>
      if id in st {
        RetireAllQuiet(st, Ancestors(st, st[id]), id, now);
      }
      QuietAdmissible(st, OpWrites(st, op, now));
  }

  // In every state any run reaches, interruptions included, no record has two direct replacements in force.
  lemma {:induction false} RunsAreForkFree(steps: seq<Step>)
    requires Possible(steps)
    ensures WellFormed(Run(steps)) && ForkFree(Run(steps))
  {
    if steps != [] {
      var init, last := steps[..|steps| - 1], steps[|steps| - 1];
      assert Possible(init) by {
        assert forall i :: 0 <= i < |init| ==> init[..i] == steps[..i];
      }
      RunsAreForkFree(init);
      var writes := OpWrites(Run(init), last.op, last.now);
      OpAdmissible(Run(init), last.op, last.now);
      AllAdmissibleKeeps(Run(init), writes, if last.cut < |writes| then last.cut else |writes|);
      assert writes[..|writes|] == writes;
    }
  }

  // The same, said of one record and its replacements.
  lemma OneDirectReplacement(steps: seq<Step>, x: string, a: string, b: string)
    requires Possible(steps)
    requires var st := Run(steps);
             && a in st && st[a].status == Active && Link(st, a) == Some(x) && a != x
             && b in st && st[b].status == Active && Link(st, b) == Some(x) && b != x
    ensures a == b
  {
    RunsAreForkFree(steps);
    assert x != "";
  }
}
