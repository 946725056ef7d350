// Two runs after which the memory rules do not keep what they aim for; in the second a generated id is one that a
// stored record already names (storage/memory_governance.py, lines 282-299 and 453-664).
module MemoryFindings {
  import opened Prelude
  import opened MemoryGraph
  import opened MemoryLifecycle
  import opened MemoryConfirm
  import opened MemoryGate
  import opened MemoryRuns

  function Rule(id: string, source: string, content: string, supersedes: string): Record {
    Record(id, "w", "", "", Workspace, "core_rule", Pending, source, "", content, "", true, Never, "", 0,
           supersedes, "", "", false, "")
  }

  // Nothing about the text is objectionable, and no consolidation decision was made.
  function Plain(content: string): Judgement {
    Judgement(true, false, false, false, content, "", Missing, false)
  }

  // ---- An id that nothing links to ----

  lemma {:induction false} ChainIsNamed(st: Store, start: Record, cur: Record, seen: set<string>, x: string)
    requires x in Chain(st, start, cur, seen) && x != cur.supersedes
    ensures exists n :: n in st && st[n].supersedes == x
    decreases st.Keys - seen
  {
    var t := cur.supersedes;
    assert t in st.Keys - seen && t !in st.Keys - (seen + {t});
    if x == st[t].supersedes {
    } else {
      ChainIsNamed(st, start, st[t], seen + {t}, x);
    }
  }

  lemma UnnamedNotSuperseded(st: Store, x: string)
    requires forall n :: n in st ==> st[n].supersedes != x
    ensures !Superseded(st, x)
  {
    if Superseded(st, x) {
      var n :| n in st && x in Replaces(st, st[n]);
      ChainIsNamed(st, st[n], st[n], {st[n].id}, x);
    }
  }

  // ---- The run ----

  predicate Plausible(st: Store, c: Record) {
    && c == Rule(c.id, c.source, c.content, c.supersedes)
    && ValidId(c.id) && c.id !in st && c.supersedes != c.id
    && (c.supersedes == "" || (c.supersedes in st && Visible("w", st[c.supersedes]) && SameDomain(c, st[c.supersedes])
                               && Text(st[c.supersedes]) != Text(c)))
  }

  // A candidate that revises something which nothing else revises passes every check.
  lemma Passes(st: Store, c: Record)
    requires Plausible(st, c) && (c.supersedes != "" ==> forall n :: n in st ==> st[n].supersedes != c.supersedes)
    ensures GateRefusal(st, c, Plain(c.content)).None?
  {
    if c.supersedes != "" {
      UnnamedNotSuperseded(st, c.supersedes);
    }
  }

  // The user's own rule is in force as soon as it is saved.
  lemma UserStores(st: Store, listing: seq<string>, c: Record, now: int)
    requires Plausible(st, c) && c.source == "user" && (c.supersedes != "" ==> st[c.supersedes].status in {Active, Rejected})
    requires c.supersedes != "" ==> forall n :: n in st ==> st[n].supersedes != c.supersedes
    ensures var writes := Gate(st, listing, c, Plain(c.content), now, "g").writes;
            writes != [] && writes[0] == Save(c.(status := Active))
  {
    Passes(st, c);
    UserPrepared(c);
    var p := c.(status := Active);
    if c.supersedes != "" {
      UnnamedNotSuperseded(st, c.supersedes);
    }
    GateOpens(st, listing, c, Plain(c.content), p, now);
    assert FindConflicts(st, listing, p) == [];
    UserAdmitted(st, listing, p, now);
  }

  lemma UserPrepared(c: Record)
    requires c == Rule(c.id, c.source, c.content, c.supersedes) && c.source == "user"
    ensures Prepared(c, Plain(c.content)) == c.(status := Active)
  {
  }

  lemma UserAdmitted(st: Store, listing: seq<string>, p: Record, now: int)
    requires p.status == Active && p.source == "user" && FindConflicts(st, listing, p) == []
    requires p.supersedes != "" ==>
               && p.supersedes in st && p.supersedes != p.id && !Superseded(st, p.supersedes) && SameDomain(p, st[p.supersedes])
               && st[p.supersedes].status in {Active, Rejected} && Text(st[p.supersedes]) != Text(p)
    ensures var writes := Admission(st, listing, p, now, "g").writes; writes != [] && writes[0] == Save(p)
  {
    assert Resolved(st, listing, p, now, "g") == (p, []);
    assert FirstDuplicate(st, AllConflicts(st, listing, p), p).None?;
  }

  lemma AgentPrepared(c: Record)
    requires c == Rule(c.id, c.source, c.content, c.supersedes) && c.source == "agent_suggestion"
    ensures Prepared(c, Plain(c.content)) == c
  {
  }

  function Marked(r: Record): Record {
    r.(group := "g", updatedAt := 3)
  }

  function Contested(c: Record): Record {
    c.(status := Conflict, group := "g")
  }

  lemma OneConflict(st: Store, listing: seq<string>, c: Record, t: string)
    requires t == c.supersedes && c.key == "" && t in st && st[t].status == Active && t != c.id && !Superseded(st, t) && SameDomain(c, st[t])
    requires t != ""
    ensures AllConflicts(st, listing, c) == [t] && ActiveOnes(st, [t]) == [t]
  {
    assert FindConflicts(st, listing, c) == [];
    assert [t][..0] == [];
  }

  lemma OneMark(st: Store, t: string)
    requires t in st
    ensures MarkGroup(st, [t], "g", 3) == [Save(Marked(st[t]))]
  {
    assert [t][..0] == [];
  }

  // An agent's revision of a record in force becomes a conflict, and that record is marked.
  lemma AgentConflicts(st: Store, listing: seq<string>, c: Record)
    requires Plausible(st, c) && c.source == "agent_suggestion" && c.supersedes != "" && st[c.supersedes].status == Active
    requires forall n :: n in st ==> st[n].supersedes != c.supersedes
    ensures var writes := Gate(st, listing, c, Plain(c.content), 3, "g").writes;
            |writes| > 1 && writes[0] == Save(Marked(st[c.supersedes])) && writes[1] == Save(Contested(c))
  {
    UnnamedNotSuperseded(st, c.supersedes);
    OneConflict(st, listing, c, c.supersedes);
    AgentAdmitted(st, listing, c, 3);
    OneMark(st, c.supersedes);
    assert Resolved(st, listing, c, 3, "g") == (Contested(c), [Save(Marked(st[c.supersedes]))]);
    MarksThenSaves(st, listing, c);
  }

  lemma AgentAdmitted(st: Store, listing: seq<string>, c: Record, now: int)
    requires Plausible(st, c) && c.source == "agent_suggestion" && c.supersedes != "" && !Superseded(st, c.supersedes)
    requires forall n :: n in st ==> st[n].supersedes != c.supersedes
    requires AllConflicts(st, listing, c) == [c.supersedes]
    ensures Gate(st, listing, c, Plain(c.content), now, "g").writes == StoreWrites(st, listing, c, now, "g")
  {
    Passes(st, c);
    AgentPrepared(c);
    GateOpens(st, listing, c, Plain(c.content), c, now);
    NoDuplicate(st, listing, c, now);
  }

  lemma GateOpens(st: Store, listing: seq<string>, c: Record, j: Judgement, p: Record, now: int)
    requires GateRefusal(st, c, j).None? && p == Prepared(c, j)
    requires p.supersedes != "" ==>
               p.supersedes in st && p.supersedes != p.id && !Superseded(st, p.supersedes) && SameDomain(p, st[p.supersedes])
    ensures Gate(st, listing, c, j, now, "g") == Admission(st, listing, p, now, "g")
  {
  }

  lemma NoDuplicate(st: Store, listing: seq<string>, c: Record, now: int)
    requires c.supersedes in st && c.supersedes != c.id && !Superseded(st, c.supersedes) && SameDomain(c, st[c.supersedes])
    requires AllConflicts(st, listing, c) == [c.supersedes] && Text(st[c.supersedes]) != Text(c)
    ensures Admission(st, listing, c, now, "g").writes == StoreWrites(st, listing, c, now, "g")
  {
    OtherText(st, c.supersedes, c);
    assert FirstDuplicate(st, AllConflicts(st, listing, c), c).None?;
  }

  lemma OtherText(st: Store, t: string, c: Record)
    requires t in st && Text(st[t]) != Text(c)
    ensures FirstDuplicate(st, [t], c).None?
  {
  }

  lemma MarksThenSaves(st: Store, listing: seq<string>, c: Record)
    requires c.supersedes in st && c.supersedes != c.id && !Superseded(st, c.supersedes) && SameDomain(c, st[c.supersedes])
    requires Resolved(st, listing, c, 3, "g") == (Contested(c), [Save(Marked(st[c.supersedes]))])
    ensures var writes := StoreWrites(st, listing, c, 3, "g");
            |writes| > 1 && writes[0] == Save(Marked(st[c.supersedes])) && writes[1] == Save(Contested(c))
  {
    var marks := [Save(Marked(st[c.supersedes]))];
    var tail := GateTail(ApplyAll(st, marks)[c.id := Contested(c)], c.supersedes, Contested(c), 3);
    assert StoreWrites(st, listing, c, 3, "g") == marks + ([Save(Contested(c))] + tail);
  }

  // An agent's revision of an undecided record waits beside it.
  lemma AgentWaits(st: Store, listing: seq<string>, c: Record)
    requires Plausible(st, c) && c.source == "agent_suggestion" && c.supersedes != "" && st[c.supersedes].status == Conflict
    requires forall n :: n in st ==> st[n].supersedes != c.supersedes
    ensures var writes := Gate(st, listing, c, Plain(c.content), 4, "g").writes;
            writes != [] && writes[0] == Save(c)
  {
    Passes(st, c);
    AgentPrepared(c);
    UnnamedNotSuperseded(st, c.supersedes);
    assert FindConflicts(st, listing, c) == [];
    assert AllConflicts(st, listing, c) == [];
    assert Resolved(st, listing, c, 4, "g") == (c, []);
  }

  // Four ids for the records.
  predicate Four(y: string, p: string, r: string, q: string) {
    ValidId(y) && ValidId(p) && ValidId(r) && ValidId(q) && |{y, p, r, q}| == 4
  }

  function Id(last: char): string {
    "mem-" + "00000000000" + [last]
  }

  lemma FourIds()
    ensures Four(Id('1'), Id('2'), Id('3'), Id('4'))
  {
    assert Id('1')[15] == '1' && Id('2')[15] == '2' && Id('3')[15] == '3' && Id('4')[15] == '4';
  }

  // A user rule, its user revision (interrupted before clean-up), an agent's proposed revision of that,
  // and an agent's revision of the proposal (interrupted before it rejects the proposal).
  function Y(y: string): Record { Rule(y, "user", "a", "") }
  function P(y: string, p: string): Record { Rule(p, "user", "b", y) }
  function R(p: string, r: string): Record { Rule(r, "agent_suggestion", "c", p) }
  function Q(r: string, q: string): Record { Rule(q, "agent_suggestion", "d", r) }

  function One(y: string): Store { map[y := Y(y).(status := Active)] }
  function Two(y: string, p: string): Store { One(y)[p := P(y, p).(status := Active)] }
  function Three(y: string, p: string, r: string): Store { One(y)[p := Marked(P(y, p).(status := Active))][r := Contested(R(p, r))] }
  function Forked(y: string, p: string, r: string, q: string): Store { Three(y, p, r)[q := Q(r, q)] }

  function Writing(c: Record, listing: seq<string>, now: int, cut: nat): Step {
    Step(Op.Write(c, Plain(c.content), listing, "g"), now, cut)
  }

  ghost predicate Leads(steps: seq<Step>, st: Store) {
    Possible(steps) && Run(steps) == st
  }

  lemma OneMore(steps: seq<Step>, st: Store, step: Step)
    requires Leads(steps, st) && step.op.Write?
    requires IsListing(st, step.op.candidate.workspace, step.op.listing)
    ensures Leads(steps + [step], After(st, step))
  {
    var all := steps + [step];
    assert all[..|steps|] == steps;
    forall i | 0 <= i < |steps| ensures all[..i] == steps[..i] && all[i] == steps[i] {
    }
  }

  // An id that is not named anywhere.
  lemma NewToo(steps: seq<Step>, st: Store, step: Step)
    requires NewIds(steps) && Run(steps) == st && step.op.Write?
    requires Unheard(st, step.op.candidate.id) && step.op.candidate.supersedes != step.op.candidate.id
    ensures NewIds(steps + [step])
  {
    var all := steps + [step];
    assert all[..|steps|] == steps;
    forall i | 0 <= i < |steps| ensures all[..i] == steps[..i] && all[i] == steps[i] {
    }
  }

  lemma CutOne(st: Store, ws: seq<MemoryLifecycle.Write>)
    requires ws != []
    ensures ApplyAll(st, ws[..1]) == Apply(st, ws[0])
  {
    assert ws[..1] == [] + [ws[0]];
    ApplyLast(st, [], ws[0]);
  }

  lemma CutTwo(st: Store, ws: seq<MemoryLifecycle.Write>)
    requires |ws| > 1
    ensures ApplyAll(st, ws[..2]) == Apply(Apply(st, ws[0]), ws[1])
  {
    assert ws[..2] == ws[..1] + [ws[1]];
    CutOne(st, ws);
    ApplyLast(st, ws[..1], ws[1]);
  }

  // ---- The four steps ----

  lemma StripOne(s: string)
    requires |s| == 1 && !IsSpace(s[0])
    ensures Strip(s) == s
  {
    assert TrimStart(s) == s;
  }

  lemma TextIs(r: Record)
    requires |r.content| == 1 && !IsSpace(r.content[0])
    ensures Text(r) == r.content
  {
    StripOne(r.content);
  }

  // What each step asks of the store.
  ghost predicate Ready(st: Store, c: Record, listing: seq<string>, target: Status) {
    && IsListing(st, "w", listing) && Plausible(st, c)
    && (c.supersedes != "" ==> st[c.supersedes].status == target && forall n :: n in st ==> st[n].supersedes != c.supersedes)
  }

  lemma UserStep(steps: seq<Step>, st: Store, c: Record, listing: seq<string>, now: int)
    requires Leads(steps, st) && (Ready(st, c, listing, Active) || Ready(st, c, listing, Rejected)) && c.source == "user"
    ensures Leads(steps + [Writing(c, listing, now, 1)], st[c.id := c.(status := Active)])
  {
    var step := Writing(c, listing, now, 1);
    UserStores(st, listing, c, now);
    CutOne(st, OpWrites(st, step.op, now));
    AfterCut(st, step, 1);
    OneMore(steps, st, step);
  }

  lemma ConflictStep(steps: seq<Step>, st: Store, c: Record, listing: seq<string>)
    requires WellFormed(st) && Leads(steps, st) && Ready(st, c, listing, Active) && c.source == "agent_suggestion" && c.supersedes != ""
    ensures Leads(steps + [Writing(c, listing, 3, 2)], st[c.supersedes := Marked(st[c.supersedes])][c.id := Contested(c)])
  {
    var step := Writing(c, listing, 3, 2);
    AgentConflicts(st, listing, c);
    CutTwo(st, OpWrites(st, step.op, 3));
    AfterCut(st, step, 2);
    OneMore(steps, st, step);
  }

  lemma WaitStep(steps: seq<Step>, st: Store, c: Record, listing: seq<string>)
    requires Leads(steps, st) && Ready(st, c, listing, Conflict) && c.source == "agent_suggestion" && c.supersedes != ""
    ensures Leads(steps + [Writing(c, listing, 4, 1)], st[c.id := c])
  {
    var step := Writing(c, listing, 4, 1);
    AgentWaits(st, listing, c);
    CutOne(st, OpWrites(st, step.op, 4));
    AfterCut(st, step, 1);
    OneMore(steps, st, step);
  }

  lemma AfterCut(st: Store, step: Step, n: nat)
    requires step.cut == n <= |OpWrites(st, step.op, step.now)|
    ensures After(st, step) == ApplyAll(st, OpWrites(st, step.op, step.now)[..n])
  {
    var writes := OpWrites(st, step.op, step.now);
    assert n == |writes| ==> writes[..n] == writes;
  }

  lemma RulesAgree(a: Record, b: Record)
    requires a == Rule(a.id, a.source, a.content, a.supersedes)
    requires b.workspace == "w" && b.scope == Workspace && b.kind == "core_rule"
    ensures SameDomain(a, b) && Visible("w", b)
  {
  }

  // A candidate that revises a record with another text is ready if nothing else revises that record.
  lemma RevisionReady(st: Store, c: Record, listing: seq<string>, target: Status)
    requires IsListing(st, "w", listing) && c == Rule(c.id, c.source, c.content, c.supersedes)
    requires ValidId(c.id) && c.id !in st && c.supersedes in st && c.supersedes != ""
    requires st[c.supersedes].workspace == "w" && st[c.supersedes].scope == Workspace && st[c.supersedes].kind == "core_rule"
    requires st[c.supersedes].status == target && forall n :: n in st ==> st[n].supersedes != c.supersedes
    requires |c.content| == 1 && !IsSpace(c.content[0])
    requires |st[c.supersedes].content| == 1 && !IsSpace(st[c.supersedes].content[0]) && st[c.supersedes].content != c.content
    ensures Ready(st, c, listing, target)
  {
    RulesAgree(c, st[c.supersedes]);
    TextIs(c);
    TextIs(st[c.supersedes]);
  }

  lemma FirstReady(y: string)
    requires ValidId(y)
    ensures Ready(map[], Y(y), [], Active)
  {
  }

  lemma ValidIsNamed(id: string)
    requires ValidId(id)
    ensures id != ""
  {
  }

  lemma SecondReady(y: string, p: string)
    requires ValidId(y) && ValidId(p) && y != p
    ensures Ready(One(y), P(y, p), [y], Active)
  {
    ValidIsNamed(y);
    ValidIsNamed(p);
    RevisionReady(One(y), P(y, p), [y], Active);
  }

  lemma ThirdReady(y: string, p: string, r: string)
    requires ValidId(y) && ValidId(p) && ValidId(r) && y != p && r != y && r != p
    ensures Ready(Two(y, p), R(p, r), [y, p], Active)
  {
    ValidIsNamed(y);
    ValidIsNamed(p);
    ValidIsNamed(r);
    RevisionReady(Two(y, p), R(p, r), [y, p], Active);
  }

  lemma FourthReady(y: string, p: string, r: string, q: string)
    requires Four(y, p, r, q)
    ensures Ready(Three(y, p, r), Q(r, q), [y, p, r], Conflict)
  {
    ValidIsNamed(y);
    ValidIsNamed(p);
    ValidIsNamed(r);
    ValidIsNamed(q);
    RevisionReady(Three(y, p, r), Q(r, q), [y, p, r], Conflict);
  }

  lemma ForkedIsReached(y: string, p: string, r: string, q: string) returns (steps: seq<Step>)
    requires Four(y, p, r, q)
    ensures Leads(steps, Forked(y, p, r, q)) && NewIds(steps)
  {
    var two := TwoIsReached(y, p);
    ThirdReady(y, p, r);
    RunsAreAcyclic(two);
    ConflictStep(two, Two(y, p), R(p, r), [y, p]);
    UnheardOf(y, p, r, q);
    NewToo(two, Two(y, p), Writing(R(p, r), [y, p], 3, 2));
    var three := two + [Writing(R(p, r), [y, p], 3, 2)];
    ThreeIs(y, p, r);
    FourthReady(y, p, r, q);
    WaitStep(three, Three(y, p, r), Q(r, q), [y, p, r]);
    NewToo(three, Three(y, p, r), Writing(Q(r, q), [y, p, r], 4, 1));
    steps := three + [Writing(Q(r, q), [y, p, r], 4, 1)];
  }

  lemma OneIsReached(y: string) returns (steps: seq<Step>)
    requires ValidId(y)
    ensures Leads(steps, One(y)) && NewIds(steps)
  {
    FirstReady(y);
    UserStep([], map[], Y(y), [], 1);
    ValidIsNamed(y);
    NewToo([], map[], Writing(Y(y), [], 1, 1));
    steps := [] + [Writing(Y(y), [], 1, 1)];
  }

  lemma TwoIsReached(y: string, p: string) returns (steps: seq<Step>)
    requires ValidId(y) && ValidId(p) && y != p
    ensures Leads(steps, Two(y, p)) && NewIds(steps)
  {
    var one := OneIsReached(y);
    SecondReady(y, p);
    UserStep(one, One(y), P(y, p), [y], 2);
    UnheardOfOne(y, p);
    NewToo(one, One(y), Writing(P(y, p), [y], 2, 1));
    steps := one + [Writing(P(y, p), [y], 2, 1)];
  }

  lemma UnheardOfOne(y: string, p: string)
    requires ValidId(p) && y != p
    ensures Unheard(One(y), p)
  {
    ValidIsNamed(p);
  }

  lemma UnheardOf(y: string, p: string, r: string, q: string)
    requires Four(y, p, r, q)
    ensures Unheard(Two(y, p), r) && Unheard(Three(y, p, r), q)
  {
    ValidIsNamed(r);
    ValidIsNamed(q);
  }

  lemma ThreeIs(y: string, p: string, r: string)
    requires y != p && r != y && r != p
    ensures p in Two(y, p) && Two(y, p)[p := Marked(Two(y, p)[p])][r := Contested(R(p, r))] == Three(y, p, r)
  {
  }

  // ---- The links of the store ----

  lemma OneLink(st: Store, start: Record, cur: Record, seen: set<string>, seen': set<string>, rest: seq<string>)
    requires var t := cur.supersedes; t in st && t !in seen && SameDomain(start, st[t]) && seen' == seen + {t}
    requires Chain(st, start, st[cur.supersedes], seen') == rest
    ensures Chain(st, start, cur, seen) == [cur.supersedes] + rest
  {
  }

  lemma ForkedWellFormed(y: string, p: string, r: string, q: string)
    requires Four(y, p, r, q)
    ensures var st := Forked(y, p, r, q);
            && WellFormed(st) && "" !in {y, p, r, q}
            && st[q].supersedes == r && st[r].supersedes == p && st[p].supersedes == y && st[y].supersedes == ""
  {
    ValidIsNamed(y);
    ValidIsNamed(p);
    ValidIsNamed(r);
    ValidIsNamed(q);
  }

  lemma ForkedAgree(y: string, p: string, r: string, q: string)
    requires Four(y, p, r, q)
    ensures var st := Forked(y, p, r, q); forall m, n :: m in st && n in st ==> SameDomain(st[m], st[n])
  {
  }

  lemma ForkedLinks(y: string, p: string, r: string, q: string)
    requires Four(y, p, r, q)
    ensures var st := Forked(y, p, r, q);
            && WellFormed(st) && Ancestors(st, st[q]) == [r, p, y] && Ancestors(st, st[r]) == [p, y]
            && Ancestors(st, st[p]) == [y] && Ancestors(st, st[y]) == []
  {
    ForkedWellFormed(y, p, r, q);
    ForkedAgree(y, p, r, q);
    ForkedFrom(y, p, r, q, q, {q, r, p});
    ForkedFrom(y, p, r, q, r, {r, p});
    ForkedFrom(y, p, r, q, p, {p});
    var st := Forked(y, p, r, q);
    OneLink(st, st[q], st[r], {q, r}, {q, r, p}, [y]);
    OneLink(st, st[q], st[q], {q}, {q, r}, [p, y]);
    OneLink(st, st[r], st[r], {r}, {r, p}, [y]);
  }

  // From whichever record the walk came, the user's revision leads to the old rule, and no further.
  lemma ForkedFrom(y: string, p: string, r: string, q: string, start: string, seen: set<string>)
    requires Four(y, p, r, q) && start in {p, r, q} && y !in seen
    ensures var st := Forked(y, p, r, q); Chain(st, st[start], st[p], seen) == [y]
  {
    ForkedWellFormed(y, p, r, q);
    ForkedAgree(y, p, r, q);
    var st := Forked(y, p, r, q);
    OneLink(st, st[start], st[p], seen, seen + {y}, []);
  }

  lemma ForkedExposes(y: string, p: string, r: string, q: string, now: int)
    requires Four(y, p, r, q)
    ensures Exposed(Forked(y, p, r, q), r, 1, now)
  {
    var st := Forked(y, p, r, q);
    ForkedLinks(y, p, r, q);
    AncestorsAreReachable(st, p, y);
    assert ActiveOver(st, p, y);
    assert [p, y][..1] == [p];
    forall n | ActiveOver(st, n, y) ensures n in [p, y][..1] {
    }
  }

  lemma ProposalIsReplaced(y: string, p: string, r: string, q: string)
    requires Four(y, p, r, q)
    ensures Superseded(Forked(y, p, r, q), r)
  {
    var st := Forked(y, p, r, q);
    ForkedLinks(y, p, r, q);
    FirstTaken(st, r, [p, y]);
    assert r in Replaces(st, st[q]);
  }

  lemma FirstTaken(st: Store, r: string, rest: seq<string>)
    requires r in st && Undecided(st[r]) && forall x :: x in rest ==> x in st
    ensures r in TakeUndecided(st, [r] + rest)
  {
  }

  lemma ProposalIsThere(y: string, p: string, r: string, q: string)
    requires Four(y, p, r, q)
    ensures var st := Forked(y, p, r, q);
            WellFormed(st) && r in st && Visible("w", st[r]) && st[r].status == Conflict
  {
    ForkedLinks(y, p, r, q);
    RulesAgree(R(p, r), Contested(R(p, r)));
  }

  // Deleting the proposal expires the user's revision first; stopped there, the old rule is back.
  lemma DeletionRevives(y: string, p: string, r: string, q: string, t: int, now: int) returns (k: nat)
    requires Four(y, p, r, q)
    ensures var st := Forked(y, p, r, q);
            k < |DeleteWrites(st, "w", r, t)| && !NoRevival(st, ApplyAll(st, DeleteWrites(st, "w", r, t)[..k]), now, r)
  {
    var st := Forked(y, p, r, q);
    ForkedExposes(y, p, r, q, now);
    ProposalIsReplaced(y, p, r, q);
    ProposalIsThere(y, p, r, q);
    k := UnsafeDeletionRevives(st, "w", r, t, now);
    BeforeTheEnd(st, r, t, now, k);
  }

  lemma BeforeTheEnd(st: Store, r: string, t: int, now: int, k: nat)
    requires WellFormed(st) && r in st && Visible("w", st[r]) && k <= |DeleteWrites(st, "w", r, t)|
    requires !NoRevival(st, ApplyAll(st, DeleteWrites(st, "w", r, t)[..k]), now, r)
    ensures k < |DeleteWrites(st, "w", r, t)|
  {
    DeleteCompletes(st, "w", r, t, now);
    AllOfThem(DeleteWrites(st, "w", r, t));
  }

  lemma AllOfThem<T>(s: seq<T>)
    ensures s[..|s|] == s
  {
  }

  // A run, and a deletion after it which, stopped before its last write, brings a record back.
  lemma DeletionCanRevive(t: int, now: int) returns (steps: seq<Step>, k: nat)
    ensures Possible(steps) && NewIds(steps)
    ensures var st, r := Run(steps), Id('3');
            && r in st && k < |DeleteWrites(st, "w", r, t)|
            && !NoRevival(st, ApplyAll(st, DeleteWrites(st, "w", r, t)[..k]), now, r)
  {
    FourIds();
    steps := ForkedIsReached(Id('1'), Id('2'), Id('3'), Id('4'));
    k := DeletionRevives(Id('1'), Id('2'), Id('3'), Id('4'), t, now);
  }

  // ---- Confirming a record that its own target leads back to ----

  // A candidate of low value that names an id not in use yet; the user's rule revising it; and the candidate that
  // is given that id, revising the rule.
  function X(x: string, y: string): Record { Rule(x, "agent_suggestion", "c", y) }
  function A(x: string, a: string): Record { Rule(a, "user", "a", x) }
  function B(a: string, y: string): Record { Rule(y, "agent_suggestion", "b", a) }

  function Low(content: string): Judgement {
    Plain(content).(lowValue := true)
  }

  function Dangling(x: string, y: string): Store { map[x := X(x, y).(status := Rejected)] }
  function Ruled(x: string, a: string, y: string): Store { Dangling(x, y)[a := A(x, a).(status := Active)] }
  function Ring(x: string, a: string, y: string): Store { Dangling(x, y)[a := Marked(A(x, a).(status := Active))][y := Contested(B(a, y))] }

  predicate Apart(x: string, a: string, y: string) {
    ValidId(x) && ValidId(a) && ValidId(y) && x != a && y != x && y != a
  }

  // It is saved as rejected, its link unchecked.
  lemma LowStep(x: string, y: string)
    requires ValidId(x)
    ensures Leads([Step(Op.Write(X(x, y), Low("c"), [], "g"), 1, 1)], Dangling(x, y))
  {
    var step := Step(Op.Write(X(x, y), Low("c"), [], "g"), 1, 1);
    assert OpWrites(map[], step.op, 1) == [Save(X(x, y).(status := Rejected))];
    CutOne(map[], OpWrites(map[], step.op, 1));
    AfterCut(map[], step, 1);
    OneMore([], map[], step);
    assert [] + [step] == [step];
  }

  lemma RuleReady(x: string, a: string, y: string)
    requires Apart(x, a, y)
    ensures Ready(Dangling(x, y), A(x, a), [x], Rejected)
  {
    ValidIsNamed(x);
    ValidIsNamed(a);
    RevisionReady(Dangling(x, y), A(x, a), [x], Rejected);
  }

  lemma RuledWellFormed(x: string, a: string, y: string)
    requires Apart(x, a, y)
    ensures WellFormed(Ruled(x, a, y))
  {
    ValidIsNamed(x);
    ValidIsNamed(a);
  }

  lemma RuledListed(x: string, a: string, y: string)
    requires Apart(x, a, y)
    ensures var st := Ruled(x, a, y);
            && IsListing(st, "w", [x, a]) && y !in st && a in st && st[a] == A(x, a).(status := Active)
            && forall n :: n in st ==> st[n].supersedes != a
  {
    assert Ruled(x, a, y)[x].supersedes == y && Ruled(x, a, y)[a].supersedes == x;
  }

  lemma RevisionOfRuleReady(x: string, a: string, y: string)
    requires Apart(x, a, y)
    ensures Ready(Ruled(x, a, y), B(a, y), [x, a], Active)
  {
    ValidIsNamed(a);
    RuledListed(x, a, y);
    RevisesRule(Ruled(x, a, y), x, a, y, [x, a]);
  }

  lemma RevisesRule(st: Store, x: string, a: string, y: string, listing: seq<string>)
    requires ValidId(y) && a != "" && y !in st && a in st && st[a] == A(x, a).(status := Active) && IsListing(st, "w", listing)
    requires forall n :: n in st ==> st[n].supersedes != a
    ensures Ready(st, B(a, y), listing, Active)
  {
    RevisionReady(st, B(a, y), listing, Active);
  }

  lemma RingIsReached(x: string, a: string, y: string) returns (steps: seq<Step>)
    requires Apart(x, a, y)
    ensures Leads(steps, Ring(x, a, y))
  {
    LowStep(x, y);
    var one := [Step(Op.Write(X(x, y), Low("c"), [], "g"), 1, 1)];
    RuleReady(x, a, y);
    UserStep(one, Dangling(x, y), A(x, a), [x], 2);
    var two := one + [Writing(A(x, a), [x], 2, 1)];
    RuledWellFormed(x, a, y);
    RevisionOfRuleReady(x, a, y);
    ConflictStep(two, Ruled(x, a, y), B(a, y), [x, a]);
    RingIs(x, a, y);
    steps := two + [Writing(B(a, y), [x, a], 3, 2)];
  }

  lemma RingIs(x: string, a: string, y: string)
    requires Apart(x, a, y)
    ensures a in Ruled(x, a, y)
    ensures Ruled(x, a, y)[a := Marked(Ruled(x, a, y)[a])][y := Contested(B(a, y))] == Ring(x, a, y)
  {
  }

  lemma RingLinks(x: string, a: string, y: string)
    requires Apart(x, a, y)
    ensures var st := Ring(x, a, y);
            WellFormed(st) && Ancestors(st, st[y]) == [a, x] && Ancestors(st, st[a]) == [x, y]
  {
    ValidIsNamed(x);
    ValidIsNamed(a);
    ValidIsNamed(y);
    var st := Ring(x, a, y);
    OneLink(st, st[y], st[a], {y, a}, {y, a, x}, []);
    OneLink(st, st[y], st[y], {y}, {y, a}, [x]);
    OneLink(st, st[a], st[x], {a, x}, {a, x, y}, []);
    OneLink(st, st[a], st[a], {a}, {a, x}, [y]);
  }

  lemma RuleIsShown(x: string, a: string, y: string, now: int)
    requires Apart(x, a, y)
    ensures Retrievable(Ring(x, a, y), now, a) && !Superseded(Ring(x, a, y), a)
  {
    var st := Ring(x, a, y);
    RingLinks(x, a, y);
    assert TakeUndecided(st, [a, x]) == [];
    assert st[x].status == Rejected && Replaces(st, st[x]) == [];
    forall n | n in st ensures a !in Replaces(st, st[n]) {
    }
  }

  lemma RingConfirms(x: string, a: string, y: string)
    requires Apart(x, a, y)
    ensures var st := Ring(x, a, y); ConfirmRefusal(st, "w", y).None? && !st[y].retires
  {
    RuleIsShown(x, a, y, 0);
    ValidIsNamed(y);
    RulesAgree(B(a, y), Ring(x, a, y)[a]);
  }

  // Confirming it, stopped after the first write, leaves neither the rule nor its revision retrievable.
  lemma RingLeavesGap(x: string, a: string, y: string, authority: string, t: int, now: int, listing: seq<string>)
    requires Apart(x, a, y)
    ensures var st := Ring(x, a, y);
            var st' := ApplyAll(st, ConfirmWrites(st, "w", y, authority, t, listing)[..1]);
            !Retrievable(st', now, a) && !Retrievable(st', now, y)
  {
    var st := Ring(x, a, y);
    RingLinks(x, a, y);
    RuleIsShown(x, a, y, now);
    RingConfirms(x, a, y);
    AncestorsAreReachable(st, a, y);
    ConfirmNoGap(st, "w", y, authority, t, now, listing, a);
    ConfirmNoOverlap(st, "w", y, authority, t, now, listing, 1, a);
  }

  // A run after which a confirmation leaves a gap.
  lemma ConfirmCanLeaveGap(authority: string, t: int, now: int, listing: seq<string>) returns (steps: seq<Step>, rule: string, revision: string)
    ensures Possible(steps)
    ensures var st := Run(steps);
            && Retrievable(st, now, rule) && ConfirmRefusal(st, "w", revision).None? && rule in Ancestors(st, st[revision])
            && var st' := ApplyAll(st, ConfirmWrites(st, "w", revision, authority, t, listing)[..1]);
               !Retrievable(st', now, rule) && !Retrievable(st', now, revision)
  {
    FourIds();
    var x, a, y := Id('1'), Id('2'), Id('3');
    steps := RingIsReached(x, a, y);
    RingLinks(x, a, y);
    RuleIsShown(x, a, y, now);
    RingConfirms(x, a, y);
    RingLeavesGap(x, a, y, authority, t, now, listing);
    rule, revision := a, y;
  }

  // With new ids no run comes to this.
  lemma RingNeedsNamedId(x: string, a: string, y: string, steps: seq<Step>)
    requires Apart(x, a, y) && NewIds(steps)
    ensures Run(steps) != Ring(x, a, y)
  {
    var st := Ring(x, a, y);
    RunsAreAcyclic(steps);
    RingLinks(x, a, y);
    AncestorsAreReachable(st, y, a);
    AncestorsAreReachable(st, a, y);
    ReachesTransitive(st, a, y, a);
  }
}
