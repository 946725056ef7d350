// Long-term memory records and the revision graph their links form
// (storage/memory_governance.py, lines 71-145 and 347-374).
//
// A store is the directory of record files: a finite map from record id to record.
// `supersedes` is the record's `supersedes_memory_id` link. Nothing here assumes that the
// links are acyclic or that a link leads anywhere.
module MemoryGraph {
  import opened Prelude

  datatype Scope = Global | Workspace | Session | Task | Unknown

  datatype Status = Pending | Active | Rejected | Expired | Conflict

  // `expires_at`: absent, a time, or text that does not parse.
  datatype Expiry = Never | At(time: int) | Unreadable

  datatype Record = Record(
    id: string,
    workspace: string,
    session: string,
    task: string,
    scope: Scope,
    kind: string,
    status: Status,
    source: string,
    createdBy: string,
    content: string,
    summary: string,
    confident: bool,
    expiry: Expiry,
    group: string,
    updatedAt: int,
    supersedes: string,
    supersededBy: string,
    key: string,
    retires: bool,
    authority: string)

  type Store = map<string, Record>

  const KINDS: set<string> :=
    {"core_rule", "semantic_fact", "episodic_case", "procedural_rule", "profile", "knowledge_note"}

  // Every file holds the record it is named after, and names are not empty (`_path`, line 160).
  ghost predicate WellFormed(st: Store) {
    "" !in st && forall id :: id in st ==> st[id].id == id
  }

  predicate Live(r: Record, now: int) {
    && r.status == Active
    && r.kind in KINDS
    && match r.expiry
       case Never => true
       case At(t) => now <= t
       case Unreadable => false
  }

  predicate Undecided(r: Record) {
    r.status == Pending || r.status == Conflict
  }

  // What a workspace can see of the user's store.
  predicate Visible(ws: string, r: Record) {
    r.scope == Global || r.workspace == ws
  }

  function View(st: Store, ws: string): Store {
    map id | id in st && Visible(ws, st[id]) :: st[id]
  }

  // `_same_revision_domain`: revisions never cross an ownership boundary.
  predicate SameDomain(a: Record, b: Record) {
    && a.scope == b.scope
    && a.kind == b.kind
    && (a.scope == Global || a.workspace == b.workspace)
    && (a.scope == Session ==> a.session == b.session)
    && (a.scope == Task ==> a.task == b.task)
  }

  // ---- Following links ----

  // The chain walk of `revision_ancestors`: `start` fixes the domain, `seen` the records visited.
  function Chain(st: Store, start: Record, cur: Record, seen: set<string>): (ids: seq<string>)
    ensures forall x :: x in ids ==> x in st && x !in seen
    decreases st.Keys - seen
  {
    var t := cur.supersedes;
    if t !in st || t in seen || !SameDomain(start, st[t]) then []
    else
      assert t in st.Keys - seen && t !in st.Keys - (seen + {t});
      [t] + Chain(st, start, st[t], seen + {t})
  }

  // Ids of the records that `r` revises, nearest first.
  function Ancestors(st: Store, r: Record): (ids: seq<string>)
    ensures forall x :: x in ids ==> x in st && x != r.id
  {
    Chain(st, r, r, {r.id})
  }

  function TakeUndecided(st: Store, ids: seq<string>): (prefix: seq<string>)
    requires forall x :: x in ids ==> x in st
    ensures forall x :: x in prefix ==> x in ids && Undecided(st[x])
  {
    if ids == [] || !Undecided(st[ids[0]]) then []
    else [ids[0]] + TakeUndecided(st, ids[1..])
  }

  // The records that one record takes out of retrieval.
  function Replaces(st: Store, r: Record): (ids: seq<string>)
    ensures forall x :: x in ids ==> x in Ancestors(st, r)
  {
    if r.status == Active then Ancestors(st, r)
    else if Undecided(r) then TakeUndecided(st, Ancestors(st, r))
    else []
  }

  predicate Superseded(st: Store, x: string) {
    exists n :: n in st && x in Replaces(st, st[n])
  }

  // What `list_retrievable` returns, before the caller's scope and type filters.
  predicate Retrievable(st: Store, now: int, x: string) {
    x in st && Live(st[x], now) && !Superseded(st, x)
  }

  // ---- Reachability, independent of the visiting order ----

  function Link(st: Store, a: string): Option<string> {
    if a in st && st[a].supersedes in st && SameDomain(st[a], st[st[a].supersedes])
    then Some(st[a].supersedes) else None
  }

  ghost function Walk(st: Store, a: string, n: nat): Option<string>
    decreases n
  {
    if n == 0 then Some(a)
    else match Link(st, a)
      case None => None
      case Some(b) => Walk(st, b, n - 1)
  }

  ghost predicate Reaches(st: Store, a: string, b: string) {
    exists n: nat :: n > 0 && Walk(st, a, n) == Some(b)
  }

  lemma {:induction false} WalkSplit(st: Store, a: string, m: nat, n: nat)
    ensures Walk(st, a, m + n) == match Walk(st, a, m) case None => None case Some(b) => Walk(st, b, n)
    decreases m
  {
    if m > 0 {
      match Link(st, a)
      case None =>
      case Some(b) => WalkSplit(st, b, m - 1, n);
    }
  }

  lemma ReachesTransitive(st: Store, a: string, b: string, c: string)
    requires Reaches(st, a, b) && Reaches(st, b, c)
    ensures Reaches(st, a, c)
  {
    var m: nat :| m > 0 && Walk(st, a, m) == Some(b);
    var n: nat :| n > 0 && Walk(st, b, n) == Some(c);
    WalkSplit(st, a, m, n);
    assert Walk(st, a, m + n) == Some(c);
  }

  lemma LinkReaches(st: Store, a: string)
    requires Link(st, a).Some?
    ensures Reaches(st, a, Link(st, a).value)
  {
    assert Walk(st, Link(st, a).value, 0) == Some(Link(st, a).value);
    assert Walk(st, a, 1) == Some(Link(st, a).value);
  }

  lemma LinkThenReaches(st: Store, a: string, c: string)
    requires Link(st, a).Some? && Reaches(st, Link(st, a).value, c)
    ensures Reaches(st, a, c)
  {
    LinkReaches(st, a);
    ReachesTransitive(st, a, Link(st, a).value, c);
  }

  // Every step of the walk stays in the starting record's domain.
  lemma {:induction false} WalkKeepsDomain(st: Store, a: string, n: nat)
    requires a in st
    ensures Walk(st, a, n).Some? ==> Walk(st, a, n).value in st && SameDomain(st[a], st[Walk(st, a, n).value])
    decreases n
  {
    if n > 0 && Link(st, a).Some? {
      WalkKeepsDomain(st, Link(st, a).value, n - 1);
    }
  }

  lemma ReachesKeepsDomain(st: Store, a: string, b: string)
    requires Reaches(st, a, b)
    ensures a in st && b in st && SameDomain(st[a], st[b])
  {
    var n: nat :| n > 0 && Walk(st, a, n) == Some(b);
    WalkKeepsDomain(st, a, n);
  }

  // Element k of the ancestor chain lies k + 1 links away; no record occurs twice.
  lemma {:induction false} ChainIsWalk(st: Store, start: Record, cur: string, seen: set<string>, k: nat)
    requires cur in st && SameDomain(start, st[cur])
    requires k < |Chain(st, start, st[cur], seen)|
    ensures Walk(st, cur, k + 1) == Some(Chain(st, start, st[cur], seen)[k])
    decreases k
  {
    var t := st[cur].supersedes;
    assert Link(st, cur) == Some(t);
    if k == 0 {
      assert Walk(st, t, 0) == Some(t);
    } else {
      ChainIsWalk(st, start, t, seen + {t}, k - 1);
    }
  }

  lemma {:induction false} ChainDistinct(st: Store, start: Record, cur: Record, seen: set<string>, i: nat, j: nat)
    requires i < j < |Chain(st, start, cur, seen)|
    ensures Chain(st, start, cur, seen)[i] != Chain(st, start, cur, seen)[j]
    decreases i
  {
    var t := cur.supersedes;
    var rest := Chain(st, start, st[t], seen + {t});
    if i == 0 {
      assert rest[j - 1] in rest;
    } else {
      ChainDistinct(st, start, st[t], seen + {t}, i - 1, j - 1);
    }
  }

  // A chain stops only where the links stop or come back to a visited record.
  lemma {:induction false} ChainClosed(st: Store, start: Record, cur: string, seen: set<string>, s: string)
    requires cur in st && SameDomain(start, st[cur]) && cur in seen
    requires s == cur || s in Chain(st, start, st[cur], seen)
    ensures Link(st, s).Some? ==> Link(st, s).value in seen || Link(st, s).value in Chain(st, start, st[cur], seen)
    decreases |Chain(st, start, st[cur], seen)|
  {
    var chain := Chain(st, start, st[cur], seen);
    if s != cur {
      var t := st[cur].supersedes;
      assert chain == [t] + Chain(st, start, st[t], seen + {t});
      ChainClosed(st, start, t, seen + {t}, s);
    }
  }

  lemma {:induction false} WalkStays(st: Store, a: string, s: string, n: nat)
    requires WellFormed(st) && a in st
    requires s == a || s in Ancestors(st, st[a])
    ensures Walk(st, s, n).Some? ==> Walk(st, s, n).value == a || Walk(st, s, n).value in Ancestors(st, st[a])
    decreases n
  {
    if n > 0 && Link(st, s).Some? {
      ChainClosed(st, st[a], a, {a}, s);
      WalkStays(st, a, Link(st, s).value, n - 1);
    }
  }

  // The ancestor list is exactly what the links reach, cycles included.
  lemma AncestorsAreReachable(st: Store, a: string, b: string)
    requires WellFormed(st) && a in st
    ensures b in Ancestors(st, st[a]) <==> b != a && Reaches(st, a, b)
  {
    if b in Ancestors(st, st[a]) {
      var k :| 0 <= k < |Ancestors(st, st[a])| && Ancestors(st, st[a])[k] == b;
      ChainIsWalk(st, st[a], a, {a}, k);
    }
    if b != a && Reaches(st, a, b) {
      var n: nat :| n > 0 && Walk(st, a, n) == Some(b);
      WalkStays(st, a, a, n);
    }
  }

  // Earlier ancestors reach later ones.
  lemma AncestorOrder(st: Store, a: string, i: nat, j: nat)
    requires WellFormed(st) && a in st && i < j < |Ancestors(st, st[a])|
    ensures Ancestors(st, st[a])[i] != Ancestors(st, st[a])[j]
    ensures Reaches(st, Ancestors(st, st[a])[i], Ancestors(st, st[a])[j])
  {
    ChainDistinct(st, st[a], st[a], {a}, i, j);
    ChainIsWalk(st, st[a], a, {a}, i);
    ChainIsWalk(st, st[a], a, {a}, j);
    WalkSplit(st, a, i + 1, j - i);
    assert Walk(st, Ancestors(st, st[a])[i], j - i) == Some(Ancestors(st, st[a])[j]);
  }

  // `ids` lists what r revises, directly or through others.
  ghost predicate Covers(st: Store, r: string, ids: seq<string>) {
    forall x :: x in ids <==> x != r && Reaches(st, r, x)
  }

  lemma AncestorsCover(st: Store, r: string)
    requires WellFormed(st) && r in st
    ensures Covers(st, r, Ancestors(st, st[r]))
  {
    forall x ensures x in Ancestors(st, st[r]) <==> x != r && Reaches(st, r, x) {
      AncestorsAreReachable(st, r, x);
    }
  }

  ghost predicate ActiveOver(st: Store, n: string, x: string) {
    n in st && n != x && st[n].status == Active && Reaches(st, n, x)
  }

  // An active record is out of retrieval exactly when another active record reaches it.
  lemma SupersededActive(st: Store, x: string)
    requires WellFormed(st) && x in st && st[x].status == Active
    ensures Superseded(st, x) <==> exists n :: ActiveOver(st, n, x)
  {
    if Superseded(st, x) {
      var n :| n in st && x in Replaces(st, st[n]);
      AncestorsAreReachable(st, n, x);
      assert ActiveOver(st, n, x);
    }
    if n :| ActiveOver(st, n, x) {
      AncestorsAreReachable(st, n, x);
      assert x in Replaces(st, st[n]);
    }
  }

  // Retrieval without mention of chains: live, and no active record leads to it.
  ghost predicate Shown(st: Store, now: int, x: string) {
    x in st && Live(st[x], now) && forall n :: !ActiveOver(st, n, x)
  }

  lemma RetrievableIsShown(st: Store, now: int, x: string)
    requires WellFormed(st)
    ensures Retrievable(st, now, x) <==> Shown(st, now, x)
  {
    if x in st && st[x].status == Active {
      SupersededActive(st, x);
    }
  }

  // ---- Stores that differ only in what links and domains do not read ----

  predicate SameLinks(a: Record, b: Record) {
    a.id == b.id && a.supersedes == b.supersedes && SameDomain(a, b)
  }

  ghost predicate SameGraph(st: Store, st': Store) {
    st.Keys == st'.Keys && forall id :: id in st ==> SameLinks(st[id], st'[id])
  }

  lemma {:induction false} SameGraphWalk(st: Store, st': Store, a: string, n: nat)
    requires SameGraph(st, st')
    ensures Walk(st, a, n) == Walk(st', a, n)
    decreases n
  {
    if n > 0 && Link(st, a).Some? {
      SameGraphWalk(st, st', Link(st, a).value, n - 1);
    }
  }

  lemma SameGraphReaches(st: Store, st': Store, a: string, b: string)
    requires SameGraph(st, st')
    ensures Reaches(st, a, b) <==> Reaches(st', a, b)
  {
    if n: nat :| n > 0 && Walk(st, a, n) == Some(b) {
      SameGraphWalk(st, st', a, n);
    }
    if n: nat :| n > 0 && Walk(st', a, n) == Some(b) {
      SameGraphWalk(st, st', a, n);
    }
  }

  lemma {:induction false} SameGraphChain(st: Store, st': Store, start: Record, start': Record, cur: Record, cur': Record, seen: set<string>)
    requires SameGraph(st, st') && SameLinks(start, start') && SameLinks(cur, cur')
    ensures Chain(st, start, cur, seen) == Chain(st', start', cur', seen)
    decreases st.Keys - seen
  {
    var t := cur.supersedes;
    if t in st && t !in seen && SameDomain(start, st[t]) {
      assert t in st.Keys - seen && t !in st.Keys - (seen + {t});
      SameGraphChain(st, st', start, start', st[t], st'[t], seen + {t});
    }
  }

  // ---- Removing a record ----

  lemma {:induction false} RemovalWalk(st: Store, d: string, a: string, n: nat)
    requires Walk(st - {d}, a, n).Some?
    ensures Walk(st, a, n) == Walk(st - {d}, a, n)
    decreases n
  {
    if n > 0 {
      RemovalWalk(st, d, Link(st - {d}, a).value, n - 1);
    }
  }

  // A path survives the removal of d unless it ran through d.
  lemma {:induction false} RemovalBreaks(st: Store, d: string, a: string, b: string, n: nat)
    requires a != d && n > 0 && Walk(st, a, n) == Some(b)
    ensures Reaches(st - {d}, a, b) || (Reaches(st, a, d) && (b == d || Reaches(st, d, b)))
    decreases n
  {
    var c := Link(st, a).value;
    LinkReaches(st, a);
    if c == d {
      if n == 1 {
        assert Walk(st, c, 0) == Some(c);
      }
      assert b == d || Reaches(st, d, b);
    } else {
      LinkReaches(st - {d}, a);
      if n == 1 {
        assert Walk(st, c, 0) == Some(c);
      } else {
        RemovalBreaks(st, d, c, b, n - 1);
        if Reaches(st - {d}, c, b) {
          LinkThenReaches(st - {d}, a, b);
        } else {
          LinkThenReaches(st, a, d);
        }
      }
    }
  }
}
