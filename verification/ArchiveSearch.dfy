// Compaction archives and their rebuildable search index (storage/context_epoch_store.py, lines 101-136,
// 177-192 and 271-347).
module ArchiveSearch {
  import opened Prelude

  // A message is its own canonical text, and its digest.
  datatype Message = Message(role: string, body: string)

  // An archive is addressed by its content, so it is its own checkpoint id.
  datatype Archive = Archive(parent: string, request: string, messages: seq<Message>, state: string)

  type Archives = set<Archive>

  datatype Pointer = Pointer(checkpoint: Archive, index: nat)

  // `evidence` by digest, `occurrences` by place, and one term row for each new digest.
  datatype Tables = Tables(evidence: map<Message, Pointer>, occurrences: map<Pointer, Message>, terms: seq<Message>)

  const EMPTY: Tables := Tables(map[], map[], [])

  // File name, modification time and size of each archive.
  type Signature = set<(Archive, int)>

  function SignatureOf(archives: Archives, stamp: Archive -> int): Signature {
    set a | a in archives :: (a, stamp(a))
  }

  datatype World = World(archives: Archives, tables: Tables, signature: Option<Signature>)

  // ---- A plain scan ----

  ghost predicate Occurs(archives: Archives, m: Message) {
    exists a :: a in archives && m in a.messages
  }

  // What one message of an archive does to the tables.
  function Insert(t: Tables, at: Pointer, m: Message): Tables {
    Tables(if m in t.evidence then t.evidence else t.evidence[m := at],
           t.occurrences[at := m],
           if m in t.evidence then t.terms else t.terms + [m])
  }

  function InsertArchive(t: Tables, a: Archive, n: nat): Tables
    requires n <= |a.messages|
  {
    if n == 0 then t else Insert(InsertArchive(t, a, n - 1), Pointer(a, n - 1), a.messages[n - 1])
  }

  function Rebuilt(paths: seq<Archive>): Tables {
    if paths == [] then EMPTY
    else
      var last := paths[|paths| - 1];
      InsertArchive(Rebuilt(paths[..|paths| - 1]), last, |last.messages|)
  }

  // The tables describe the messages at the given places, and no others.
  ghost predicate Describes(t: Tables, covered: iset<Pointer>) {
    Placed(t, covered) && Evident(t, covered) && Termed(t)
  }

  ghost predicate Placed(t: Tables, covered: iset<Pointer>) {
    && (forall p :: p in t.occurrences <==> p in covered)
    && (forall p :: p in covered ==> p.index < |p.checkpoint.messages| && t.occurrences[p] == p.checkpoint.messages[p.index])
  }

  ghost predicate Evident(t: Tables, covered: iset<Pointer>) {
    && (forall m :: m in t.evidence ==> t.evidence[m] in covered && t.evidence[m] in t.occurrences && t.occurrences[t.evidence[m]] == m)
    && (forall p :: p in covered && p in t.occurrences ==> t.occurrences[p] in t.evidence)
  }

  // One term row for each message, none twice.
  ghost predicate Termed(t: Tables) {
    && (forall m :: m in t.terms <==> m in t.evidence)
    && (forall i, j :: 0 <= i < j < |t.terms| ==> t.terms[i] != t.terms[j])
  }

  ghost function Places(archives: iset<Archive>): iset<Pointer> {
    iset p: Pointer | p.checkpoint in archives && p.index < |p.checkpoint.messages|
  }

  ghost function PlacesUpTo(a: Archive, n: nat): iset<Pointer> {
    iset p: Pointer | p.checkpoint == a && p.index < n && p.index < |a.messages|
  }

  lemma InsertDescribes(t: Tables, covered: iset<Pointer>, at: Pointer)
    requires Describes(t, covered) && at !in covered && at.index < |at.checkpoint.messages|
    ensures Describes(Insert(t, at, at.checkpoint.messages[at.index]), covered + iset{at})
  {
    InsertTerms(t, at, at.checkpoint.messages[at.index]);
  }

  lemma InsertTerms(t: Tables, at: Pointer, m: Message)
    requires Termed(t)
    ensures Termed(Insert(t, at, m))
  {
    var t' := Insert(t, at, m);
    assert forall x :: x in t'.terms <==> x in t'.evidence;
  }

  lemma {:induction false} InsertArchiveDescribes(t: Tables, covered: iset<Pointer>, a: Archive, n: nat)
    requires Describes(t, covered) && n <= |a.messages| && forall p :: p in covered ==> p.checkpoint != a
    ensures Describes(InsertArchive(t, a, n), covered + PlacesUpTo(a, n))
  {
    if n == 0 {
      assert covered + PlacesUpTo(a, 0) == covered;
    } else {
      InsertArchiveDescribes(t, covered, a, n - 1);
      OneMorePlace(covered, a, n);
      var before, at := covered + PlacesUpTo(a, n - 1), Pointer(a, n - 1);
      InsertDescribes(InsertArchive(t, a, n - 1), before, at);
      assert before + iset{at} == covered + PlacesUpTo(a, n);
    }
  }

  lemma OneMorePlace(covered: iset<Pointer>, a: Archive, n: nat)
    requires 0 < n <= |a.messages| && forall p :: p in covered ==> p.checkpoint != a
    ensures Pointer(a, n - 1) !in covered + PlacesUpTo(a, n - 1)
    ensures covered + PlacesUpTo(a, n - 1) + iset{Pointer(a, n - 1)} == covered + PlacesUpTo(a, n)
  {
  }

  ghost function Listed(paths: seq<Archive>): iset<Archive> {
    iset a | a in paths
  }

  // A rebuild describes exactly the archives it went through, in whatever order they were listed.
  lemma {:induction false} RebuiltDescribes(paths: seq<Archive>)
    requires forall i, j :: 0 <= i < j < |paths| ==> paths[i] != paths[j]
    ensures Describes(Rebuilt(paths), Places(Listed(paths)))
  {
    if paths == [] {
      assert Places(Listed([])) == iset{};
    } else {
      var init, last := paths[..|paths| - 1], paths[|paths| - 1];
      RebuiltDescribes(init);
      OneMoreArchive(init, last);
      assert paths == init + [last];
      InsertArchiveDescribes(Rebuilt(init), Places(Listed(init)), last, |last.messages|);
    }
  }

  lemma OneMoreArchive(paths: seq<Archive>, a: Archive)
    ensures Places(Listed(paths)) + PlacesUpTo(a, |a.messages|) == Places(Listed(paths + [a]))
    ensures a !in paths ==> forall p :: p in Places(Listed(paths)) ==> p.checkpoint != a
  {
    assert forall x :: x in paths + [a] <==> x in paths || x == a;
  }

  ghost predicate Agrees(t: Tables, archives: Archives) {
    Describes(t, Places(iset a | a in archives))
  }

  // ---- The index over runs ----

  datatype Event =
    | Save(archive: Archive)
    | LoseIndex
    | Search(paths: seq<Archive>, stamp: Archive -> int)

  ghost predicate IsListing(archives: Archives, paths: seq<Archive>) {
    && (forall a :: a in paths <==> a in archives)
    && (forall i, j :: 0 <= i < j < |paths| ==> paths[i] != paths[j])
  }

  // What a search leaves behind: the tables rebuilt in one transaction unless the signature is unchanged.
  function Refresh(w: World, paths: seq<Archive>, stamp: Archive -> int): World {
    var signature := SignatureOf(w.archives, stamp);
    if w.signature == Some(signature) then w else w.(tables := Rebuilt(paths), signature := Some(signature))
  }

  function Do(w: World, e: Event): World {
    match e
    case Save(a) => w.(archives := w.archives + {a})
    case LoseIndex => w.(tables := EMPTY, signature := None)
    case Search(paths, stamp) => Refresh(w, paths, stamp)
  }

  function DoAll(w: World, es: seq<Event>): World {
    if es == [] then w else Do(DoAll(w, es[..|es| - 1]), es[|es| - 1])
  }

  ghost predicate Possible(w: World, es: seq<Event>) {
    es == [] || (Possible(w, es[..|es| - 1])
                 && (es[|es| - 1].Search? ==> IsListing(DoAll(w, es[..|es| - 1]).archives, es[|es| - 1].paths)))
  }

  // The tables were right for the archives the signature names.
  ghost predicate Dated(w: World) {
    w.signature.Some? ==>
      exists archives: Archives, stamp: Archive -> int ::
        w.signature.value == SignatureOf(archives, stamp) && Agrees(w.tables, archives)
  }

  lemma SignatureNames(a: Archives, b: Archives, f: Archive -> int, g: Archive -> int)
    requires SignatureOf(a, f) == SignatureOf(b, g)
    ensures a == b
  {
    forall x ensures x in a <==> x in b {
      if x in a { assert (x, f(x)) in SignatureOf(b, g); }
      if x in b { assert (x, g(x)) in SignatureOf(a, f); }
    }
  }

  lemma ListingAgrees(archives: Archives, paths: seq<Archive>)
    requires IsListing(archives, paths)
    ensures Agrees(Rebuilt(paths), archives)
  {
    RebuiltDescribes(paths);
    assert Listed(paths) == iset a | a in archives;
  }

  lemma {:induction false} DatedAlways(w: World, es: seq<Event>)
    requires Dated(w) && Possible(w, es)
    ensures Dated(DoAll(w, es))
  {
    if es != [] {
      var before, e := DoAll(w, es[..|es| - 1]), es[|es| - 1];
      DatedAlways(w, es[..|es| - 1]);
      if e.Search? && Do(before, e) != before {
        ListingAgrees(before.archives, e.paths);
        assert Do(before, e).signature.value == SignatureOf(before.archives, e.stamp);
      }
    }
  }

  // After every search the tables agree with the archives; an unchanged signature means they still do.
  lemma SearchSeesArchives(w: World, es: seq<Event>, paths: seq<Archive>, stamp: Archive -> int)
    requires Dated(w) && Possible(w, es) && IsListing(DoAll(w, es).archives, paths)
    ensures Agrees(Refresh(DoAll(w, es), paths, stamp).tables, DoAll(w, es).archives)
  {
    DatedAlways(w, es);
    var now := DoAll(w, es);
    if now.signature == Some(SignatureOf(now.archives, stamp)) {
      var archives: Archives, f: Archive -> int :|
        now.signature.value == SignatureOf(archives, f) && Agrees(now.tables, archives);
      SignatureNames(archives, now.archives, f, stamp);
    } else {
      ListingAgrees(now.archives, paths);
    }
  }

  // ---- What is counted and returned ----

  datatype Row = Row(at: Pointer, message: Message)

  // Terms that match, joined with their evidence.
  function Matching(t: Tables, terms: seq<Message>, hit: Message -> bool): seq<Row> {
    if terms == [] then []
    else
      var before := Matching(t, terms[..|terms| - 1], hit);
      var m := terms[|terms| - 1];
      if hit(m) && m in t.evidence then before + [Row(t.evidence[m], m)] else before
  }

  // The same, joined with the occurrences in one checkpoint.
  function PlacesOf(t: Tables, a: Archive, m: Message, n: nat): seq<Row> {
    if n == 0 then []
    else
      var before := PlacesOf(t, a, m, n - 1);
      var at := Pointer(a, n - 1);
      if at in t.occurrences && t.occurrences[at] == m then before + [Row(at, m)] else before
  }

  function MatchingIn(t: Tables, terms: seq<Message>, a: Archive, hit: Message -> bool): seq<Row> {
    if terms == [] then []
    else
      var before := MatchingIn(t, terms[..|terms| - 1], a, hit);
      var m := terms[|terms| - 1];
      if hit(m) && m in t.evidence then before + PlacesOf(t, a, m, |a.messages|) else before
  }

  // Every returned row is what its archive has at that place, so the recheck never fails.
  predicate Fresh(archives: Archives, r: Row) {
    r.at.checkpoint in archives && r.at.index < |r.at.checkpoint.messages| && r.at.checkpoint.messages[r.at.index] == r.message
  }

  lemma {:induction false} MatchingRows(t: Tables, terms: seq<Message>, hit: Message -> bool, archives: Archives)
    requires Agrees(t, archives) && (forall m :: m in terms ==> m in t.evidence)
    requires forall i, j :: 0 <= i < j < |terms| ==> terms[i] != terms[j]
    ensures var rows := Matching(t, terms, hit);
            && (forall r :: r in rows ==> Fresh(archives, r) && hit(r.message) && r.message in terms)
            && (forall i, j :: 0 <= i < j < |rows| ==> rows[i].message != rows[j].message)
            && (forall m :: m in terms && hit(m) ==> exists r :: r in rows && r.message == m)
  {
    if terms != [] {
      var init, last := terms[..|terms| - 1], terms[|terms| - 1];
      assert terms == init + [last] && last !in init;
      MatchingRows(t, init, hit, archives);
      if hit(last) {
        var row := Row(t.evidence[last], last);
        assert Fresh(archives, row);
        AllMatched(init, last, hit, Matching(t, init, hit), row);
      }
    }
  }

  lemma AllMatched(init: seq<Message>, last: Message, hit: Message -> bool, rows: seq<Row>, row: Row)
    requires row.message == last && forall m :: m in init && hit(m) ==> exists r :: r in rows && r.message == m
    ensures forall m :: m in init + [last] && hit(m) ==> exists r :: r in rows + [row] && r.message == m
  {
    forall m | m in init + [last] && hit(m) ensures exists r :: r in rows + [row] && r.message == m {
      if m in init {
        var r :| r in rows && r.message == m;
        assert r in rows + [row];
      } else {
        assert row in rows + [row];
      }
    }
  }

  // An unfiltered search returns each distinct matching message exactly once, wherever it occurs.
  lemma EachDistinctOnce(t: Tables, archives: Archives, hit: Message -> bool)
    requires Agrees(t, archives)
    ensures var rows := Matching(t, t.terms, hit);
            && (forall r :: r in rows ==> Fresh(archives, r) && hit(r.message))
            && (forall i, j :: 0 <= i < j < |rows| ==> rows[i].message != rows[j].message)
            && (forall m :: Occurs(archives, m) && hit(m) <==> exists r :: r in rows && r.message == m)
  {
    MatchingRows(t, t.terms, hit, archives);
    var rows := Matching(t, t.terms, hit);
    forall m | Occurs(archives, m) && hit(m) ensures exists r :: r in rows && r.message == m {
      var a :| a in archives && m in a.messages;
      var i :| 0 <= i < |a.messages| && a.messages[i] == m;
      assert Pointer(a, i) in Places(iset a | a in archives);
      assert t.occurrences[Pointer(a, i)] == m;
    }
    forall r | r in rows ensures Occurs(archives, r.message) {
      assert r.at.checkpoint.messages[r.at.index] in r.at.checkpoint.messages;
    }
  }

  lemma {:induction false} PlacesOfRows(t: Tables, a: Archive, m: Message, n: nat, archives: Archives)
    requires Agrees(t, archives) && a in archives && n <= |a.messages|
    ensures var rows := PlacesOf(t, a, m, n);
            && (forall r :: r in rows <==> r.message == m && r.at.checkpoint == a && r.at.index < n && a.messages[r.at.index] == m)
            && (forall i, j :: 0 <= i < j < |rows| ==> rows[i].at != rows[j].at)
  {
    if n > 0 {
      PlacesOfRows(t, a, m, n - 1, archives);
      var at := Pointer(a, n - 1);
      assert at in Places(iset x | x in archives);
      assert t.occurrences[at] == a.messages[n - 1];
    }
  }

  lemma {:induction false} MatchingInRows(t: Tables, terms: seq<Message>, a: Archive, hit: Message -> bool, archives: Archives)
    requires Agrees(t, archives) && a in archives && (forall m :: m in terms ==> m in t.evidence)
    requires forall i, j :: 0 <= i < j < |terms| ==> terms[i] != terms[j]
    ensures var rows := MatchingIn(t, terms, a, hit);
            && (forall r :: r in rows <==> r.message in terms && hit(r.message) && r.at.checkpoint == a
                                           && r.at.index < |a.messages| && a.messages[r.at.index] == r.message)
            && (forall i, j :: 0 <= i < j < |rows| ==> rows[i].at != rows[j].at)
  {
    if terms != [] {
      var init, last := terms[..|terms| - 1], terms[|terms| - 1];
      assert terms == init + [last] && last !in init;
      MatchingInRows(t, init, a, hit, archives);
      PlacesOfRows(t, a, last, |a.messages|, archives);
      if hit(last) {
        DistinctPlaces(MatchingIn(t, init, a, hit), PlacesOf(t, a, last, |a.messages|), last);
      }
    }
  }

  lemma DistinctPlaces(xs: seq<Row>, ys: seq<Row>, m: Message)
    requires forall i, j :: 0 <= i < j < |xs| ==> xs[i].at != xs[j].at
    requires forall i, j :: 0 <= i < j < |ys| ==> ys[i].at != ys[j].at
    requires forall x, y :: x in xs && y in ys ==> x.at != y.at
    ensures forall i, j :: 0 <= i < j < |xs + ys| ==> (xs + ys)[i].at != (xs + ys)[j].at
  {
    forall i, j | 0 <= i < j < |xs + ys| ensures (xs + ys)[i].at != (xs + ys)[j].at {
      if i < |xs| <= j {
        assert xs[i] in xs && ys[j - |xs|] in ys;
      }
    }
  }

  // A search of one checkpoint returns each matching occurrence in it exactly once.
  lemma EachOccurrenceOnce(t: Tables, archives: Archives, a: Archive, hit: Message -> bool)
    requires Agrees(t, archives) && a in archives
    ensures var rows := MatchingIn(t, t.terms, a, hit);
            && (forall r :: r in rows ==> Fresh(archives, r) && r.at.checkpoint == a && hit(r.message))
            && (forall i, j :: 0 <= i < j < |rows| ==> rows[i].at != rows[j].at)
            && (forall i :: 0 <= i < |a.messages| && hit(a.messages[i]) ==> Row(Pointer(a, i), a.messages[i]) in rows)
  {
    MatchingInRows(t, t.terms, a, hit, archives);
    forall i | 0 <= i < |a.messages| && hit(a.messages[i]) ensures Row(Pointer(a, i), a.messages[i]) in MatchingIn(t, t.terms, a, hit) {
      assert Pointer(a, i) in Places(iset x | x in archives);
      assert t.occurrences[Pointer(a, i)] == a.messages[i];
    }
  }

  // ---- The store and its index ----

  class ArchiveStore {
    var archives: Archives
    var tables: Tables
    var signature: Option<Signature>

    ghost function Now(): World
      reads this
    {
      World(archives, tables, signature)
    }

    // `save_epoch`: an archive that is there already is the same one.
    method SaveEpoch(a: Archive)
      modifies this`archives
      ensures Now() == Do(old(Now()), Save(a))
    {
      if a !in archives {
        archives := archives + {a};
      }
    }

    // The rebuild, in one transaction.
    method Rebuild(paths: seq<Archive>, found: Signature)
      modifies this`tables, this`signature
      ensures tables == Rebuilt(paths) && signature == Some(found)
    {
      var t := EMPTY;
      for i := 0 to |paths|
        invariant t == Rebuilt(paths[..i])
      {
        assert paths[..i + 1][..i] == paths[..i] && paths[..i + 1][i] == paths[i];
        t := InsertAll(t, paths[i]);
      }
      assert paths[..|paths|] == paths;
      tables, signature := t, Some(found);
    }

    method InsertAll(start: Tables, a: Archive) returns (t: Tables)
      ensures t == InsertArchive(start, a, |a.messages|)
    {
      t := start;
      for n := 0 to |a.messages|
        invariant t == InsertArchive(start, a, n)
      {
        var at, m := Pointer(a, n), a.messages[n];
        if m !in t.evidence {
          t := t.(evidence := t.evidence[m := at], terms := t.terms + [m]);
        }
        t := t.(occurrences := t.occurrences[at := m]);
      }
    }

    // `search_epochs`: the matching rows before they are ranked and cut to a page. `within` is the
    // checkpoint asked for.
    method SearchEpochs(paths: seq<Archive>, stamp: Archive -> int, hit: Message -> bool, within: Option<Archive>)
      returns (rows: Result<seq<Row>, string>)
      requires IsListing(archives, paths) && Dated(Now())
      modifies this`tables, this`signature
      ensures Now() == Do(old(Now()), Search(paths, stamp)) && Agrees(tables, archives)
      ensures rows.Err? <==> within.Some? && within.value !in archives
      ensures rows.Ok? ==> rows.value == if within.None? then Matching(tables, tables.terms, hit)
                                         else MatchingIn(tables, tables.terms, within.value, hit)
      ensures rows.Ok? ==> forall r :: r in rows.value ==> Fresh(archives, r)
    {
      SearchSeesArchives(Now(), [], paths, stamp);
      var found := SignatureOf(archives, stamp);
      if signature != Some(found) {
        Rebuild(paths, found);
      }
      if within.Some? {
        if within.value !in archives {
          return Err("context_checkpoint_not_found");
        }
        EachOccurrenceOnce(tables, archives, within.value, hit);
        return Ok(MatchingIn(tables, tables.terms, within.value, hit));
      }
      EachDistinctOnce(tables, archives, hit);
      rows := Ok(Matching(tables, tables.terms, hit));
    }
  }
}
