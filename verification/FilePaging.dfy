// Keyset paging over the managed files of a workspace (storage/file_workspace.py, lines 22-73).
module FilePaging {
  import opened Prelude

  datatype View = Files | All | Evidence | History | Deliverables
  datatype Order = Created | Name | Size

  // One listed file. `name` is already case-folded; `text` is the case-folded text a query looks in;
  // `evidence` says whether its source, type or artifacts make it evidence.
  datatype Row = Row(
    id: string, created: string, name: string, size: nat,
    evidence: bool, historical: bool, hasArtifacts: bool, logicalType: string, folder: string, text: string)

  // The arguments a cursor is bound to, and the page size, which it is not.
  datatype Scope = Scope(workspace: string, lifecycle: string, logicalType: string,
                         query: string, folder: Option<string>, view: View, order: Order)

  // ---- Which rows ----

  predicate MatchesView(r: Row, view: View, folder: Option<string>) {
    && !(view == Files && (r.evidence || r.historical))
    && !(view == Evidence && !r.evidence) && !(view == History && !r.historical)
    && !(view == Deliverables && (r.evidence || r.historical || !r.hasArtifacts
                                  || r.logicalType !in {"artifact_output", "report", "working_file"}))
    && (folder.Some? ==> r.folder == folder.value)
  }

  predicate Contains(text: string, part: string)
    decreases |text|
  {
    part <= text || (text != "" && Contains(text[1..], part))
  }

  predicate Matches(r: Row, scope: Scope) {
    MatchesView(r, scope.view, scope.folder) && (scope.query == "" || Contains(r.text, scope.query))
  }

  function Selected(rows: seq<Row>, scope: Scope): seq<Row> {
    if rows == [] then []
    else
      var before := Selected(rows[..|rows| - 1], scope);
      if Matches(rows[|rows| - 1], scope) then before + [rows[|rows| - 1]] else before
  }

  // ---- Their order ----

  type Key = (string, string)

  // Strings compare by code point.
  predicate Less(a: string, b: string) {
    if b == "" then false
    else if a == "" then true
    else a[0] < b[0] || (a[0] == b[0] && Less(a[1..], b[1..]))
  }

  predicate KeyLess(a: Key, b: Key) {
    Less(a.0, b.0) || (a.0 == b.0 && Less(a.1, b.1))
  }

  function Digit(n: nat): char
    requires n < 10
  {
    "0123456789"[n]
  }

  // `str`
  function Decimal(n: nat): (s: string)
    ensures s != ""
  {
    if n < 10 then [Digit(n)] else Decimal(n / 10) + [Digit(n % 10)]
  }

  // `str.zfill`
  function ZFill(s: string, width: nat): string {
    seq(if width > |s| then width - |s| else 0, _ => '0') + s
  }

  function KeyOf(r: Row, order: Order): Key {
    match order
    case Size => (ZFill(Decimal(r.size), 20), r.id)
    case Name => (r.name, r.id)
    case Created => (r.created, r.id)
  }

  // `a` is listed before `b`; only names go up.
  predicate Before(a: Key, b: Key, order: Order) {
    if order == Name then KeyLess(a, b) else KeyLess(b, a)
  }

  function Insert(sorted: seq<Row>, r: Row, order: Order): seq<Row> {
    if sorted == [] || !Before(KeyOf(r, order), KeyOf(sorted[|sorted| - 1], order), order) then sorted + [r]
    else Insert(sorted[..|sorted| - 1], r, order) + [sorted[|sorted| - 1]]
  }

  function SortRows(rows: seq<Row>, order: Order): seq<Row> {
    if rows == [] then [] else Insert(SortRows(rows[..|rows| - 1], order), rows[|rows| - 1], order)
  }

  // ---- One page ----

  datatype Cursor = Cursor(scope: Scope, key: Key)

  datatype Page = Page(files: seq<Row>, total: nat, next: Option<Cursor>)

  function Beyond(sorted: seq<Row>, boundary: Key, order: Order): seq<Row> {
    if sorted == [] then []
    else
      var kept := Beyond(sorted[..|sorted| - 1], boundary, order);
      if Before(boundary, KeyOf(sorted[|sorted| - 1], order), order) then kept + [sorted[|sorted| - 1]] else kept
  }

  // What is still to be shown.
  function Remaining(rows: seq<Row>, scope: Scope, cursor: Option<Cursor>): seq<Row> {
    var sorted := SortRows(Selected(rows, scope), scope.order);
    if cursor.None? then sorted else Beyond(sorted, cursor.value.key, scope.order)
  }

  function Head(left: seq<Row>, limit: nat): seq<Row> {
    if limit < |left| then left[..limit] else left
  }

  // The cursor of the next page, if there is one.
  function Onward(left: seq<Row>, scope: Scope, limit: nat): Option<Cursor>
    requires limit > 0
  {
    if |left| > limit then Some(Cursor(scope, KeyOf(left[limit - 1], scope.order))) else None
  }

  // `files_page`
  function FilesPage(rows: seq<Row>, scope: Scope, limit: int, cursor: Option<Cursor>): Result<Page, string> {
    if !(1 <= limit <= 200) then Err("invalid_file_query")
    else if cursor.Some? && cursor.value.scope != scope then Err("invalid_file_cursor")
    else
      Ok(Page(Head(Remaining(rows, scope, cursor), limit), |Selected(rows, scope)|,
              Onward(Remaining(rows, scope, cursor), scope, limit)))
  }

  // ---- The order is strict and total ----

  lemma {:induction false} LessIrreflexive(a: string)
    ensures !Less(a, a)
  {
    if a != "" { LessIrreflexive(a[1..]); }
  }

  lemma {:induction false} LessTransitive(a: string, b: string, c: string)
    requires Less(a, b) && Less(b, c)
    ensures Less(a, c)
  {
    if a != "" && a[0] == b[0] && b[0] == c[0] { LessTransitive(a[1..], b[1..], c[1..]); }
  }

  lemma {:induction false} LessTotal(a: string, b: string)
    ensures Less(a, b) || Less(b, a) || a == b
  {
    if a != "" && b != "" && a[0] == b[0] {
      LessTotal(a[1..], b[1..]);
      assert a == [a[0]] + a[1..] && b == [b[0]] + b[1..];
    }
  }

  lemma BeforeIrreflexive(a: Key, order: Order)
    ensures !Before(a, a, order)
  {
    LessIrreflexive(a.0);
    LessIrreflexive(a.1);
  }

  lemma KeyLessTransitive(a: Key, b: Key, c: Key)
    requires KeyLess(a, b) && KeyLess(b, c)
    ensures KeyLess(a, c)
  {
    if Less(a.0, b.0) {
      if Less(b.0, c.0) { LessTransitive(a.0, b.0, c.0); }
    } else if !Less(b.0, c.0) {
      LessTransitive(a.1, b.1, c.1);
    }
  }

  lemma BeforeTransitive(a: Key, b: Key, c: Key, order: Order)
    requires Before(a, b, order) && Before(b, c, order)
    ensures Before(a, c, order)
  {
    if order == Name { KeyLessTransitive(a, b, c); } else { KeyLessTransitive(c, b, a); }
  }

  lemma BeforeTotal(a: Key, b: Key, order: Order)
    requires a.1 != b.1
    ensures Before(a, b, order) || Before(b, a, order)
  {
    LessTotal(a.0, b.0);
    LessTotal(a.1, b.1);
  }

  // ---- Sizes compare as numbers ----

  function Pow10(w: nat): nat {
    if w == 0 then 1 else 10 * Pow10(w - 1)
  }

  // The last `w` digits of a number.
  function Digits(n: nat, w: nat): (s: string)
    ensures |s| == w
  {
    if w == 0 then "" else Digits(n / 10, w - 1) + [Digit(n % 10)]
  }

  lemma {:induction false} LessLast(x: string, y: string, c: char, d: char)
    requires |x| == |y|
    ensures Less(x + [c], y + [d]) <==> Less(x, y) || (x == y && c < d)
  {
    if x == "" {
      assert x + [c] == [c] && y + [d] == [d];
      assert [c][1..] == "" && [d][1..] == "";
    } else {
      LessLast(x[1..], y[1..], c, d);
      assert (x + [c])[1..] == x[1..] + [c] && (y + [d])[1..] == y[1..] + [d];
      assert x == [x[0]] + x[1..] && y == [y[0]] + y[1..];
    }
  }

  lemma {:induction false} DigitsInjective(a: nat, b: nat, w: nat)
    requires a < Pow10(w) && b < Pow10(w) && Digits(a, w) == Digits(b, w)
    ensures a == b
  {
    if w > 0 {
      var x, y := Digits(a / 10, w - 1), Digits(b / 10, w - 1);
      assert Digits(a, w)[..w - 1] == x && Digits(b, w)[..w - 1] == y;
      assert Digits(a, w)[w - 1] == Digit(a % 10) && Digits(b, w)[w - 1] == Digit(b % 10);
      DigitsInjective(a / 10, b / 10, w - 1);
    }
  }

  lemma {:induction false} DigitsOrdered(a: nat, b: nat, w: nat)
    requires a < Pow10(w) && b < Pow10(w)
    ensures Less(Digits(a, w), Digits(b, w)) <==> a < b
  {
    if w > 0 {
      DigitsOrdered(a / 10, b / 10, w - 1);
      LessLast(Digits(a / 10, w - 1), Digits(b / 10, w - 1), Digit(a % 10), Digit(b % 10));
      if Digits(a / 10, w - 1) == Digits(b / 10, w - 1) {
        DigitsInjective(a / 10, b / 10, w - 1);
      }
    }
  }

  lemma {:induction false} ZFillIsDigits(n: nat, w: nat)
    requires n < Pow10(w) && w > 0
    ensures ZFill(Decimal(n), w) == Digits(n, w) && |Decimal(n)| <= w
  {
    if n < 10 {
      LeadingZeros(w - 1);
      assert n / 10 == 0 && n % 10 == n;
      assert ZFill(Decimal(n), w) == seq(w - 1, _ => '0') + [Digit(n)];
    } else {
      assert Pow10(1) == 10 * Pow10(0);
      ZFillIsDigits(n / 10, w - 1);
      var s := Decimal(n / 10);
      assert ZFill(s + [Digit(n % 10)], w) == ZFill(s, w - 1) + [Digit(n % 10)];
    }
  }

  lemma {:induction false} LeadingZeros(w: nat)
    ensures Digits(0, w) == seq(w, _ => '0')
  {
    if w > 0 {
      LeadingZeros(w - 1);
    }
  }

  // Zero-padded sizes below 10^20 are ordered as the sizes are.
  lemma PaddedSizesOrdered(a: nat, b: nat)
    requires a < Pow10(20) && b < Pow10(20)
    ensures Less(ZFill(Decimal(a), 20), ZFill(Decimal(b), 20)) <==> a < b
  {
    ZFillIsDigits(a, 20);
    ZFillIsDigits(b, 20);
    DigitsOrdered(a, b, 20);
  }

  // ---- A page is a stretch of the sorted selection ----

  ghost predicate DistinctIds(rows: seq<Row>) {
    forall i, j :: 0 <= i < j < |rows| ==> rows[i].id != rows[j].id
  }

  ghost predicate Ascending(rows: seq<Row>, order: Order) {
    forall i, j :: 0 <= i < j < |rows| ==> Before(KeyOf(rows[i], order), KeyOf(rows[j], order), order)
  }

  lemma {:induction false} SelectedMember(rows: seq<Row>, scope: Scope, r: Row)
    ensures r in Selected(rows, scope) <==> r in rows && Matches(r, scope)
  {
    if rows != [] {
      SelectedMember(rows[..|rows| - 1], scope, r);
      assert rows == rows[..|rows| - 1] + [rows[|rows| - 1]];
    }
  }

  lemma {:induction false} SelectedDistinct(rows: seq<Row>, scope: Scope)
    requires DistinctIds(rows)
    ensures DistinctIds(Selected(rows, scope))
  {
    if rows != [] {
      var init, last := rows[..|rows| - 1], rows[|rows| - 1];
      SelectedDistinct(init, scope);
      forall r | r in Selected(init, scope) ensures r.id != last.id {
        SelectedMember(init, scope, r);
      }
    }
  }

  lemma {:induction false} InsertMember(sorted: seq<Row>, x: Row, order: Order, r: Row)
    ensures r in Insert(sorted, x, order) <==> r in sorted || r == x
  {
    if !(sorted == [] || !Before(KeyOf(x, order), KeyOf(sorted[|sorted| - 1], order), order)) {
      InsertMember(sorted[..|sorted| - 1], x, order, r);
      assert sorted == sorted[..|sorted| - 1] + [sorted[|sorted| - 1]];
    }
  }

  lemma {:induction false} InsertAscending(sorted: seq<Row>, x: Row, order: Order)
    requires Ascending(sorted, order) && forall r :: r in sorted ==> r.id != x.id
    ensures Ascending(Insert(sorted, x, order), order)
  {
    if sorted != [] {
      var init, last := sorted[..|sorted| - 1], sorted[|sorted| - 1];
      if Before(KeyOf(x, order), KeyOf(last, order), order) {
        InsertAscending(init, x, order);
        forall r | r in Insert(init, x, order) ensures Before(KeyOf(r, order), KeyOf(last, order), order) {
          InsertMember(init, x, order, r);
        }
      } else {
        BeforeTotal(KeyOf(x, order), KeyOf(last, order), order);
        forall i | 0 <= i < |sorted| ensures Before(KeyOf(sorted[i], order), KeyOf(x, order), order) {
          if i < |sorted| - 1 {
            BeforeTransitive(KeyOf(sorted[i], order), KeyOf(last, order), KeyOf(x, order), order);
          }
        }
      }
    }
  }

  lemma {:induction false} SortMember(rows: seq<Row>, order: Order, r: Row)
    ensures r in SortRows(rows, order) <==> r in rows
  {
    if rows != [] {
      SortMember(rows[..|rows| - 1], order, r);
      InsertMember(SortRows(rows[..|rows| - 1], order), rows[|rows| - 1], order, r);
      assert rows == rows[..|rows| - 1] + [rows[|rows| - 1]];
    }
  }

  lemma {:induction false} SortAscending(rows: seq<Row>, order: Order)
    requires DistinctIds(rows)
    ensures Ascending(SortRows(rows, order), order)
  {
    if rows != [] {
      var init, last := rows[..|rows| - 1], rows[|rows| - 1];
      SortAscending(init, order);
      forall r | r in SortRows(init, order) ensures r.id != last.id {
        SortMember(init, order, r);
      }
      InsertAscending(SortRows(init, order), last, order);
    }
  }

  lemma {:induction false} BeyondMember(sorted: seq<Row>, boundary: Key, order: Order, r: Row)
    ensures r in Beyond(sorted, boundary, order) <==> r in sorted && Before(boundary, KeyOf(r, order), order)
  {
    if sorted != [] {
      BeyondMember(sorted[..|sorted| - 1], boundary, order, r);
      assert sorted == sorted[..|sorted| - 1] + [sorted[|sorted| - 1]];
    }
  }

  lemma {:induction false} BeyondAscending(sorted: seq<Row>, boundary: Key, order: Order)
    requires Ascending(sorted, order)
    ensures Ascending(Beyond(sorted, boundary, order), order)
  {
    if sorted != [] {
      var init, last := sorted[..|sorted| - 1], sorted[|sorted| - 1];
      BeyondAscending(init, boundary, order);
      forall r | r in Beyond(init, boundary, order) ensures Before(KeyOf(r, order), KeyOf(last, order), order) {
        BeyondMember(init, boundary, order, r);
      }
    }
  }

  predicate Past(cursor: Option<Cursor>, k: Key, order: Order) {
    cursor.Some? ==> Before(cursor.value.key, k, order)
  }

  lemma RemainingRows(rows: seq<Row>, scope: Scope, cursor: Option<Cursor>)
    requires DistinctIds(rows)
    ensures Ascending(Remaining(rows, scope, cursor), scope.order)
    ensures forall r :: r in Remaining(rows, scope, cursor) <==>
              r in rows && Matches(r, scope) && Past(cursor, KeyOf(r, scope.order), scope.order)
  {
    var selected := Selected(rows, scope);
    var sorted := SortRows(selected, scope.order);
    SelectedDistinct(rows, scope);
    SortAscending(selected, scope.order);
    if cursor.Some? { BeyondAscending(sorted, cursor.value.key, scope.order); }
    forall r
      ensures r in Remaining(rows, scope, cursor) <==>
                r in rows && Matches(r, scope) && Past(cursor, KeyOf(r, scope.order), scope.order)
    {
      SelectedMember(rows, scope, r);
      SortMember(selected, scope.order, r);
      if cursor.Some? { BeyondMember(sorted, cursor.value.key, scope.order, r); }
    }
  }

  // ---- Following cursors while the files change ----

  datatype Shown = Shown(rows: seq<Row>, finished: bool)

  // One page from each state of the files in turn, until there is no next cursor.
  function Browse(states: seq<seq<Row>>, scope: Scope, limit: int, cursor: Option<Cursor>): Shown
    requires 1 <= limit <= 200 && (cursor.Some? ==> cursor.value.scope == scope)
  {
    if states == [] then Shown([], false)
    else
      var page := FilesPage(states[0], scope, limit, cursor).value;
      if page.next.None? then Shown(page.files, true)
      else
        var rest := Browse(states[1..], scope, limit, page.next);
        Shown(page.files + rest.rows, rest.finished)
  }

  ghost predicate AllDistinct(states: seq<seq<Row>>) {
    forall i :: 0 <= i < |states| ==> DistinctIds(states[i])
  }

  // A page starts past the cursor, and what follows it is past its last row.
  lemma PageRows(rows: seq<Row>, scope: Scope, limit: int, cursor: Option<Cursor>)
    requires DistinctIds(rows) && 1 <= limit <= 200 && (cursor.Some? ==> cursor.value.scope == scope)
    ensures var page := FilesPage(rows, scope, limit, cursor).value;
            && Ascending(page.files, scope.order)
            && (forall r :: r in page.files ==> r in rows && Matches(r, scope) && Past(cursor, KeyOf(r, scope.order), scope.order))
            && (forall r :: r in rows && Matches(r, scope) && Past(cursor, KeyOf(r, scope.order), scope.order) ==>
                  r in page.files || (page.next.Some? && Past(page.next, KeyOf(r, scope.order), scope.order)))
            && (page.next.Some? ==> page.next.value.scope == scope && page.files != []
                                    && page.next.value.key == KeyOf(page.files[|page.files| - 1], scope.order))
  {
    RemainingRows(rows, scope, cursor);
    var left := Remaining(rows, scope, cursor);
    var page := FilesPage(rows, scope, limit, cursor).value;
    forall r | r in left ensures r in page.files || (page.next.Some? && Past(page.next, KeyOf(r, scope.order), scope.order)) {
      var i :| 0 <= i < |left| && left[i] == r;
      if i < |page.files| {
        assert page.files[i] == r;
      }
    }
  }

  // Whatever is inserted, removed or changed between pages, what is shown is strictly in order.
  lemma {:induction false} BrowseAscending(states: seq<seq<Row>>, scope: Scope, limit: int, cursor: Option<Cursor>)
    requires 1 <= limit <= 200 && (cursor.Some? ==> cursor.value.scope == scope) && AllDistinct(states)
    ensures var shown := Browse(states, scope, limit, cursor).rows;
            Ascending(shown, scope.order) && forall r :: r in shown ==> Past(cursor, KeyOf(r, scope.order), scope.order)
  {
    if states != [] {
      PageRows(states[0], scope, limit, cursor);
      var page := FilesPage(states[0], scope, limit, cursor).value;
      if page.next.Some? {
        BrowseAscending(states[1..], scope, limit, page.next);
        PagesJoin(page.files, Browse(states[1..], scope, limit, page.next).rows, page.next.value.key, cursor, scope.order);
      }
    }
  }

  lemma PagesJoin(first: seq<Row>, rest: seq<Row>, boundary: Key, cursor: Option<Cursor>, order: Order)
    requires Ascending(first, order) && Ascending(rest, order) && first != []
    requires boundary == KeyOf(first[|first| - 1], order)
    requires forall r :: r in first ==> Past(cursor, KeyOf(r, order), order)
    requires forall r :: r in rest ==> Before(boundary, KeyOf(r, order), order)
    ensures Ascending(first + rest, order) && forall r :: r in first + rest ==> Past(cursor, KeyOf(r, order), order)
  {
    forall r | r in rest ensures Past(cursor, KeyOf(r, order), order) {
      if cursor.Some? {
        assert first[|first| - 1] in first;
        BeforeTransitive(cursor.value.key, boundary, KeyOf(r, order), order);
      }
    }
    forall i, r | 0 <= i < |first| && r in rest ensures Before(KeyOf(first[i], order), KeyOf(r, order), order) {
      if i < |first| - 1 {
        BeforeTransitive(KeyOf(first[i], order), boundary, KeyOf(r, order), order);
      }
    }
  }

  // Only rows of the states are shown.
  lemma {:induction false} ShownAreRows(states: seq<seq<Row>>, scope: Scope, limit: int, cursor: Option<Cursor>, r: Row)
    requires 1 <= limit <= 200 && (cursor.Some? ==> cursor.value.scope == scope) && AllDistinct(states)
    requires r in Browse(states, scope, limit, cursor).rows
    ensures exists i :: 0 <= i < |states| && r in states[i]
  {
    PageRows(states[0], scope, limit, cursor);
    var page := FilesPage(states[0], scope, limit, cursor).value;
    if r !in page.files {
      ShownAreRows(states[1..], scope, limit, page.next, r);
      var i :| 0 <= i < |states| - 1 && r in states[1..][i];
      assert r in states[i + 1];
    }
  }

  ghost predicate SizesFit(states: seq<seq<Row>>) {
    forall i :: 0 <= i < |states| ==> forall r :: r in states[i] ==> r.size < Pow10(20)
  }

  // By size, the rows shown go down by the number itself, and by id among equal sizes, while no size has more
  // than twenty digits.
  lemma BrowseBySizeDescends(states: seq<seq<Row>>, scope: Scope, limit: int, cursor: Option<Cursor>)
    requires 1 <= limit <= 200 && (cursor.Some? ==> cursor.value.scope == scope) && AllDistinct(states)
    requires scope.order == Size && SizesFit(states)
    ensures var shown := Browse(states, scope, limit, cursor).rows;
            forall i, j :: 0 <= i < j < |shown| ==>
              shown[i].size > shown[j].size || (shown[i].size == shown[j].size && Less(shown[j].id, shown[i].id))
  {
    var shown := Browse(states, scope, limit, cursor).rows;
    BrowseAscending(states, scope, limit, cursor);
    forall i, j | 0 <= i < j < |shown|
      ensures shown[i].size > shown[j].size || (shown[i].size == shown[j].size && Less(shown[j].id, shown[i].id))
    {
      ShownAreRows(states, scope, limit, cursor, shown[i]);
      ShownAreRows(states, scope, limit, cursor, shown[j]);
      SizeKeysOrdered(shown[j], shown[i]);
    }
  }

  lemma SizeKeysOrdered(a: Row, b: Row)
    requires a.size < Pow10(20) && b.size < Pow10(20) && KeyLess(KeyOf(a, Size), KeyOf(b, Size))
    ensures a.size < b.size || (a.size == b.size && Less(a.id, b.id))
  {
    PaddedSizesOrdered(a.size, b.size);
    PaddedSizesOrdered(b.size, a.size);
    if a.size == b.size {
      LessIrreflexive(KeyOf(a, Size).0);
    } else if b.size < a.size {
      KeyLessTransitive(KeyOf(a, Size), KeyOf(b, Size), KeyOf(a, Size));
      LessIrreflexive(KeyOf(a, Size).0);
      LessIrreflexive(KeyOf(a, Size).1);
    }
  }

  // The row keeps its id and its place and goes on matching.
  ghost predicate Present(rows: seq<Row>, scope: Scope, k: Key) {
    exists r :: r in rows && Matches(r, scope) && KeyOf(r, scope.order) == k
  }

  lemma {:induction false} StableRowShown(states: seq<seq<Row>>, scope: Scope, limit: int, cursor: Option<Cursor>, k: Key)
    requires 1 <= limit <= 200 && (cursor.Some? ==> cursor.value.scope == scope) && AllDistinct(states)
    requires (forall i :: 0 <= i < |states| ==> Present(states[i], scope, k)) && Past(cursor, k, scope.order)
    requires Browse(states, scope, limit, cursor).finished
    ensures exists r :: r in Browse(states, scope, limit, cursor).rows && KeyOf(r, scope.order) == k
  {
    PageRows(states[0], scope, limit, cursor);
    var page := FilesPage(states[0], scope, limit, cursor).value;
    assert Present(states[0], scope, k);
    var r :| r in states[0] && Matches(r, scope) && KeyOf(r, scope.order) == k;
    if r !in page.files {
      StableRowShown(states[1..], scope, limit, page.next, k);
      var q :| q in Browse(states[1..], scope, limit, page.next).rows && KeyOf(q, scope.order) == k;
      assert q in Browse(states, scope, limit, cursor).rows;
    }
  }

  // Every row that stays present with an unchanged key and still matches is shown exactly once.
  lemma StableRowsShownOnce(states: seq<seq<Row>>, scope: Scope, limit: int, k: Key)
    requires 1 <= limit <= 200 && AllDistinct(states) && Browse(states, scope, limit, None).finished
    requires forall i :: 0 <= i < |states| ==> Present(states[i], scope, k)
    ensures var shown := Browse(states, scope, limit, None).rows;
            exists i :: && 0 <= i < |shown| && KeyOf(shown[i], scope.order) == k
                        && forall j :: 0 <= j < |shown| && j != i ==> KeyOf(shown[j], scope.order) != k
  {
    StableRowShown(states, scope, limit, None, k);
    BrowseAscending(states, scope, limit, None);
    var shown := Browse(states, scope, limit, None).rows;
    var r :| r in shown && KeyOf(r, scope.order) == k;
    var i :| 0 <= i < |shown| && shown[i] == r;
    BeforeIrreflexive(k, scope.order);
    forall j | 0 <= j < |shown| && j != i ensures KeyOf(shown[j], scope.order) != k {
    }
  }

  // ---- Files that do not change ----

  lemma {:induction false} BeyondSuffix(sorted: seq<Row>, i: nat, order: Order)
    requires Ascending(sorted, order) && i < |sorted|
    ensures Beyond(sorted, KeyOf(sorted[i], order), order) == sorted[i + 1..]
    decreases |sorted|
  {
    var init, last := sorted[..|sorted| - 1], sorted[|sorted| - 1];
    var k := KeyOf(sorted[i], order);
    if i == |sorted| - 1 {
      BeforeIrreflexive(k, order);
      NothingBeyond(init, k, order);
    } else {
      BeyondSuffix(init, i, order);
      assert Before(k, KeyOf(last, order), order);
      assert init[i + 1..] + [last] == sorted[i + 1..];
    }
  }

  lemma {:induction false} NothingBeyond(sorted: seq<Row>, k: Key, order: Order)
    requires forall i :: 0 <= i < |sorted| ==> Before(KeyOf(sorted[i], order), k, order)
    ensures Beyond(sorted, k, order) == []
  {
    if sorted != [] {
      var last := KeyOf(sorted[|sorted| - 1], order);
      NothingBeyond(sorted[..|sorted| - 1], k, order);
      if Before(k, last, order) {
        BeforeTransitive(k, last, k, order);
        BeforeIrreflexive(k, order);
      }
    }
  }

  // The pages put together are the whole sorted selection.
  lemma PagesMakeTheList(states: seq<seq<Row>>, rows: seq<Row>, scope: Scope, limit: int, cursor: Option<Cursor>, start: nat)
    requires 1 <= limit <= 200 && (cursor.Some? ==> cursor.value.scope == scope) && DistinctIds(rows)
    requires forall i :: 0 <= i < |states| ==> states[i] == rows
    requires Browse(states, scope, limit, cursor).finished
    requires var all := SortRows(Selected(rows, scope), scope.order);
             start <= |all| && Remaining(rows, scope, cursor) == all[start..]
    ensures Browse(states, scope, limit, cursor).rows == SortRows(Selected(rows, scope), scope.order)[start..]
  {
    ListAscending(rows, scope);
    AllAreSame(states, rows);
    PagesFrom(states, rows, SortRows(Selected(rows, scope), scope.order), scope, limit, cursor, start);
  }

  predicate AllAre(states: seq<seq<Row>>, rows: seq<Row>) {
    states == [] || (states[0] == rows && AllAre(states[1..], rows))
  }

  lemma {:induction false} AllAreSame(states: seq<seq<Row>>, rows: seq<Row>)
    requires forall i :: 0 <= i < |states| ==> states[i] == rows
    ensures AllAre(states, rows)
  {
    if states != [] {
      assert states[0] == rows;
      AllAreSame(states[1..], rows);
    }
  }

  lemma {:induction false} PagesFrom(states: seq<seq<Row>>, rows: seq<Row>, all: seq<Row>, scope: Scope, limit: int,
                                     cursor: Option<Cursor>, start: nat)
    requires 1 <= limit <= 200 && (cursor.Some? ==> cursor.value.scope == scope) && AllAre(states, rows)
    requires Browse(states, scope, limit, cursor).finished
    requires all == SortRows(Selected(rows, scope), scope.order) && Ascending(all, scope.order)
    requires start <= |all| && Remaining(rows, scope, cursor) == all[start..]
    ensures Browse(states, scope, limit, cursor).rows == all[start..]
  {
    var next := Onward(all[start..], scope, limit);
    BrowseStep(states, scope, limit, cursor, all[start..]);
    if next.Some? {
      NextStretch(all, start, scope, limit);
      assert Remaining(rows, scope, next) == all[start + limit..];
      PagesFrom(states[1..], rows, all, scope, limit, next, start + limit);
    }
  }

  lemma BrowseStep(states: seq<seq<Row>>, scope: Scope, limit: int, cursor: Option<Cursor>, left: seq<Row>)
    requires 1 <= limit <= 200 && (cursor.Some? ==> cursor.value.scope == scope) && states != []
    requires Remaining(states[0], scope, cursor) == left
    ensures var shown, next := Browse(states, scope, limit, cursor), Onward(left, scope, limit);
            if next.None? then shown == Shown(Head(left, limit), true)
            else var rest := Browse(states[1..], scope, limit, next);
                 shown == Shown(Head(left, limit) + rest.rows, rest.finished)
  {
  }

  lemma ListAscending(rows: seq<Row>, scope: Scope)
    requires DistinctIds(rows)
    ensures Ascending(SortRows(Selected(rows, scope), scope.order), scope.order)
  {
    SelectedDistinct(rows, scope);
    SortAscending(Selected(rows, scope), scope.order);
  }

  lemma NextStretch(all: seq<Row>, start: nat, scope: Scope, limit: nat)
    requires 0 < limit < |all| - start && Ascending(all, scope.order)
    ensures Head(all[start..], limit) + all[start + limit..] == all[start..]
    ensures var next := Onward(all[start..], scope, limit);
            next.Some? && next.value.scope == scope && Beyond(all, next.value.key, scope.order) == all[start + limit..]
  {
    Stretch(all, start, limit);
    var last := start + limit - 1;
    BeyondSuffix(all, last, scope.order);
  }

  lemma Stretch<T>(all: seq<T>, start: nat, n: nat)
    requires 0 < n < |all| - start
    ensures all[start..][..n] + all[start + n..] == all[start..]
    ensures all[start..][n - 1] == all[start + n - 1] && |all[start..]| > n
  {
  }

  // ---- As loops ----

  method SelectRows(rows: seq<Row>, scope: Scope) returns (selected: seq<Row>)
    ensures selected == Selected(rows, scope)
  {
    selected := [];
    for i := 0 to |rows|
      invariant selected == Selected(rows[..i], scope)
    {
      assert rows[..i + 1][..i] == rows[..i] && rows[..i + 1][i] == rows[i];
      if Matches(rows[i], scope) {
        selected := selected + [rows[i]];
      }
    }
    assert rows[..|rows|] == rows;
  }

  lemma PlaceStep(sorted: seq<Row>, i: nat, r: Row, order: Order, later: seq<Row>)
    requires 0 < i <= |sorted| && Before(KeyOf(r, order), KeyOf(sorted[i - 1], order), order)
    ensures Insert(sorted[..i], r, order) + later == Insert(sorted[..i - 1], r, order) + ([sorted[i - 1]] + later)
  {
    InsertStep(sorted[..i], r, order);
    assert sorted[..i][..i - 1] == sorted[..i - 1];
    Associative(Insert(sorted[..i - 1], r, order), [sorted[i - 1]], later);
  }

  method PutInPlace(sorted: seq<Row>, r: Row, order: Order) returns (result: seq<Row>)
    ensures result == Insert(sorted, r, order)
  {
    var i := |sorted|;
    var later := [];
    assert sorted[..|sorted|] == sorted && Insert(sorted, r, order) + [] == Insert(sorted, r, order);
    while i > 0 && Before(KeyOf(r, order), KeyOf(sorted[i - 1], order), order)
      invariant 0 <= i <= |sorted| && later == sorted[i..]
      invariant Insert(sorted[..i], r, order) + later == Insert(sorted, r, order)
    {
      PlaceStep(sorted, i, r, order, later);
      i := i - 1;
      later := [sorted[i]] + later;
    }
    result := sorted[..i] + [r] + later;
  }

  lemma InsertStep(sorted: seq<Row>, r: Row, order: Order)
    requires sorted != [] && Before(KeyOf(r, order), KeyOf(sorted[|sorted| - 1], order), order)
    ensures Insert(sorted, r, order) == Insert(sorted[..|sorted| - 1], r, order) + [sorted[|sorted| - 1]]
  {
  }

  // `selected.sort(key=..., reverse=...)`
  method Sorted(rows: seq<Row>, order: Order) returns (sorted: seq<Row>)
    ensures sorted == SortRows(rows, order)
  {
    sorted := [];
    for i := 0 to |rows|
      invariant sorted == SortRows(rows[..i], order)
    {
      assert rows[..i + 1][..i] == rows[..i] && rows[..i + 1][i] == rows[i];
      sorted := PutInPlace(sorted, rows[i], order);
    }
    assert rows[..|rows|] == rows;
  }

  method RowsBeyond(sorted: seq<Row>, boundary: Key, order: Order) returns (left: seq<Row>)
    ensures left == Beyond(sorted, boundary, order)
  {
    left := [];
    for i := 0 to |sorted|
      invariant left == Beyond(sorted[..i], boundary, order)
    {
      assert sorted[..i + 1][..i] == sorted[..i] && sorted[..i + 1][i] == sorted[i];
      if Before(boundary, KeyOf(sorted[i], order), order) {
        left := left + [sorted[i]];
      }
    }
    assert sorted[..|sorted|] == sorted;
  }

  method ListFiles(rows: seq<Row>, scope: Scope, limit: int, cursor: Option<Cursor>) returns (result: Result<Page, string>)
    ensures result == FilesPage(rows, scope, limit, cursor)
  {
    if !(1 <= limit <= 200) {
      return Err("invalid_file_query");
    }
    var selected := SelectRows(rows, scope);
    var total := |selected|;
    selected := Sorted(selected, scope.order);
    if cursor.Some? {
      if cursor.value.scope != scope {
        return Err("invalid_file_cursor");
      }
      selected := RowsBeyond(selected, cursor.value.key, scope.order);
    }
    var page, next := FirstPage(selected, scope, limit);
    result := Ok(Page(page, total, next));
  }

  method FirstPage(left: seq<Row>, scope: Scope, limit: nat) returns (page: seq<Row>, next: Option<Cursor>)
    requires limit > 0
    ensures page == Head(left, limit) && next == Onward(left, scope, limit)
  {
    page, next := if limit < |left| then left[..limit] else left, None;
    if |left| > |page| && page != [] {
      var last := page[|page| - 1];
      assert last == left[limit - 1];
      next := Some(Cursor(scope, KeyOf(last, scope.order)));
    }
  }
}
