// The workspace file index, a log of JSON lines behind a last-wins view (storage/index.py, lines 85-251).
module FileIndex {
  import opened Prelude

  type Bytes = seq<bv8>

  // SHA-256 is taken to be injective: a digest is the bytes it was computed from. `Text` covers
  // whatever else a record may carry in its `sha256` field, the empty string included.
  datatype Digest = Sha256(of: Bytes) | Text(text: string)

  datatype Lifecycle = Active | SoftDeleted | Archived | Purged | Deleted

  datatype FileRecord = FileRecord(
    id: string,
    workspace: string,
    logicalType: string,
    fileKind: string,
    path: string,
    name: string,
    mime: string,
    binary: bool,
    size: nat,
    sha: Digest,
    createdAt: int,
    source: string,
    sensitivity: string,
    lifecycle: Lifecycle,
    metadata: map<string, string>)

  // One physical line: empty, not JSON, JSON but not an object, or a record.
  datatype Line = Blank | Malformed(text: string) | Scalar(text: string) | Entry(record: FileRecord)

  // The fields that callers of `update_file_record` change; never the id.
  datatype Patch = Patch(
    path: Option<string>,
    size: Option<nat>,
    sha: Option<Digest>,
    lifecycle: Option<Lifecycle>,
    metadata: Option<map<string, string>>)

  function Amend(r: FileRecord, p: Patch): FileRecord {
    r.(path := if p.path.Some? then p.path.value else r.path,
       size := if p.size.Some? then p.size.value else r.size,
       sha := if p.sha.Some? then p.sha.value else r.sha,
       lifecycle := if p.lifecycle.Some? then p.lifecycle.value else r.lifecycle,
       metadata := if p.metadata.Some? then p.metadata.value else r.metadata)
  }

  // ---- The abstract index: records with distinct ids, the most recently appended last ----

  function Without(view: seq<FileRecord>, id: string): seq<FileRecord> {
    if view == [] then []
    else
      var last := view[|view| - 1];
      var before := Without(view[..|view| - 1], id);
      if last.id == id then before else before + [last]
  }

  function Amended(view: seq<FileRecord>, id: string, p: Patch): seq<FileRecord> {
    if view == [] then []
    else
      var last := view[|view| - 1];
      Amended(view[..|view| - 1], id, p) + [if last.id == id then Amend(last, p) else last]
  }

  function Retained(view: seq<FileRecord>): seq<FileRecord> {
    if view == [] then []
    else
      var last := view[|view| - 1];
      var before := Retained(view[..|view| - 1]);
      if last.lifecycle == Deleted then before else before + [last]
  }

  predicate Holds(view: seq<FileRecord>, id: string) {
    exists r :: r in view && r.id == id
  }

  // What `read_file_records` shows of a log: the last line of each id, in line order.
  function View(lines: seq<Line>): seq<FileRecord> {
    if lines == [] then []
    else
      var before := View(lines[..|lines| - 1]);
      var last := lines[|lines| - 1];
      if last.Entry? && last.record.id != "" then Without(before, last.record.id) + [last.record] else before
  }

  // Every reader calls `.get` on each parsed line, so one JSON line that is not an object fails them all.
  predicate Readable(lines: seq<Line>) {
    forall l :: l in lines ==> !l.Scalar?
  }

  ghost predicate Distinct(view: seq<FileRecord>) {
    forall i, j :: 0 <= i < j < |view| ==> view[i].id != view[j].id
  }

  lemma {:induction false} WithoutMember(view: seq<FileRecord>, id: string, r: FileRecord)
    ensures r in Without(view, id) <==> r in view && r.id != id
  {
    if view != [] {
      WithoutMember(view[..|view| - 1], id, r);
      assert view == view[..|view| - 1] + [view[|view| - 1]];
    }
  }

  lemma HoldsInit(view: seq<FileRecord>, id: string)
    requires view != [] && !Holds(view, id)
    ensures !Holds(view[..|view| - 1], id) && view[|view| - 1].id != id
  {
    assert view[|view| - 1] in view;
    forall r | r in view[..|view| - 1] ensures r in view {
    }
  }

  lemma {:induction false} WithoutAbsent(view: seq<FileRecord>, id: string)
    requires !Holds(view, id)
    ensures Without(view, id) == view
  {
    if view != [] {
      HoldsInit(view, id);
      WithoutAbsent(view[..|view| - 1], id);
    }
  }

  lemma WithoutAppend(view: seq<FileRecord>, r: FileRecord, id: string)
    ensures Without(view + [r], id) == if r.id == id then Without(view, id) else Without(view, id) + [r]
  {
    assert (view + [r])[..|view|] == view;
  }

  lemma AmendedAppend(view: seq<FileRecord>, r: FileRecord, id: string, p: Patch)
    ensures Amended(view + [r], id, p) == Amended(view, id, p) + [if r.id == id then Amend(r, p) else r]
  {
    assert (view + [r])[..|view|] == view;
  }

  lemma {:induction false} WithoutCommutes(view: seq<FileRecord>, a: string, b: string)
    ensures Without(Without(view, a), b) == Without(Without(view, b), a)
  {
    if view != [] {
      var init, last := view[..|view| - 1], view[|view| - 1];
      WithoutCommutes(init, a, b);
      if last.id != a { WithoutAppend(Without(init, a), last, b); }
      if last.id != b { WithoutAppend(Without(init, b), last, a); }
    }
  }

  lemma {:induction false} WithoutAmended(view: seq<FileRecord>, a: string, id: string, p: Patch)
    ensures Without(Amended(view, id, p), a) == Amended(Without(view, a), id, p)
  {
    if view != [] {
      var init, last := view[..|view| - 1], view[|view| - 1];
      WithoutAmended(init, a, id, p);
      WithoutAppend(Amended(init, id, p), if last.id == id then Amend(last, p) else last, a);
      if last.id != a { AmendedAppend(Without(init, a), last, id, p); }
    }
  }

  lemma {:induction false} ViewDistinct(lines: seq<Line>)
    ensures Distinct(View(lines)) && forall r :: r in View(lines) ==> r.id != ""
  {
    if lines != [] {
      var before := View(lines[..|lines| - 1]);
      ViewDistinct(lines[..|lines| - 1]);
      if lines[|lines| - 1].Entry? && lines[|lines| - 1].record.id != "" {
        var r := lines[|lines| - 1].record;
        WithoutDistinct(before, r.id);
        forall q | q in Without(before, r.id) ensures q in before && q.id != r.id {
          WithoutMember(before, r.id, q);
        }
      }
    }
  }

  lemma {:induction false} WithoutDistinct(view: seq<FileRecord>, id: string)
    requires Distinct(view)
    ensures Distinct(Without(view, id))
  {
    if view != [] {
      var init, last := view[..|view| - 1], view[|view| - 1];
      WithoutDistinct(init, id);
      forall q | q in Without(init, id) ensures q.id != last.id {
        WithoutMember(init, id, q);
      }
    }
  }

  // ---- Rewriting lines ----

  lemma ViewAppend(lines: seq<Line>, l: Line)
    ensures View(lines + [l])
         == if l.Entry? && l.record.id != "" then Without(View(lines), l.record.id) + [l.record] else View(lines)
  {
    assert (lines + [l])[..|lines|] == lines;
  }

  // Loop bodies of update and delete, over the whole log: blank lines go, unparsable ones stay.
  function UpdateLines(lines: seq<Line>, id: string, p: Patch): seq<Line> {
    if lines == [] then []
    else
      var before := UpdateLines(lines[..|lines| - 1], id, p);
      var last := lines[|lines| - 1];
      if last.Blank? then before
      else if last.Entry? && last.record.id == id then before + [Entry(Amend(last.record, p))]
      else before + [last]
  }

  function DeleteLines(lines: seq<Line>, id: string): seq<Line> {
    if lines == [] then []
    else
      var before := DeleteLines(lines[..|lines| - 1], id);
      var last := lines[|lines| - 1];
      if last.Blank? || (last.Entry? && last.record.id == id) then before else before + [last]
  }

  function EntryLines(view: seq<FileRecord>): (lines: seq<Line>)
    ensures |lines| == |view| && forall i :: 0 <= i < |view| ==> lines[i] == Entry(view[i])
  {
    seq(|view|, i requires 0 <= i < |view| => Entry(view[i]))
  }

  predicate Mentions(lines: seq<Line>, id: string) {
    exists l :: l in lines && l.Entry? && l.record.id == id
  }

  lemma {:induction false} ViewUpdate(lines: seq<Line>, id: string, p: Patch)
    ensures View(UpdateLines(lines, id, p)) == Amended(View(lines), id, p)
  {
    if lines != [] {
      var init, last := lines[..|lines| - 1], lines[|lines| - 1];
      ViewUpdate(init, id, p);
      var before := UpdateLines(init, id, p);
      if last.Entry? {
        var r := last.record;
        ViewAppend(before, Entry(if r.id == id then Amend(r, p) else r));
        if r.id != "" {
          WithoutAmended(View(init), r.id, id, p);
          AmendedAppend(Without(View(init), r.id), r, id, p);
        }
      } else if !last.Blank? {
        ViewAppend(before, last);
      }
    }
  }

  lemma {:induction false} ViewDelete(lines: seq<Line>, id: string)
    ensures View(DeleteLines(lines, id)) == Without(View(lines), id)
  {
    if lines != [] {
      var init, last := lines[..|lines| - 1], lines[|lines| - 1];
      ViewDelete(init, id);
      var before := DeleteLines(init, id);
      if last.Entry? && last.record.id == id {
        WithoutTwice(View(init), id);
        WithoutAppend(Without(View(init), id), last.record, id);
      } else if last.Entry? {
        var r := last.record;
        ViewAppend(before, last);
        if r.id != "" {
          WithoutCommutes(View(init), r.id, id);
          WithoutAppend(Without(View(init), r.id), r, id);
        }
      } else if !last.Blank? {
        ViewAppend(before, last);
      }
    }
  }

  lemma WithoutTwice(view: seq<FileRecord>, id: string)
    ensures Without(Without(view, id), id) == Without(view, id)
  {
    forall r | r in Without(view, id) ensures r.id != id {
      WithoutMember(view, id, r);
    }
    WithoutAbsent(Without(view, id), id);
  }

  lemma {:induction false} ViewOfEntries(view: seq<FileRecord>)
    requires Distinct(view) && forall r :: r in view ==> r.id != ""
    ensures View(EntryLines(view)) == view
  {
    if view != [] {
      var init, last := view[..|view| - 1], view[|view| - 1];
      assert last in view && forall r :: r in init ==> r in view;
      ViewOfEntries(init);
      EntryLinesAppend(init, last);
      assert view == init + [last];
      ViewAppend(EntryLines(init), Entry(last));
      NotAmong(init, last);
      WithoutAbsent(init, last.id);
    }
  }

  lemma EntryLinesAppend(view: seq<FileRecord>, r: FileRecord)
    ensures EntryLines(view + [r]) == EntryLines(view) + [Entry(r)]
  {
  }

  lemma NotAmong(view: seq<FileRecord>, r: FileRecord)
    requires Distinct(view + [r])
    ensures !Holds(view, r.id)
  {
    if q :| q in view && q.id == r.id {
      var i :| 0 <= i < |view| && view[i] == q;
      assert (view + [r])[i] == q && (view + [r])[|view|] == r;
    }
  }

  lemma {:induction false} RetainedMember(view: seq<FileRecord>, r: FileRecord)
    ensures r in Retained(view) <==> r in view && r.lifecycle != Deleted
  {
    if view != [] {
      RetainedMember(view[..|view| - 1], r);
      assert view == view[..|view| - 1] + [view[|view| - 1]];
    }
  }

  lemma {:induction false} RetainedDistinct(view: seq<FileRecord>)
    requires Distinct(view)
    ensures Distinct(Retained(view))
  {
    if view != [] {
      var init, last := view[..|view| - 1], view[|view| - 1];
      RetainedDistinct(init);
      forall q | q in Retained(init) ensures q.id != last.id {
        RetainedMember(init, q);
      }
    }
  }

  lemma {:induction false} MentionsIsHolds(lines: seq<Line>, id: string)
    requires id != ""
    ensures Mentions(lines, id) <==> Holds(View(lines), id)
  {
    if lines != [] {
      var init, last := lines[..|lines| - 1], lines[|lines| - 1];
      MentionsIsHolds(init, id);
      assert lines == init + [last];
      assert Mentions(lines, id) <==> Mentions(init, id) || (last.Entry? && last.record.id == id);
      if last.Entry? && last.record.id != "" {
        HoldsAfterAppend(View(init), last.record, id);
      }
    }
  }

  lemma HoldsAfterAppend(view: seq<FileRecord>, r: FileRecord, id: string)
    ensures Holds(Without(view, r.id) + [r], id) <==> Holds(view, id) || r.id == id
  {
    var after := Without(view, r.id) + [r];
    if r.id == id {
      assert after[|after| - 1] == r;
    } else {
      if q :| q in view && q.id == id {
        WithoutMember(view, r.id, q);
        assert q in after;
      }
      if q :| q in after && q.id == id {
        WithoutMember(view, r.id, q);
      }
    }
  }

  // ---- Whole operations on the log ----

  datatype IndexOp =
    | AppendOp(record: FileRecord)
    | UpdateOp(id: string, patch: Patch)
    | DeleteOp(id: string)
    | CompactOp

  // The file's lines after an operation that did not fail; reading a rewritten file back shows one
  // more, empty, line.
  function LinesAfter(lines: seq<Line>, op: IndexOp): seq<Line> {
    match op
    case AppendOp(r) => lines + [Entry(r)] + [Blank]
    case UpdateOp(id, p) => if Mentions(lines, id) then UpdateLines(lines, id, p) + [Blank] else lines
    case DeleteOp(id) => if Mentions(lines, id) then DeleteLines(lines, id) + [Blank] else lines
    case CompactOp => EntryLines(Retained(View(lines))) + [Blank]
  }

  // The same operation on the ordered view: an append moves its id to the end, the others keep the order.
  function ViewAfter(view: seq<FileRecord>, op: IndexOp): seq<FileRecord> {
    match op
    case AppendOp(r) => if r.id == "" then view else Without(view, r.id) + [r]
    case UpdateOp(id, p) => Amended(view, id, p)
    case DeleteOp(id) => Without(view, id)
    case CompactOp => Retained(view)
  }

  function AsMap(view: seq<FileRecord>): map<string, FileRecord> {
    if view == [] then map[] else AsMap(view[..|view| - 1])[view[|view| - 1].id := view[|view| - 1]]
  }

  // The same operation on a map from id to record.
  function MapAfter(m: map<string, FileRecord>, op: IndexOp): map<string, FileRecord> {
    match op
    case AppendOp(r) => if r.id == "" then m else m[r.id := r]
    case UpdateOp(id, p) => if id in m then m[id := Amend(m[id], p)] else m
    case DeleteOp(id) => m - {id}
    case CompactOp => map id | id in m && m[id].lifecycle != Deleted :: m[id]
  }

  function AllLinesAfter(lines: seq<Line>, ops: seq<IndexOp>): seq<Line> {
    if ops == [] then lines else LinesAfter(AllLinesAfter(lines, ops[..|ops| - 1]), ops[|ops| - 1])
  }

  function AllViewAfter(view: seq<FileRecord>, ops: seq<IndexOp>): seq<FileRecord> {
    if ops == [] then view else ViewAfter(AllViewAfter(view, ops[..|ops| - 1]), ops[|ops| - 1])
  }

  function AllMapAfter(m: map<string, FileRecord>, ops: seq<IndexOp>): map<string, FileRecord> {
    if ops == [] then m else MapAfter(AllMapAfter(m, ops[..|ops| - 1]), ops[|ops| - 1])
  }

  lemma {:induction false} AsMapMember(view: seq<FileRecord>, r: FileRecord)
    requires Distinct(view)
    ensures r in view <==> r.id in AsMap(view) && AsMap(view)[r.id] == r
    ensures Holds(view, r.id) <==> r.id in AsMap(view)
  {
    if view != [] {
      var init, last := view[..|view| - 1], view[|view| - 1];
      AsMapMember(init, r);
      assert view == init + [last];
      assert Holds(view, r.id) <==> Holds(init, r.id) || last.id == r.id;
      if r in init { assert r.id != last.id; }
    }
  }

  lemma {:induction false} AsMapKeys(view: seq<FileRecord>, id: string)
    ensures id in AsMap(view) ==> AsMap(view)[id].id == id
  {
    if view != [] {
      AsMapKeys(view[..|view| - 1], id);
    }
  }

  lemma AsMapAppend(view: seq<FileRecord>, r: FileRecord)
    ensures AsMap(view + [r]) == AsMap(view)[r.id := r]
  {
    assert (view + [r])[..|view|] == view;
  }

  lemma LastIsNew(view: seq<FileRecord>)
    requires Distinct(view) && view != []
    ensures view[|view| - 1].id !in AsMap(view[..|view| - 1])
  {
    var init, last := view[..|view| - 1], view[|view| - 1];
    if last.id in AsMap(init) {
      AsMapKeys(init, last.id);
      AsMapMember(init, AsMap(init)[last.id]);
    }
  }

  lemma {:induction false} AsMapWithout(view: seq<FileRecord>, id: string)
    requires Distinct(view)
    ensures AsMap(Without(view, id)) == AsMap(view) - {id}
  {
    if view != [] {
      var init, last := view[..|view| - 1], view[|view| - 1];
      AsMapWithout(init, id);
      UpdateThenRemove(AsMap(init), last.id, last, id);
      AsMapAppend(Without(init, id), last);
    }
  }

  lemma UpdateThenRemove<K, V>(m: map<K, V>, k: K, v: V, gone: K)
    ensures m[k := v] - {gone} == if k == gone then m - {gone} else (m - {gone})[k := v]
  {
  }

  lemma {:induction false} AsMapAmended(view: seq<FileRecord>, id: string, p: Patch)
    requires Distinct(view)
    ensures AsMap(Amended(view, id, p)) == MapAfter(AsMap(view), UpdateOp(id, p))
  {
    if view != [] {
      var init, last := view[..|view| - 1], view[|view| - 1];
      AsMapAmended(init, id, p);
      LastIsNew(view);
      AmendExtend(AsMap(init), last, id, p);
      AsMapAppend(Amended(init, id, p), if last.id == id then Amend(last, p) else last);
    }
  }

  lemma {:induction false} AsMapRetained(view: seq<FileRecord>)
    requires Distinct(view)
    ensures AsMap(Retained(view)) == MapAfter(AsMap(view), CompactOp)
  {
    if view != [] {
      var init, last := view[..|view| - 1], view[|view| - 1];
      AsMapRetained(init);
      LastIsNew(view);
      RetainedExtend(AsMap(init), last);
      AsMapAppend(Retained(init), last);
    }
  }

  lemma AmendExtend(m: map<string, FileRecord>, r: FileRecord, id: string, p: Patch)
    requires r.id !in m
    ensures MapAfter(m[r.id := r], UpdateOp(id, p))
         == MapAfter(m, UpdateOp(id, p))[r.id := if r.id == id then Amend(r, p) else r]
  {
  }

  lemma RetainedExtend(m: map<string, FileRecord>, r: FileRecord)
    requires r.id !in m
    ensures MapAfter(m[r.id := r], CompactOp)
         == if r.lifecycle == Deleted then MapAfter(m, CompactOp) else MapAfter(m, CompactOp)[r.id := r]
  {
  }

  // ---- The log refines the view, order included, and the view the map ----

  lemma AppendRefinesView(lines: seq<Line>, r: FileRecord)
    ensures View(lines + [Entry(r)] + [Blank]) == ViewAfter(View(lines), AppendOp(r))
  {
    ViewAppend(lines, Entry(r));
    ViewAppend(lines + [Entry(r)], Blank);
  }

  lemma UpdateRefinesView(lines: seq<Line>, id: string, p: Patch)
    ensures View(UpdateLines(lines, id, p) + [Blank]) == ViewAfter(View(lines), UpdateOp(id, p))
  {
    ViewUpdate(lines, id, p);
    ViewAppend(UpdateLines(lines, id, p), Blank);
  }

  lemma DeleteRefinesView(lines: seq<Line>, id: string)
    ensures View(DeleteLines(lines, id) + [Blank]) == ViewAfter(View(lines), DeleteOp(id))
  {
    ViewDelete(lines, id);
    ViewAppend(DeleteLines(lines, id), Blank);
  }

  lemma CompactRefinesView(lines: seq<Line>)
    ensures View(EntryLines(Retained(View(lines))) + [Blank]) == ViewAfter(View(lines), CompactOp)
  {
    var kept := Retained(View(lines));
    ViewDistinct(lines);
    RetainedDistinct(View(lines));
    forall r | r in kept ensures r.id != "" {
      RetainedMember(View(lines), r);
    }
    ViewOfEntries(kept);
    ViewAppend(EntryLines(kept), Blank);
  }

  lemma RemoveThenUpdate<K, V>(m: map<K, V>, k: K, v: V)
    ensures (m - {k})[k := v] == m[k := v]
  {
  }

  lemma ViewRefinesMap(view: seq<FileRecord>, op: IndexOp)
    requires Distinct(view)
    ensures AsMap(ViewAfter(view, op)) == MapAfter(AsMap(view), op)
  {
    match op
    case AppendOp(r) =>
      AsMapWithout(view, r.id);
      AsMapAppend(Without(view, r.id), r);
      RemoveThenUpdate(AsMap(view), r.id, r);
    case UpdateOp(id, p) =>
      AsMapAmended(view, id, p);
    case DeleteOp(id) =>
      AsMapWithout(view, id);
    case CompactOp =>
      AsMapRetained(view);
  }

  // A log that does not mention an id shows none under it.
  lemma UnmentionedView(lines: seq<Line>, op: IndexOp)
    requires (op.UpdateOp? || op.DeleteOp?) && !Mentions(lines, op.id)
    ensures ViewAfter(View(lines), op) == View(lines)
  {
    ViewDistinct(lines);
    if op.id != "" {
      MentionsIsHolds(lines, op.id);
    }
    WithoutAbsent(View(lines), op.id);
    if op.UpdateOp? {
      AmendedAbsent(View(lines), op.id, op.patch);
    }
  }

  lemma {:induction false} AmendedAbsent(view: seq<FileRecord>, id: string, p: Patch)
    requires !Holds(view, id)
    ensures Amended(view, id, p) == view
  {
    if view != [] {
      HoldsInit(view, id);
      AmendedAbsent(view[..|view| - 1], id, p);
    }
  }

  // One operation on the log is that operation on the view, and on the map; the log stays readable.
  lemma OperationRefines(lines: seq<Line>, op: IndexOp)
    requires Readable(lines)
    ensures Readable(LinesAfter(lines, op))
    ensures View(LinesAfter(lines, op)) == ViewAfter(View(lines), op)
    ensures AsMap(View(LinesAfter(lines, op))) == MapAfter(AsMap(View(lines)), op)
  {
    StaysReadable(lines, op);
    ViewDistinct(lines);
    ViewRefinesMap(View(lines), op);
    match op
    case AppendOp(r) =>
      AppendRefinesView(lines, r);
    case UpdateOp(id, p) =>
      UpdateRefinesView(lines, id, p);
      if !Mentions(lines, id) {
        UnmentionedView(lines, op);
      }
    case DeleteOp(id) =>
      DeleteRefinesView(lines, id);
      if !Mentions(lines, id) {
        UnmentionedView(lines, op);
      }
    case CompactOp =>
      CompactRefinesView(lines);
  }

  lemma StaysReadable(lines: seq<Line>, op: IndexOp)
    requires Readable(lines)
    ensures Readable(LinesAfter(lines, op))
  {
    match op
    case AppendOp(r) =>
    case UpdateOp(id, p) =>
      UpdateKeepsReadable(lines, id, p);
    case DeleteOp(id) =>
      DeleteKeepsReadable(lines, id);
    case CompactOp =>
  }

  lemma {:induction false} UpdateKeepsReadable(lines: seq<Line>, id: string, p: Patch)
    requires Readable(lines)
    ensures Readable(UpdateLines(lines, id, p))
  {
    if lines != [] {
      assert lines == lines[..|lines| - 1] + [lines[|lines| - 1]];
      UpdateKeepsReadable(lines[..|lines| - 1], id, p);
    }
  }

  lemma {:induction false} DeleteKeepsReadable(lines: seq<Line>, id: string)
    requires Readable(lines)
    ensures Readable(DeleteLines(lines, id))
  {
    if lines != [] {
      assert lines == lines[..|lines| - 1] + [lines[|lines| - 1]];
      DeleteKeepsReadable(lines[..|lines| - 1], id);
    }
  }

  // Any sequence of operations on the log is the same sequence on the view, in last-write order, and on the map.
  lemma {:induction false} LogRefinesMap(lines: seq<Line>, ops: seq<IndexOp>)
    requires Readable(lines)
    ensures Readable(AllLinesAfter(lines, ops))
    ensures View(AllLinesAfter(lines, ops)) == AllViewAfter(View(lines), ops)
    ensures AsMap(View(AllLinesAfter(lines, ops))) == AllMapAfter(AsMap(View(lines)), ops)
  {
    if ops != [] {
      var init := ops[..|ops| - 1];
      LogRefinesMap(lines, init);
      OperationRefines(AllLinesAfter(lines, init), ops[|ops| - 1]);
    }
  }

  // ---- The index file ----

  datatype Summary = Summary(before: nat, after: nat, removed: int, duplicates: int)

  function NonBlank(lines: seq<Line>): nat {
    if lines == [] then 0
    else NonBlank(lines[..|lines| - 1]) + (if lines[|lines| - 1].Blank? then 0 else 1)
  }

  class IndexFile {
    var present: bool
    var lines: seq<Line>

    ghost predicate Valid()
      reads this
    {
      !present ==> lines == []
    }

    constructor ()
      ensures Valid() && !present
    {
      present, lines := false, [];
    }

    // Replacing the file; reading it back shows one more, empty, line.
    method WriteLines(content: seq<Line>)
      modifies this
      ensures present && lines == content + [Blank]
    {
      present := true;
      lines := content + [Blank];
    }

    method Append(r: FileRecord)
      requires Valid()
      modifies this
      ensures present && lines == LinesAfter(old(lines), AppendOp(r))
    {
      WriteLines(lines + [Entry(r)]);
    }

    method ReadRecords() returns (result: Result<seq<FileRecord>, string>)
      requires Valid()
      ensures result == if Readable(lines) then Ok(View(lines)) else Err("AttributeError")
    {
      if !present {
        return Ok([]);
      }
      var records := [];
      for i := 0 to |lines|
        invariant Readable(lines[..i]) && records == Parsed(lines[..i])
      {
        assert lines[..i + 1] == lines[..i] + [lines[i]];
        if lines[i].Scalar? {
          assert lines[i] in lines;
          return Err("AttributeError");
        }
        ParsedAppend(lines[..i], lines[i]);
        if lines[i].Entry? {
          records := records + [lines[i].record];
        }
      }
      assert lines[..|lines|] == lines;
      var kept := KeepLast(records);
      ParsedView(lines);
      result := Ok(kept);
    }

    method Update(id: string, p: Patch) returns (result: Result<bool, string>)
      requires Valid()
      modifies this
      ensures Valid()
      ensures result == if Readable(old(lines)) then Ok(Mentions(old(lines), id)) else Err("AttributeError")
      ensures lines == if Readable(old(lines)) then LinesAfter(old(lines), UpdateOp(id, p)) else old(lines)
    {
      if !present {
        return Ok(false);
      }
      var updated, found := [], false;
      for i := 0 to |lines|
        invariant lines == old(lines) && present
        invariant Readable(lines[..i]) && updated == UpdateLines(lines[..i], id, p)
        invariant found == Mentions(lines[..i], id)
      {
        assert lines[..i + 1] == lines[..i] + [lines[i]];
        assert lines[..i + 1][..i] == lines[..i];
        if lines[i].Scalar? {
          assert lines[i] in lines;
          return Err("AttributeError");
        } else if lines[i].Malformed? {
          updated := updated + [lines[i]];
        } else if lines[i].Entry? {
          var r := lines[i].record;
          if r.id == id {
            found := true;
          }
          updated := updated + [if r.id == id then Entry(Amend(r, p)) else lines[i]];
        }
      }
      assert lines[..|lines|] == lines;
      if found {
        WriteLines(updated);
      }
      result := Ok(found);
    }

    method Delete(id: string) returns (result: Result<bool, string>)
      requires Valid()
      modifies this
      ensures Valid()
      ensures result == if Readable(old(lines)) then Ok(Mentions(old(lines), id)) else Err("AttributeError")
      ensures lines == if Readable(old(lines)) then LinesAfter(old(lines), DeleteOp(id)) else old(lines)
    {
      if !present {
        return Ok(false);
      }
      var kept, found := [], false;
      for i := 0 to |lines|
        invariant lines == old(lines) && present
        invariant Readable(lines[..i]) && kept == DeleteLines(lines[..i], id)
        invariant found == Mentions(lines[..i], id)
      {
        assert lines[..i + 1] == lines[..i] + [lines[i]];
        assert lines[..i + 1][..i] == lines[..i];
        if lines[i].Scalar? {
          assert lines[i] in lines;
          return Err("AttributeError");
        } else if lines[i].Malformed? {
          kept := kept + [lines[i]];
        } else if lines[i].Entry? {
          if lines[i].record.id == id {
            found := true;
          } else {
            kept := kept + [lines[i]];
          }
        }
      }
      assert lines[..|lines|] == lines;
      if found {
        WriteLines(kept);
      }
      result := Ok(found);
    }

    method Compact() returns (result: Result<Summary, string>)
      requires Valid()
      modifies this
      ensures Valid()
      ensures present && Readable(old(lines)) ==>
                && lines == LinesAfter(old(lines), CompactOp)
                && result == Ok(Summary(NonBlank(old(lines)), |Retained(View(old(lines)))|,
                                        NonBlank(old(lines)) - |Retained(View(old(lines)))|,
                                        NonBlank(old(lines)) - |View(old(lines))|))
      ensures !(present && Readable(old(lines))) ==> lines == old(lines)
      ensures present && !Readable(old(lines)) ==> result.Err?
    {
      if !present {
        return Ok(Summary(0, 0, 0, 0));
      }
      var read := ReadRecords();
      if read.Err? {
        return Err(read.error);
      }
      var records := read.value;
      var before := CountNonBlank(lines);
      var kept := KeepRetained(records);
      WriteLines(kept);
      result := Ok(Summary(before, |kept|, before - |kept|, before - |records|));
    }
  }

  method CountNonBlank(lines: seq<Line>) returns (n: nat)
    ensures n == NonBlank(lines)
  {
    n := 0;
    for i := 0 to |lines|
      invariant n == NonBlank(lines[..i])
    {
      assert lines[..i + 1][..i] == lines[..i];
      n := n + (if lines[i].Blank? then 0 else 1);
    }
    assert lines[..|lines|] == lines;
  }

  // The entries compaction writes back.
  method KeepRetained(records: seq<FileRecord>) returns (kept: seq<Line>)
    ensures kept == EntryLines(Retained(records))
  {
    kept := [];
    for i := 0 to |records|
      invariant kept == EntryLines(Retained(records[..i]))
    {
      assert records[..i + 1][..i] == records[..i];
      if records[i].lifecycle != Deleted {
        kept := kept + [Entry(records[i])];
      }
    }
    assert records[..|records|] == records;
  }

  function Parsed(lines: seq<Line>): seq<FileRecord> {
    if lines == [] then []
    else
      var before := Parsed(lines[..|lines| - 1]);
      if lines[|lines| - 1].Entry? then before + [lines[|lines| - 1].record] else before
  }

  lemma ParsedAppend(lines: seq<Line>, l: Line)
    ensures Parsed(lines + [l]) == if l.Entry? then Parsed(lines) + [l.record] else Parsed(lines)
  {
    assert (lines + [l])[..|lines|] == lines;
  }

  function LastOf(records: seq<FileRecord>): seq<FileRecord> {
    if records == [] then []
    else
      var last := records[|records| - 1];
      var before := LastOf(records[..|records| - 1]);
      if last.id == "" then before else Without(before, last.id) + [last]
  }

  lemma {:induction false} ParsedView(lines: seq<Line>)
    ensures View(lines) == LastOf(Parsed(lines))
  {
    if lines != [] {
      ParsedView(lines[..|lines| - 1]);
      if lines[|lines| - 1].Entry? {
        assert Parsed(lines)[..|Parsed(lines)| - 1] == Parsed(lines[..|lines| - 1]);
      }
    }
  }

  // ---- Keeping the last record of each id ----

  // Record i is the last of its id.
  predicate IsLast(records: seq<FileRecord>, i: nat)
    requires i < |records|
  {
    records[i].id != "" && forall j :: i < j < |records| ==> records[j].id != records[i].id
  }

  function Pick(records: seq<FileRecord>, upto: nat): seq<FileRecord>
    requires upto <= |records|
  {
    if upto == 0 then []
    else if IsLast(records, upto - 1) then Pick(records, upto - 1) + [records[upto - 1]]
    else Pick(records, upto - 1)
  }

  lemma IsLastExtended(records: seq<FileRecord>, r: FileRecord, i: nat)
    requires i < |records|
    ensures IsLast(records + [r], i) <==> IsLast(records, i) && records[i].id != r.id
  {
    var all := records + [r];
    assert all[|records|] == r && all[i] == records[i];
    assert forall j :: 0 <= j < |records| ==> all[j] == records[j];
  }

  // A record without an id changes nothing.
  lemma {:induction false} PickSame(records: seq<FileRecord>, r: FileRecord, upto: nat)
    requires upto <= |records| && r.id == ""
    ensures Pick(records + [r], upto) == Pick(records, upto)
  {
    if upto > 0 {
      PickSame(records, r, upto - 1);
      IsLastExtended(records, r, upto - 1);
      assert (records + [r])[upto - 1] == records[upto - 1];
    }
  }

  // Any other takes its id over from what was picked before.
  lemma {:induction false} PickGrows(records: seq<FileRecord>, r: FileRecord, upto: nat)
    requires upto <= |records|
    ensures Pick(records + [r], upto) == if r.id == "" then Pick(records, upto) else Without(Pick(records, upto), r.id)
  {
    if r.id == "" {
      PickSame(records, r, upto);
    } else if upto > 0 {
      PickGrows(records, r, upto - 1);
      PickNext(records, r, upto);
    }
  }

  lemma PickNext(records: seq<FileRecord>, r: FileRecord, upto: nat)
    requires 0 < upto <= |records| && r.id != ""
    requires Pick(records + [r], upto - 1) == Without(Pick(records, upto - 1), r.id)
    ensures Pick(records + [r], upto) == Without(Pick(records, upto), r.id)
  {
    var all, q := records + [r], records[upto - 1];
    assert all[upto - 1] == q;
    IsLastExtended(records, r, upto - 1);
    OneMorePicked(Pick(records, upto - 1), q, r.id, IsLast(records, upto - 1));
    assert Pick(all, upto) == (if IsLast(all, upto - 1) then Pick(all, upto - 1) + [q] else Pick(all, upto - 1));
  }

  lemma OneMorePicked(before: seq<FileRecord>, q: FileRecord, id: string, last: bool)
    ensures Without(if last then before + [q] else before, id)
         == if last && q.id != id then Without(before, id) + [q] else Without(before, id)
  {
    WithoutAppend(before, q, id);
  }

  lemma {:induction false} PickIsLastOf(records: seq<FileRecord>)
    ensures Pick(records, |records|) == LastOf(records)
  {
    if records != [] {
      var init, last := records[..|records| - 1], records[|records| - 1];
      PickIsLastOf(init);
      assert records == init + [last];
      PickGrows(init, last, |init|);
    }
  }

  // Two passes: where each id occurs last, then the records at those places.
  method KeepLast(records: seq<FileRecord>) returns (kept: seq<FileRecord>)
    ensures kept == LastOf(records)
  {
    var seen: map<string, nat> := map[];
    for i := 0 to |records|
      invariant forall id :: id in seen ==> id != "" && seen[id] < i && records[seen[id]].id == id
      invariant forall id :: id in seen ==> forall j :: seen[id] < j < i ==> records[j].id != id
      invariant forall j :: 0 <= j < i && records[j].id != "" ==> records[j].id in seen
    {
      if records[i].id != "" {
        seen := seen[records[i].id := i];
      }
    }
    kept := [];
    for i := 0 to |records|
      invariant kept == Pick(records, i)
    {
      assert (records[i].id in seen && seen[records[i].id] == i) <==> IsLast(records, i);
      if records[i].id in seen && seen[records[i].id] == i {
        kept := kept + [records[i]];
      }
    }
    PickIsLastOf(records);
  }
}
