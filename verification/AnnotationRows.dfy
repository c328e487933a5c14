/** From the rows InfluxDB returns to annotations: one per id, the most recently modified. */
module AnnotationRows {
  import opened Collections
  import opened Wrappers

  datatype Annotation = Annotation(id: string, startTime: int, endTime: int, text: string, tags: map<string, string>)

  /** Tag keys that cannot be used by an annotation. */
  const BLACKLIST: set<string> := {
    "deleted", "start_time", "startTime", "end_time", "endTime", "modified_time_ns", "text", "type", "id"
  }

  datatype Json = Num(n: int) | Str(s: string) | Bool(b: bool) | Null

  datatype Series = Series(columns: seq<string>, values: seq<seq<Json>>)

  datatype Row = Row(columns: seq<string>, cells: seq<Json>)

  /** An annotation with the modification time it was stored at. */
  datatype Dated = Dated(anno: Annotation, modTime: int)

  // ---------- one row ----------

  /** The index of a column; of two columns with one name the later wins. */
  function IndexOf(columns: seq<string>, name: string): (r: Option<nat>)
    ensures r.Some? ==> r.value < |columns| && columns[r.value] == name
  {
    if columns == [] then None
    else if columns[|columns| - 1] == name then Some(|columns| - 1)
    else IndexOf(columns[..|columns| - 1], name)
  }

  function IntAt(r: Row, name: string): Option<int> {
    match IndexOf(r.columns, name)
    case None => None
    case Some(i) => if i < |r.cells| && r.cells[i].Num? then Some(r.cells[i].n) else None
  }

  function StringAt(r: Row, name: string): Option<string> {
    match IndexOf(r.columns, name)
    case None => None
    case Some(i) => if i < |r.cells| && r.cells[i].Str? then Some(r.cells[i].s) else None
  }

  /** The other columns that hold a string, as tags. */
  function TagsOf(reserved: set<string>, columns: seq<string>, cells: seq<Json>): map<string, string>
    requires |cells| <= |columns|
  {
    if cells == [] then map[]
    else
      var i := |cells| - 1;
      var before := TagsOf(reserved, columns, cells[..i]);
      if columns[i] !in reserved && cells[i].Str? then before[columns[i] := cells[i].s] else before
  }

  /** The source indexes the columns by the position of each cell. */
  predicate Fits(r: Row) {
    |r.cells| <= |r.columns|
  }

  function Decode(r: Row): Option<Dated>
    requires Fits(r)
  {
    var endTime, startTime, modTime := IntAt(r, "time"), IntAt(r, "start_time"), IntAt(r, "modified_time_ns");
    var text, id := StringAt(r, "text"), StringAt(r, "id");
    if endTime.None? || startTime.None? || modTime.None? || text.None? || id.None? then None
    else
      var tags := TagsOf(BLACKLIST, r.columns, r.cells);
      Some(Dated(Annotation(id.value, startTime.value, endTime.value, text.value, tags), modTime.value))
  }

  /** The last column of that name. */
  predicate LastColumn(columns: seq<string>, name: string, i: nat) {
    i < |columns| && columns[i] == name && forall j :: i < j < |columns| ==> columns[j] != name
  }

  lemma {:induction false} IndexIsLast(columns: seq<string>, name: string, i: nat)
    ensures LastColumn(columns, name, i) <==> IndexOf(columns, name) == Some(i)
    ensures name in columns <==> IndexOf(columns, name).Some?
  {
    if columns != [] {
      var init, last := columns[..|columns| - 1], columns[|columns| - 1];
      assert columns == init + [last];
      IndexIsLast(init, name, i);
      if last != name && i < |init| { assert LastColumn(columns, name, i) <==> LastColumn(init, name, i); }
    }
  }

  predicate LastColumns(columns: seq<string>, time: nat, start: nat, modified: nat, text: nat, id: nat) {
    && LastColumn(columns, "time", time) && LastColumn(columns, "start_time", start)
    && LastColumn(columns, "modified_time_ns", modified) && LastColumn(columns, "text", text)
    && LastColumn(columns, "id", id)
  }

  predicate Readable(r: Row, i: nat, number: bool) {
    i < |r.cells| && if number then r.cells[i].Num? else r.cells[i].Str?
  }

  /** A row is an annotation exactly when the last column of each of the five names has a cell of its kind;
      these cells are its times, its text and its id. */
  lemma DecodesExactly(r: Row, time: nat, start: nat, modified: nat, text: nat, id: nat)
    requires Fits(r)
    ensures Decode(r).Some? ==> "time" in r.columns && "start_time" in r.columns && "modified_time_ns" in r.columns
    ensures Decode(r).Some? ==> "text" in r.columns && "id" in r.columns
    ensures LastColumns(r.columns, time, start, modified, text, id) ==>
      && (Decode(r).Some? <==> Readable(r, time, true) && Readable(r, start, true) && Readable(r, modified, true)
                               && Readable(r, text, false) && Readable(r, id, false))
      && (Decode(r).Some? ==>
            var d := Decode(r).value;
            && d.anno.endTime == r.cells[time].n && d.anno.startTime == r.cells[start].n
            && d.modTime == r.cells[modified].n && d.anno.text == r.cells[text].s && d.anno.id == r.cells[id].s)
  {
    IndexIsLast(r.columns, "time", time);
    IndexIsLast(r.columns, "start_time", start);
    IndexIsLast(r.columns, "modified_time_ns", modified);
    IndexIsLast(r.columns, "text", text);
    IndexIsLast(r.columns, "id", id);
  }

  /** The tag columns of a name that hold a string. */
  predicate TagAt(reserved: set<string>, columns: seq<string>, cells: seq<Json>, tag: string, i: nat) {
    i < |cells| <= |columns| && columns[i] == tag && tag !in reserved && cells[i].Str?
  }

  ghost predicate LastTag(reserved: set<string>, columns: seq<string>, cells: seq<Json>, tag: string, i: nat) {
    && TagAt(reserved, columns, cells, tag, i)
    && forall j: nat :: TagAt(reserved, columns, cells, tag, j) ==> j <= i
  }

  /** The tags are what the last string cell of each column that is not reserved holds. */
  lemma {:induction false} TagsOfExactly(reserved: set<string>, columns: seq<string>, cells: seq<Json>, tag: string,
                                         i: nat)
    requires |cells| <= |columns|
    ensures var tags := TagsOf(reserved, columns, cells);
            && (LastTag(reserved, columns, cells, tag, i) ==> tag in tags && tags[tag] == cells[i].s)
            && (tag in tags ==> exists j: nat :: TagAt(reserved, columns, cells, tag, j))
  {
    if cells != [] {
      var n := |cells| - 1;
      var init := cells[..n];
      TagsOfExactly(reserved, columns, init, tag, i);
      forall j: nat | TagAt(reserved, columns, init, tag, j) ensures TagAt(reserved, columns, cells, tag, j) {}
      if TagAt(reserved, columns, cells, tag, n) {
        assert LastTag(reserved, columns, cells, tag, i) ==> i == n;
      } else if LastTag(reserved, columns, cells, tag, i) {
        assert i < n && LastTag(reserved, columns, init, tag, i);
      }
    }
  }

  method ColumnIndex(columns: seq<string>) returns (index: map<string, nat>)
    ensures forall name :: name in index <==> IndexOf(columns, name).Some?
    ensures forall name :: name in index ==> IndexOf(columns, name) == Some(index[name])
  {
    index := map[];
    for i := 0 to |columns|
      invariant forall name :: name in index <==> IndexOf(columns[..i], name).Some?
      invariant forall name :: name in index ==> IndexOf(columns[..i], name) == Some(index[name])
    {
      assert columns[..i + 1][..i] == columns[..i];
      index := index[columns[i] := i];
    }
    assert columns[..|columns|] == columns;
  }

  method CollectTags(r: Row) returns (tags: map<string, string>)
    requires Fits(r)
    ensures tags == TagsOf(BLACKLIST, r.columns, r.cells)
  {
    tags := map[];
    for i := 0 to |r.cells|
      invariant tags == TagsOf(BLACKLIST, r.columns, r.cells[..i])
    {
      assert r.cells[..i + 1][..i] == r.cells[..i];
      if r.columns[i] !in BLACKLIST && r.cells[i].Str? {
        tags := tags[r.columns[i] := r.cells[i].s];
      }
    }
    assert r.cells[..|r.cells|] == r.cells;
  }

  method ReadRow(r: Row, index: map<string, nat>) returns (d: Option<Dated>)
    requires Fits(r)
    requires forall name :: name in index <==> IndexOf(r.columns, name).Some?
    requires forall name :: name in index ==> IndexOf(r.columns, name) == Some(index[name])
    ensures d == Decode(r)
  {
    if "time" !in index || index["time"] >= |r.cells| || !r.cells[index["time"]].Num? { return None; }
    var endTime := r.cells[index["time"]].n;
    if "start_time" !in index || index["start_time"] >= |r.cells| || !r.cells[index["start_time"]].Num? { return None; }
    var startTime := r.cells[index["start_time"]].n;
    if "modified_time_ns" !in index || index["modified_time_ns"] >= |r.cells|
       || !r.cells[index["modified_time_ns"]].Num? { return None; }
    var modTime := r.cells[index["modified_time_ns"]].n;
    if "text" !in index || index["text"] >= |r.cells| || !r.cells[index["text"]].Str? { return None; }
    var text := r.cells[index["text"]].s;
    if "id" !in index || index["id"] >= |r.cells| || !r.cells[index["id"]].Str? { return None; }
    var id := r.cells[index["id"]].s;
    var tags := CollectTags(r);
    d := Some(Dated(Annotation(id, startTime, endTime, text, tags), modTime));
  }

  // ---------- the latest row of each id ----------

  /** A row replaces the one kept for its id when it is strictly newer. */
  function Keep(annos: map<string, Dated>, d: Dated): map<string, Dated> {
    if d.anno.id !in annos || d.modTime > annos[d.anno.id].modTime then annos[d.anno.id := d] else annos
  }

  function Latest(ds: seq<Dated>): map<string, Dated> {
    if ds == [] then map[] else Keep(Latest(ds[..|ds| - 1]), ds[|ds| - 1])
  }

  /** The newest of the rows for its id. */
  ghost predicate Newest(ds: seq<Dated>, d: Dated) {
    d in ds && forall e :: e in ds && e.anno.id == d.anno.id ==> e.modTime <= d.modTime
  }

  ghost predicate HasId(ds: seq<Dated>, id: string) {
    exists d :: d in ds && d.anno.id == id
  }

  lemma {:induction false} LatestIsNewest(ds: seq<Dated>, id: string)
    ensures id in Latest(ds) <==> HasId(ds, id)
    ensures id in Latest(ds) ==> Latest(ds)[id].anno.id == id && Newest(ds, Latest(ds)[id])
  {
    if ds != [] {
      var init, last := ds[..|ds| - 1], ds[|ds| - 1];
      assert ds == init + [last];
      LatestIsNewest(init, id);
      if HasId(init, id) {
        var d :| d in init && d.anno.id == id;
        assert d in ds;
      }
    }
  }

  /** Of the newest rows of an id the first is kept. */
  lemma {:induction false} LatestIsFirst(ds: seq<Dated>, id: string) returns (i: nat)
    requires id in Latest(ds)
    ensures i < |ds| && ds[i] == Latest(ds)[id] && ds[i].anno.id == id
    ensures forall j :: 0 <= j < |ds| && ds[j].anno.id == id ==>
      if j < i then ds[j].modTime < ds[i].modTime else ds[j].modTime <= ds[i].modTime
  {
    var init, last := ds[..|ds| - 1], ds[|ds| - 1];
    if last.anno.id == id && (id !in Latest(init) || last.modTime > Latest(init)[id].modTime) {
      i := |ds| - 1;
      if id in Latest(init) {
        var k := LatestIsFirst(init, id);
        forall j | 0 <= j < i && ds[j].anno.id == id ensures ds[j].modTime < last.modTime {
          assert init[j].modTime <= init[k].modTime;
        }
      } else {
        forall j | 0 <= j < i ensures ds[j].anno.id != id {
          LatestIsNewest(init, id);
          assert init[j] in init;
        }
      }
    } else {
      i := LatestIsFirst(init, id);
      forall j | 0 <= j < |ds| - 1 ensures ds[j] == init[j] {}
    }
  }

  // ---------- all rows ----------

  function RowsOf(s: Series): (rows: seq<Row>)
    ensures |rows| == |s.values| && forall i :: 0 <= i < |rows| ==> rows[i] == Row(s.columns, s.values[i])
  {
    seq(|s.values|, i requires 0 <= i < |s.values| => Row(s.columns, s.values[i]))
  }

  function RowsIn(series: seq<Series>): seq<Row> {
    if series == [] then [] else RowsOf(series[0]) + RowsIn(series[1..])
  }

  function AllRows(results: seq<seq<Series>>): seq<Row> {
    if results == [] then [] else RowsIn(results[0]) + AllRows(results[1..])
  }

  predicate AllFit(rows: seq<Row>) {
    forall i :: 0 <= i < |rows| ==> Fits(rows[i])
  }

  predicate Decodes(r: Row) {
    Fits(r) && Decode(r).Some?
  }

  predicate AllDecode(rows: seq<Row>) {
    forall i :: 0 <= i < |rows| ==> Decodes(rows[i])
  }

  function DecodeAll(rows: seq<Row>): (ds: seq<Dated>)
    requires AllDecode(rows)
    ensures |ds| == |rows| && forall i :: 0 <= i < |ds| ==> Decode(rows[i]) == Some(ds[i])
  {
    seq(|rows|, i requires 0 <= i < |rows| => DatedOf(rows[i]))
  }

  function DatedOf(r: Row): (d: Dated)
    requires Decodes(r)
    ensures Decode(r) == Some(d)
  {
    Decode(r).value
  }

  lemma DecodeAllStep(rows: seq<Row>)
    requires rows != [] && AllDecode(rows) && AllDecode(rows[1..])
    ensures DecodeAll(rows) == [DatedOf(rows[0])] + DecodeAll(rows[1..])
  {
    var all, more := DecodeAll(rows), DecodeAll(rows[1..]);
    forall i | 1 <= i < |rows| ensures all[i] == more[i - 1] { assert rows[i] == rows[1..][i - 1]; }
  }

  /** The map after the rows, None as soon as one cannot be read. */
  function Collect(annos: map<string, Dated>, rows: seq<Row>): Option<map<string, Dated>>
    requires AllFit(rows)
    decreases |rows|
  {
    if rows == [] then Some(annos)
    else
      match Decode(rows[0])
      case None => None
      case Some(d) => Collect(Keep(annos, d), rows[1..])
  }

  lemma {:induction false} CollectConcat(annos: map<string, Dated>, a: seq<Row>, b: seq<Row>)
    requires AllFit(a) && AllFit(b)
    ensures AllFit(a + b)
    ensures Collect(annos, a + b) == if Collect(annos, a).None? then None else Collect(Collect(annos, a).value, b)
    decreases |a|
  {
    if a == [] {
      assert a + b == b;
    } else {
      assert (a + b)[1..] == a[1..] + b;
      if Decode(a[0]).Some? { CollectConcat(Keep(annos, Decode(a[0]).value), a[1..], b); }
    }
  }

  lemma {:induction false} CollectIsLatest(ds: seq<Dated>, rows: seq<Row>)
    requires AllFit(rows)
    ensures Collect(Latest(ds), rows) == if AllDecode(rows) then Some(Latest(ds + DecodeAll(rows))) else None
    decreases |rows|
  {
    if rows == [] {
      assert ds + DecodeAll(rows) == ds;
    } else if Decode(rows[0]).Some? {
      var d := Decode(rows[0]).value;
      assert (ds + [d])[..|ds|] == ds;
      CollectIsLatest(ds + [d], rows[1..]);
      DecodeFirst(rows);
      if AllDecode(rows[1..]) {
        DecodeAllStep(rows);
        Reassociate(ds, d, DecodeAll(rows[1..]));
      }
    }
  }

  lemma Reassociate(a: seq<Dated>, d: Dated, b: seq<Dated>)
    ensures a + [d] + b == a + ([d] + b)
  {
  }

  lemma DecodeFirst(rows: seq<Row>)
    requires rows != []
    ensures AllDecode(rows) <==> Decodes(rows[0]) && AllDecode(rows[1..])
  {
    if Decodes(rows[0]) && AllDecode(rows[1..]) {
      forall k | 0 <= k < |rows| ensures Decodes(rows[k]) { if k > 0 { assert Decodes(rows[1..][k - 1]); } }
    }
    if AllDecode(rows) {
      forall k | 0 <= k < |rows[1..]| ensures Decodes(rows[1..][k]) { assert Decodes(rows[k + 1]); }
    }
  }

  ghost predicate IsNewest(ds: seq<Dated>, anno: Annotation) {
    exists d :: Newest(ds, d) && d.anno == anno
  }

  /** Exactly one annotation per id among the rows, each the most recently modified of its id. */
  ghost predicate OnePerId(ds: seq<Dated>, annos: seq<Annotation>) {
    && (forall i, j :: 0 <= i < j < |annos| ==> annos[i].id != annos[j].id)
    && (forall i :: 0 <= i < |annos| ==> IsNewest(ds, annos[i]))
    && (forall id :: HasId(ds, id) ==> exists i :: 0 <= i < |annos| && annos[i].id == id)
  }

  method CollectSeries(annos: map<string, Dated>, s: Series) returns (r: Option<map<string, Dated>>)
    requires AllFit(RowsOf(s))
    ensures r == Collect(annos, RowsOf(s))
  {
    var kept := annos;
    var index := ColumnIndex(s.columns);
    ghost var rows := RowsOf(s);
    for i := 0 to |s.values|
      invariant Collect(annos, rows) == Collect(kept, rows[i..])
    {
      var row := Row(s.columns, s.values[i]);
      assert rows[i..][0] == row && rows[i..][1..] == rows[i + 1..];
      var d := ReadRow(row, index);
      if d.None? {
        return None;
      }
      if d.value.anno.id !in kept || d.value.modTime > kept[d.value.anno.id].modTime {
        kept := kept[d.value.anno.id := d.value];
      }
    }
    r := Some(kept);
  }

  method CollectResult(annos: map<string, Dated>, series: seq<Series>) returns (r: Option<map<string, Dated>>)
    requires AllFit(RowsIn(series))
    ensures r == Collect(annos, RowsIn(series))
  {
    var kept := annos;
    for i := 0 to |series|
      invariant AllFit(RowsIn(series[i..]))
      invariant Collect(annos, RowsIn(series)) == Collect(kept, RowsIn(series[i..]))
    {
      ghost var first, rest := RowsOf(series[i]), RowsIn(series[i + 1..]);
      assert series[i..][1..] == series[i + 1..];
      assert RowsIn(series[i..]) == first + rest;
      FitParts(first, rest);
      CollectConcat(kept, first, rest);
      var more := CollectSeries(kept, series[i]);
      if more.None? {
        return None;
      }
      kept := more.value;
    }
    r := Some(kept);
  }

  lemma FitParts(a: seq<Row>, b: seq<Row>)
    requires AllFit(a + b)
    ensures AllFit(a) && AllFit(b)
  {
    forall i | 0 <= i < |a| ensures Fits(a[i]) { assert Fits((a + b)[i]); }
    forall i | 0 <= i < |b| ensures Fits(b[i]) { assert Fits((a + b)[|a| + i]); }
  }

  /** influxResults.Annotations. The source then sorts the entries with a comparison that is not an
      ordering, so only the entries are promised and not their order. */
  method Annotations(results: seq<seq<Series>>) returns (r: Result<seq<Annotation>, string>)
    requires AllFit(AllRows(results))
    ensures r.Ok? <==> AllDecode(AllRows(results))
    ensures r.Ok? ==> OnePerId(DecodeAll(AllRows(results)), r.value)
  {
    CollectIsLatest([], AllRows(results));
    var kept: map<string, Dated> := map[];
    for i := 0 to |results|
      invariant AllFit(AllRows(results[i..]))
      invariant Collect(map[], AllRows(results)) == Collect(kept, AllRows(results[i..]))
    {
      ghost var first, rest := RowsIn(results[i]), AllRows(results[i + 1..]);
      assert results[i..][1..] == results[i + 1..];
      assert AllRows(results[i..]) == first + rest;
      FitParts(first, rest);
      CollectConcat(kept, first, rest);
      var more := CollectResult(kept, results[i]);
      if more.None? {
        return Err("annotation row cannot be read");
      }
      kept := more.value;
    }
    ghost var ds := DecodeAll(AllRows(results));
    assert [] + ds == ds;
    var annotations := Entries(kept, ds);
    r := Ok(annotations);
  }

  method Entries(annos: map<string, Dated>, ghost ds: seq<Dated>) returns (res: seq<Annotation>)
    requires annos == Latest(ds)
    ensures OnePerId(ds, res)
  {
    res := [];
    var todo := annos.Keys;
    LatestIds(ds);
    while todo != {}
      invariant todo <= annos.Keys
      invariant Lists(IdOf, Undated(annos), annos.Keys - todo, res)
    {
      var id :| id in todo;
      ListsMore(IdOf, Undated(annos), annos.Keys - todo, res, id);
      assert annos.Keys - (todo - {id}) == annos.Keys - todo + {id};
      res := res + [annos[id].anno];
      todo := todo - {id};
    }
    assert annos.Keys - todo == annos.Keys;
    ListedIsOnePerId(annos, ds, res);
  }

  function Undated(annos: map<string, Dated>): map<string, Annotation> {
    map id | id in annos :: annos[id].anno
  }

  function IdOf(anno: Annotation): string {
    anno.id
  }

  lemma LatestIds(ds: seq<Dated>)
    ensures forall id :: id in Latest(ds) ==> Latest(ds)[id].anno.id == id
  {
    forall id | id in Latest(ds) ensures Latest(ds)[id].anno.id == id { LatestIsNewest(ds, id); }
  }

  lemma ListedIsOnePerId(annos: map<string, Dated>, ds: seq<Dated>, res: seq<Annotation>)
    requires annos == Latest(ds) && Lists(IdOf, Undated(annos), annos.Keys, res)
    ensures OnePerId(ds, res)
  {
    forall i | 0 <= i < |res| ensures IsNewest(ds, res[i]) {
      ListedAt(IdOf, Undated(annos), annos.Keys, res, i);
      LatestIsNewest(ds, res[i].id);
      assert Newest(ds, annos[res[i].id]) && annos[res[i].id].anno == res[i];
    }
    forall id | HasId(ds, id) ensures exists i :: 0 <= i < |res| && res[i].id == id {
      LatestIsNewest(ds, id);
      assert id in annos.Keys;
    }
  }
}
