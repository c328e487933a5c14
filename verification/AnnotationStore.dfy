/** Mutable annotations kept as InfluxDB points: a point is addressed by its tag set and its time,
    writing the same address replaces it, and a deletion is a point marked deleted. */
module AnnotationStore {
  import opened Collections
  import opened Wrappers
  import opened AnnotationRows
  import LineProtocol
  import Text

  datatype Key = Key(tags: map<string, string>, time: int)

  datatype Stored = Stored(deleted: bool, startTime: int, modified: int, text: string)

  type Points = map<Key, Stored>

  // ---------- points ----------

  function NonEmpty(tags: map<string, string>): map<string, string> {
    map tag | tag in tags && tags[tag] != "" :: tags[tag]
  }

  function Tagged(anno: Annotation): map<string, string> {
    map["id" := anno.id] + anno.tags
  }

  /** Where the server stores a written annotation: the line protocol drops tags without a value, and
      leaves out a zero time, for which the server takes the time the line arrives. */
  function KeyOf(anno: Annotation, arrival: int): Key {
    Key(NonEmpty(Tagged(anno)), if anno.endTime == 0 then arrival else anno.endTime)
  }

  function PutLive(points: Points, anno: Annotation, now: int, arrival: int): Points {
    points[KeyOf(anno, arrival) := Stored(false, anno.startTime, now, anno.text)]
  }

  function PutDeleted(points: Points, anno: Annotation, now: int, arrival: int): Points {
    points[KeyOf(anno, arrival) := Stored(true, 0, now, "")]
  }

  /** The annotation a stored point is read back as. */
  function Decoded(key: Key, s: Stored): Dated {
    var id := if "id" in key.tags then key.tags["id"] else "";
    Dated(Annotation(id, s.startTime, key.time, s.text, key.tags - BLACKLIST), s.modified)
  }

  /** AnnotationTags.Valid, and the one further name that InfluxDB refuses as a tag. */
  predicate ValidTags(tags: map<string, string>) {
    forall tag :: tag in tags ==> tag !in BLACKLIST && tag != "time"
  }

  predicate WellFormed(points: Points) {
    forall key :: key in points ==>
      && key.time != 0 && "id" in key.tags && ValidTags(key.tags - {"id"})
      && forall tag :: tag in key.tags ==> key.tags[tag] != ""
  }

  /** Every write had its own modification time, none after the last. */
  predicate Clocked(points: Points, last: int) {
    && (forall key :: key in points ==> points[key].modified <= last)
    && (forall k, l :: k in points && l in points && points[k].modified == points[l].modified ==> k == l)
  }

  predicate Live(points: Points, id: string, key: Key) {
    key in points && !points[key].deleted && "id" in key.tags && key.tags["id"] == id
  }

  ghost predicate NewestLive(points: Points, id: string, key: Key) {
    && Live(points, id, key)
    && forall other :: Live(points, id, other) ==> points[other].modified <= points[key].modified
  }

  ghost predicate Gone(points: Points, id: string) {
    forall key :: !Live(points, id, key)
  }

  /** Get finds exactly this annotation. */
  ghost predicate Finds(points: Points, anno: Annotation) {
    && (exists key :: Live(points, anno.id, key))
    && (forall key :: NewestLive(points, anno.id, key) ==> Decoded(key, points[key]).anno == anno)
  }

  // ---------- what a written annotation is read back as ----------

  /** What survives being written: a time, and tags with values and without reserved names. */
  predicate Storable(anno: Annotation) {
    && anno.endTime != 0
    && forall tag :: tag in anno.tags ==> tag !in BLACKLIST && anno.tags[tag] != ""
  }

  /** A written annotation reads back as itself exactly when it is storable. */
  lemma ReadsBackExactly(anno: Annotation, now: int, arrival: int)
    requires arrival != 0 && anno.id != ""
    ensures Decoded(KeyOf(anno, arrival), Stored(false, anno.startTime, now, anno.text)).anno == anno
        <==> Storable(anno)
  {
    var key := KeyOf(anno, arrival);
    if Storable(anno) {
      assert key.tags - BLACKLIST == anno.tags;
    } else if anno.endTime != 0 {
      var tag :| tag in anno.tags && (tag in BLACKLIST || anno.tags[tag] == "");
      assert tag !in key.tags - BLACKLIST;
    }
  }

  /** Of the tags of a stored annotation nine reserved names are never read back, and any other name with a
      value is. */
  lemma ReservedAreDropped(anno: Annotation, s: Stored, arrival: int, tag: string)
    ensures var reserved :=
              ["deleted", "start_time", "startTime", "end_time", "endTime", "modified_time_ns", "text", "type", "id"];
            var tags := Decoded(KeyOf(anno, arrival), s).anno.tags;
            && (tag in tags <==> tag in anno.tags && anno.tags[tag] != "" && tag !in reserved)
            && (tag in tags ==> tags[tag] == anno.tags[tag])
  {
  }

  lemma KeyOfDecoded(points: Points, key: Key, arrival: int)
    requires WellFormed(points) && key in points
    ensures KeyOf(Decoded(key, points[key]).anno, arrival) == key
  {
    var anno := Decoded(key, points[key]).anno;
    assert forall tag :: tag in key.tags - {"id"} ==> tag in key.tags && tag !in BLACKLIST;
    assert Tagged(anno) == key.tags;
    assert NonEmpty(key.tags) == key.tags;
  }

  lemma PutWellFormed(points: Points, anno: Annotation, s: Stored, arrival: int)
    requires WellFormed(points) && arrival != 0 && anno.id != "" && ValidTags(anno.tags)
    ensures WellFormed(points[KeyOf(anno, arrival) := s])
  {
    var key := KeyOf(anno, arrival);
    assert "id" in key.tags;
    forall tag | tag in key.tags - {"id"} ensures tag !in BLACKLIST && tag != "time" { assert tag in anno.tags; }
  }

  // ---------- the query behind Get ----------

  /** The cell of a row under a column of this name. */
  function CellOf(key: Key, s: Stored, name: string): Json {
    if name == "time" then Num(key.time)
    else if name == "deleted" then Bool(s.deleted)
    else if name == "start_time" then Num(s.startTime)
    else if name == "modified_time_ns" then Num(s.modified)
    else if name == "text" then Str(s.text)
    else if name in key.tags then Str(key.tags[name])
    else Null
  }

  function CellsIn(key: Key, s: Stored, columns: seq<string>): (r: seq<Json>)
    ensures |r| == |columns| && forall i :: 0 <= i < |r| ==> r[i] == CellOf(key, s, columns[i])
  {
    seq(|columns|, i requires 0 <= i < |columns| => CellOf(key, s, columns[i]))
  }

  /** The columns of a SELECT *, in the order the server chooses: the fields that are read, and every
      tag of a row. */
  ghost predicate GoodColumns(order: seq<Key>, columns: seq<string>) {
    && Distinct(columns)
    && FieldsIn(columns)
    && forall i :: 0 <= i < |order| ==> TagsIn(order[i], columns)
  }

  predicate FieldsIn(columns: seq<string>) {
    "time" in columns && "start_time" in columns && "modified_time_ns" in columns && "text" in columns
  }

  /** Every tag has a column, and none takes the name of the time column. */
  predicate TagsIn(key: Key, columns: seq<string>) {
    "time" !in key.tags && forall tag :: tag in key.tags ==> tag in columns
  }

  function Table(points: Points, order: seq<Key>, columns: seq<string>): Series
    requires forall i :: 0 <= i < |order| ==> order[i] in points
  {
    Series(columns, seq(|order|, i requires 0 <= i < |order| => CellsIn(order[i], points[order[i]], columns)))
  }

  /** What InfluxDB answers to the query of Get: the points that carry the id and are not deleted, in
      some order, as the rows of one series with its columns in some order; no series when there are
      no such points. */
  ghost predicate Answers(points: Points, id: string, response: seq<seq<Series>>) {
    exists order: seq<Key>, columns: seq<string> :: AnswersAs(points, id, response, order, columns)
  }

  ghost predicate AnswersAs(points: Points, id: string, response: seq<seq<Series>>, order: seq<Key>,
                            columns: seq<string>) {
    && (forall i :: 0 <= i < |order| ==> Live(points, id, order[i]))
    && (forall key :: Live(points, id, key) ==> key in order)
    && GoodColumns(order, columns)
    && response == [if order == [] then [] else [Table(points, order, columns)]]
  }

  /** The two column orders of the samples in backend/influx/annotations_test.go:301-345. */
  lemma SampleColumns(order: seq<Key>)
    requires forall i :: 0 <= i < |order| ==> order[i].tags.Keys == {"id"}
    ensures GoodColumns(order, ["time", "deleted", "id", "modified_time_ns", "start_time", "text"])
    ensures GoodColumns(order, ["time", "start_time", "modified_time_ns", "text", "id"])
  {
    var first := ["time", "deleted", "id", "modified_time_ns", "start_time", "text"];
    var second := ["time", "start_time", "modified_time_ns", "text", "id"];
    assert first[0] == second[0] == "time" && first[2] == second[4] == "id" && first[3] == second[2];
    assert first[4] == second[1] && first[5] == second[3] == "text";
    assert "time"[0] == 't' && "time"[1] == 'i' && "text"[1] == 'e';
  }

  lemma {:induction false} IndexOfDistinct(columns: seq<string>, i: nat)
    requires Distinct(columns) && i < |columns|
    ensures IndexOf(columns, columns[i]) == Some(i)
  {
    if i < |columns| - 1 {
      var init := columns[..|columns| - 1];
      assert init[i] == columns[i];
      IndexOfDistinct(init, i);
    }
  }

  /** The tags of a row under the given columns. */
  function TagsUnder(key: Key, reserved: set<string>, columns: seq<string>): map<string, string> {
    map tag | tag in key.tags && tag in columns && tag !in reserved :: key.tags[tag]
  }

  lemma TagsUnderStep(key: Key, reserved: set<string>, columns: seq<string>, name: string)
    ensures TagsUnder(key, reserved, columns + [name])
         == if name in key.tags && name !in reserved then TagsUnder(key, reserved, columns)[name := key.tags[name]]
            else TagsUnder(key, reserved, columns)
  {
  }

  lemma TagsOfStep(reserved: set<string>, columns: seq<string>, cells: seq<Json>, n: nat)
    requires n < |cells| <= |columns|
    ensures TagsOf(reserved, columns, cells[..n + 1])
         == var before := TagsOf(reserved, columns, cells[..n]);
            if columns[n] !in reserved && cells[n].Str? then before[columns[n] := cells[n].s] else before
  {
    assert cells[..n + 1][..n] == cells[..n];
  }

  /** Outside the reserved names, the cells that hold a string are those of the tags. */
  lemma CellIsTag(key: Key, s: Stored, name: string)
    requires "time" !in key.tags && name !in BLACKLIST
    ensures CellOf(key, s, name).Str? <==> name in key.tags
    ensures name in key.tags ==> CellOf(key, s, name) == Str(key.tags[name])
  {
  }

  lemma {:induction false} TagsOfCells(key: Key, s: Stored, columns: seq<string>, n: nat)
    requires n <= |columns| && "time" !in key.tags
    ensures TagsOf(BLACKLIST, columns, CellsIn(key, s, columns)[..n]) == TagsUnder(key, BLACKLIST, columns[..n])
  {
    var cells := CellsIn(key, s, columns);
    if n == 0 {
      assert cells[..n] == [];
    } else {
      TagsOfCells(key, s, columns, n - 1);
      if columns[n - 1] !in BLACKLIST { CellIsTag(key, s, columns[n - 1]); }
      TagsOfCell(key, BLACKLIST, columns, cells, n - 1);
    }
  }

  /** One more cell. */
  lemma TagsOfCell(key: Key, reserved: set<string>, columns: seq<string>, cells: seq<Json>, n: nat)
    requires n < |columns| == |cells|
    requires columns[n] !in reserved ==> (cells[n].Str? <==> columns[n] in key.tags)
    requires columns[n] !in reserved && columns[n] in key.tags ==> cells[n] == Str(key.tags[columns[n]])
    requires TagsOf(reserved, columns, cells[..n]) == TagsUnder(key, reserved, columns[..n])
    ensures TagsOf(reserved, columns, cells[..n + 1]) == TagsUnder(key, reserved, columns[..n + 1])
  {
    TagsOfStep(reserved, columns, cells, n);
    TagsUnderStep(key, reserved, columns[..n], columns[n]);
    assert columns[..n + 1] == columns[..n] + [columns[n]];
  }

  lemma TagsOfRow(key: Key, s: Stored, columns: seq<string>)
    requires TagsIn(key, columns)
    ensures TagsOf(BLACKLIST, columns, CellsIn(key, s, columns)) == key.tags - BLACKLIST
  {
    var cells := CellsIn(key, s, columns);
    TagsOfCells(key, s, columns, |columns|);
    assert cells[..|columns|] == cells && columns[..|columns|] == columns;
    AllTags(key, BLACKLIST, columns);
  }

  lemma AllTags(key: Key, reserved: set<string>, columns: seq<string>)
    requires forall tag :: tag in key.tags ==> tag in columns
    ensures TagsUnder(key, reserved, columns) == key.tags - reserved
  {
  }

  /** A row is read back as its point, whatever the order of the columns. */
  lemma RowDecodes(key: Key, s: Stored, columns: seq<string>)
    requires Distinct(columns) && FieldsIn(columns) && TagsIn(key, columns) && "id" in key.tags
    ensures Decode(Row(columns, CellsIn(key, s, columns))) == Some(Decoded(key, s))
  {
    FieldCells(key, s, columns);
    CellAt(key, s, columns, "id");
    TagsOfRow(key, s, columns);
  }

  lemma FieldCells(key: Key, s: Stored, columns: seq<string>)
    requires Distinct(columns) && FieldsIn(columns)
    ensures var row := Row(columns, CellsIn(key, s, columns));
            && IntAt(row, "time") == Some(key.time) && IntAt(row, "modified_time_ns") == Some(s.modified)
            && IntAt(row, "start_time") == Some(s.startTime) && StringAt(row, "text") == Some(s.text)
  {
    CellAt(key, s, columns, "time");
    CellAt(key, s, columns, "modified_time_ns");
    CellAt(key, s, columns, "start_time");
    CellAt(key, s, columns, "text");
  }

  lemma CellAt(key: Key, s: Stored, columns: seq<string>, name: string)
    requires Distinct(columns) && name in columns
    ensures var row, cell := Row(columns, CellsIn(key, s, columns)), CellOf(key, s, name);
            && (cell.Num? ==> IntAt(row, name) == Some(cell.n))
            && (cell.Str? ==> StringAt(row, name) == Some(cell.s))
  {
    var i :| 0 <= i < |columns| && columns[i] == name;
    IndexOfDistinct(columns, i);
  }

  lemma AnswerDecodes(points: Points, id: string, response: seq<seq<Series>>, order: seq<Key>,
                      columns: seq<string>)
    requires AnswersAs(points, id, response, order, columns)
    ensures AllFit(AllRows(response)) && AllDecode(AllRows(response))
    ensures |DecodeAll(AllRows(response))| == |order|
    ensures forall i :: 0 <= i < |order| ==> DecodeAll(AllRows(response))[i] == Decoded(order[i], points[order[i]])
  {
    if order == [] {
      assert response == [[]] && AllRows(response[1..]) == [];
      assert RowsIn(response[0]) == [];
    } else {
      var table := Table(points, order, columns);
      SingleSeries(table);
      var rows := RowsOf(table);
      forall i | 0 <= i < |order|
        ensures Fits(rows[i]) && Decode(rows[i]) == Some(Decoded(order[i], points[order[i]]))
      {
        assert Live(points, id, order[i]) && TagsIn(order[i], columns);
        RowDecodes(order[i], points[order[i]], columns);
      }
    }
  }

  lemma SingleSeries(table: Series)
    ensures AllRows([[table]]) == RowsOf(table)
  {
    assert [[table]][1..] == [] && [table][1..] == [];
    assert RowsIn([table]) == RowsOf(table) + RowsIn([]) == RowsOf(table);
    assert AllRows([[table]]) == RowsIn([table]) + AllRows([]) == RowsIn([table]);
  }

  // ---------- the store ----------

  datatype Error = NotFound | WriteFailed

  /** What Get returns: the annotation of a newest live point. */
  ghost predicate GetResult(points: Points, id: string, r: Result<Annotation, Error>) {
    match r
    case Err(e) => e == NotFound && Gone(points, id)
    case Ok(anno) => exists key :: NewestLive(points, id, key) && Decoded(key, points[key]).anno == anno
  }

  /** The two writes of Update; the second, of the tombstone, can be lost. */
  function Updated(points: Points, cur: Annotation, anno: Annotation, now1: int, now2: int,
                   arrival: int, second: bool): Points {
    var written := PutLive(points, anno, now1, arrival);
    if cur.endTime != anno.endTime && second then PutDeleted(written, cur, now2, arrival) else written
  }

  lemma TombstoneValid(points: Points, key: Key, now: int, last: int)
    requires WellFormed(points) && Clocked(points, last) && key in points && now > last
    ensures WellFormed(points[key := Stored(true, 0, now, "")])
    ensures Clocked(points[key := Stored(true, 0, now, "")], now)
  {
  }

  /** Failed writes, the clock, the arrival times at the server and the server's answers are
      parameters of the operations. */
  class AnnotationStore {
    var points: Points
    var clock: int

    ghost predicate Valid()
      reads this
    {
      WellFormed(points) && Clocked(points, clock)
    }

    constructor ()
      ensures Valid() && points == map[]
    {
      points, clock := map[], 0;
    }

    method Get(id: string, response: seq<seq<Series>>) returns (r: Result<Annotation, Error>)
      requires Answers(points, id, response)
      ensures GetResult(points, id, r)
    {
      ghost var order, columns :| AnswersAs(points, id, response, order, columns);
      AnswerDecodes(points, id, response, order, columns);
      var found := Annotations(response);
      FoundIsNewest(points, id, response, order, columns, found.value);
      if |found.value| == 0 {
        return Err(NotFound);
      }
      r := Ok(found.value[0]);
    }

    method Add(anno: Annotation, newId: string, now: int, arrival: int, writes: bool)
      returns (r: Result<Annotation, Error>)
      requires Valid() && now > clock && arrival != 0 && newId != "" && ValidTags(anno.tags)
      modifies this
      ensures Valid() && clock == now
      ensures r == if writes then Ok(anno.(id := newId)) else Err(WriteFailed)
      ensures points == if writes then PutLive(old(points), anno.(id := newId), now, arrival) else old(points)
      ensures writes && Storable(anno) ==> Finds(points, anno.(id := newId))
      ensures writes ==> Step(old(points), AddCall(anno.(id := newId)), points)
    {
      var named := anno.(id := newId);
      clock := now;
      if !writes {
        return Err(WriteFailed);
      }
      PutWellFormed(points, named, Stored(false, named.startTime, now, named.text), arrival);
      PutFinds(points, named, now, arrival);
      points := PutLive(points, named, now, arrival);
      assert StepAt(old(points), AddCall(named), points, now, now, arrival);
      r := Ok(named);
    }

    method Delete(id: string, response: seq<seq<Series>>, now: int, arrival: int, writes: bool)
      returns (r: Option<Error>)
      requires Valid() && now > clock && arrival != 0 && Answers(points, id, response)
      modifies this
      ensures Valid() && clock == now
      ensures Gone(old(points), id) ==> r == Some(NotFound) && points == old(points)
      ensures !Gone(old(points), id) ==>
        exists key :: NewestLive(old(points), id, key)
          && r == (if writes then None else Some(WriteFailed))
          && points == if writes then old(points)[key := Stored(true, 0, now, "")] else old(points)
      ensures writes ==> Step(old(points), DeleteCall(id), points)
    {
      var cur := Get(id, response);
      clock := now;
      if cur.Err? {
        assert StepAt(points, DeleteCall(id), points, now, now, arrival);
        return Some(NotFound);
      }
      ghost var key :| NewestLive(points, id, key) && Decoded(key, points[key]).anno == cur.value;
      KeyOfDecoded(points, key, arrival);
      if !writes {
        return Some(WriteFailed);
      }
      TombstoneValid(points, key, now, old(clock));
      points := PutDeleted(points, cur.value, now, arrival);
      assert StepAt(old(points), DeleteCall(id), points, now, now, arrival);
      r := None;
    }

    /** Once its first write succeeds, Get finds the new annotation, whether or not the tombstone
        write is lost, and whatever the points were before. */
    method Update(anno: Annotation, response: seq<seq<Series>>, now1: int, now2: int, arrival: int,
                  first: bool, second: bool) returns (r: Option<Error>)
      requires Valid() && clock < now1 < now2 && arrival != 0 && ValidTags(anno.tags)
      requires Answers(points, anno.id, response)
      modifies this
      ensures Valid() && clock == now2
      ensures Gone(old(points), anno.id) ==> r == Some(NotFound)
      ensures Gone(old(points), anno.id) || !first ==> points == old(points)
      ensures !Gone(old(points), anno.id) && !first ==> r == Some(WriteFailed)
      ensures !Gone(old(points), anno.id) && first ==>
        exists key :: NewestLive(old(points), anno.id, key)
          && var cur := Decoded(key, old(points)[key]).anno;
             && points == Updated(old(points), cur, anno, now1, now2, arrival, second)
             && r == if cur.endTime != anno.endTime && !second then Some(WriteFailed) else None
      ensures !Gone(old(points), anno.id) && first && Storable(anno) ==> Finds(points, anno)
      ensures first && second ==> Step(old(points), UpdateCall(anno), points)
    {
      var cur := Get(anno.id, response);
      clock := now2;
      if cur.Err? {
        assert StepAt(points, UpdateCall(anno), points, now1, now2, arrival);
        return Some(NotFound);
      }
      ghost var key :| NewestLive(points, anno.id, key) && Decoded(key, points[key]).anno == cur.value;
      if !first {
        return Some(WriteFailed);
      }
      UpdateFinds(points, key, anno, now1, now2, arrival);
      UpdateClocked(points, old(clock), cur.value, anno, now1, now2, arrival, second);
      points := PutLive(points, anno, now1, arrival);
      r := None;
      if cur.value.endTime != anno.endTime {
        if second {
          points := PutDeleted(points, cur.value, now2, arrival);
        } else {
          r := Some(WriteFailed);
        }
      }
      assert points == Updated(old(points), cur.value, anno, now1, now2, arrival, second);
      assert second ==> StepAt(old(points), UpdateCall(anno), points, now1, now2, arrival);
    }
  }

  lemma FoundIsNewest(points: Points, id: string, response: seq<seq<Series>>, order: seq<Key>,
                      columns: seq<string>, found: seq<Annotation>)
    requires AnswersAs(points, id, response, order, columns)
    requires AllFit(AllRows(response)) && AllDecode(AllRows(response))
    requires OnePerId(DecodeAll(AllRows(response)), found)
    ensures if found == [] then Gone(points, id)
            else exists key :: NewestLive(points, id, key) && Decoded(key, points[key]).anno == found[0]
  {
    AnswerDecodes(points, id, response, order, columns);
    NewestOfRows(points, id, order, DecodeAll(AllRows(response)), found);
  }

  lemma NewestOfRows(points: Points, id: string, order: seq<Key>, ds: seq<Dated>, found: seq<Annotation>)
    requires forall i :: 0 <= i < |order| ==> Live(points, id, order[i])
    requires forall key :: Live(points, id, key) ==> key in order
    requires |ds| == |order|
    requires forall i :: 0 <= i < |ds| ==> Live(points, id, order[i]) && ds[i] == Decoded(order[i], points[order[i]])
    requires OnePerId(ds, found)
    ensures if found == [] then Gone(points, id)
            else exists key :: NewestLive(points, id, key) && Decoded(key, points[key]).anno == found[0]
  {
    if found == [] {
      forall key ensures !Live(points, id, key) {
        if key in order {
          var i :| 0 <= i < |order| && order[i] == key;
          assert Live(points, id, order[i]) && ds[i] in ds && ds[i].anno.id == id;
          assert HasId(ds, id);
        }
      }
    } else {
      assert IsNewest(ds, found[0]);
      var d :| Newest(ds, d) && d.anno == found[0];
      var i :| 0 <= i < |ds| && ds[i] == d;
      assert Live(points, id, order[i]);
      forall other | Live(points, id, other) ensures points[other].modified <= points[order[i]].modified {
        var j :| 0 <= j < |order| && order[j] == other;
        assert ds[j] in ds && ds[j].anno.id == id;
      }
      assert NewestLive(points, id, order[i]);
    }
  }

  /** A new live point with the latest modification time is what Get finds. */
  lemma PutFinds(points: Points, anno: Annotation, now: int, arrival: int)
    requires arrival != 0 && anno.id != "" && (forall key :: key in points ==> points[key].modified < now)
    ensures Storable(anno) ==> Finds(PutLive(points, anno, now, arrival), anno)
  {
    if Storable(anno) {
      var key := KeyOf(anno, arrival);
      ReadsBackExactly(anno, now, arrival);
      assert key.tags["id"] == anno.id;
      assert Live(PutLive(points, anno, now, arrival), anno.id, key);
    }
  }

  lemma UpdateClocked(points: Points, clock: int, cur: Annotation, anno: Annotation, now1: int, now2: int,
                      arrival: int, second: bool)
    requires Clocked(points, clock) && clock < now1 < now2
    ensures Clocked(Updated(points, cur, anno, now1, now2, arrival, second), now2)
  {
  }

  lemma UpdateFinds(points: Points, key: Key, anno: Annotation, now1: int, now2: int, arrival: int)
    requires WellFormed(points) && NewestLive(points, anno.id, key) && now1 < now2
    requires arrival != 0 && ValidTags(anno.tags) && (forall k :: k in points ==> points[k].modified < now1)
    ensures var cur := Decoded(key, points[key]).anno;
            forall second ::
              && WellFormed(Updated(points, cur, anno, now1, now2, arrival, second))
              && (Storable(anno) ==> Finds(Updated(points, cur, anno, now1, now2, arrival, second), anno))
  {
    var cur := Decoded(key, points[key]).anno;
    assert anno.id != "";
    KeyOfDecoded(points, key, arrival);
    var written := PutLive(points, anno, now1, arrival);
    PutWellFormed(points, anno, Stored(false, anno.startTime, now1, anno.text), arrival);
    PutFinds(points, anno, now1, arrival);
    assert written[key := Stored(true, 0, now2, "")] == PutDeleted(written, cur, now2, arrival);
    if Storable(anno) && cur.endTime != anno.endTime {
      assert Live(written, anno.id, KeyOf(anno, arrival));
      TombstoneKeepsFound(written, anno, key, now2, KeyOf(anno, arrival));
    }
  }

  /** Burying another point than the newest changes nothing for Get. */
  lemma TombstoneKeepsFound(points: Points, anno: Annotation, key: Key, now: int, newest: Key)
    requires Finds(points, anno) && NewestLive(points, anno.id, newest) && newest != key
    ensures Finds(points[key := Stored(true, 0, now, "")], anno)
  {
    var after := points[key := Stored(true, 0, now, "")];
    assert Live(after, anno.id, newest);
    forall k | NewestLive(after, anno.id, k) ensures Decoded(k, after[k]).anno == anno {
      forall other | Live(points, anno.id, other) ensures points[other].modified <= points[k].modified {
        assert points[other].modified <= points[newest].modified;
      }
      assert NewestLive(points, anno.id, k);
    }
  }

  // ---------- refinement of a plain map ----------

  type Notes = map<string, Annotation>

  /** Where a storable annotation lives. */
  function Home(anno: Annotation): Key {
    Key(Tagged(anno), anno.endTime)
  }

  predicate Storing(points: Points, anno: Annotation) {
    && Home(anno) in points
    && !points[Home(anno)].deleted
    && points[Home(anno)].startTime == anno.startTime
    && points[Home(anno)].text == anno.text
  }

  /** The points stand for the map: each of its annotations is stored, and nothing else is live. */
  predicate Represents(points: Points, abs: Notes) {
    && (forall id :: id in abs ==> abs[id].id == id != "" && Storable(abs[id]) && Storing(points, abs[id]))
    && (forall key :: key in points && !points[key].deleted ==>
          "id" in key.tags && key.tags["id"] in abs && key == Home(abs[key.tags["id"]]))
  }

  lemma HomeIsKey(anno: Annotation, arrival: int)
    requires Storable(anno) && anno.id != ""
    ensures KeyOf(anno, arrival) == Home(anno) && Home(anno).tags["id"] == anno.id
  {
    assert NonEmpty(Tagged(anno)) == Tagged(anno);
  }

  lemma HomeDecodes(anno: Annotation, s: Stored)
    requires Storable(anno) && anno.id != ""
    ensures Decoded(Home(anno), s).anno == Annotation(anno.id, s.startTime, anno.endTime, s.text, anno.tags)
  {
    assert Tagged(anno) - BLACKLIST == anno.tags;
  }

  /** Get answers as the map does. */
  lemma GetRefines(points: Points, abs: Notes, id: string, r: Result<Annotation, Error>)
    requires Represents(points, abs) && GetResult(points, id, r)
    ensures r == if id in abs then Ok(abs[id]) else Err(NotFound)
  {
    if r.Ok? {
      var key :| NewestLive(points, id, key) && Decoded(key, points[key]).anno == r.value;
      HomeDecodes(abs[id], points[key]);
    } else if id in abs {
      HomeIsKey(abs[id], 1);
      assert Live(points, id, Home(abs[id]));
    }
  }

  lemma HomesApart(a: Annotation, b: Annotation)
    requires a.id != "" && b.id != "" && Storable(a) && Storable(b)
    ensures Home(a) == Home(b) <==> a.id == b.id && a.tags == b.tags && a.endTime == b.endTime
  {
    HomeIsKey(a, 1);
    HomeIsKey(b, 1);
    HomeDecodes(a, Stored(false, 0, 0, ""));
    HomeDecodes(b, Stored(false, 0, 0, ""));
  }

  lemma AddRefines(points: Points, abs: Notes, anno: Annotation, now: int, arrival: int)
    requires Represents(points, abs) && anno.id !in abs && anno.id != "" && Storable(anno)
    ensures Represents(PutLive(points, anno, now, arrival), abs[anno.id := anno])
  {
    forall id | id in abs ensures Home(abs[id]) != Home(anno) { HomesApart(abs[id], anno); }
    PutRefines(points, abs, anno, now, arrival);
  }

  lemma PutRefines(points: Points, abs: Notes, anno: Annotation, now: int, arrival: int)
    requires Represents(points, abs) && anno.id != "" && Storable(anno)
    requires forall id :: id in abs && id != anno.id ==> Home(abs[id]) != Home(anno)
    requires anno.id in abs ==> Home(abs[anno.id]) == Home(anno)
    ensures Represents(PutLive(points, anno, now, arrival), abs[anno.id := anno])
  {
    HomeIsKey(anno, arrival);
    var after, abs' := PutLive(points, anno, now, arrival), abs[anno.id := anno];
    forall id | id in abs' ensures abs'[id].id == id != "" && Storable(abs'[id]) && Storing(after, abs'[id]) {
      if id != anno.id { assert Storing(points, abs[id]); }
    }
  }

  lemma DeleteRefines(points: Points, abs: Notes, id: string, now: int, arrival: int)
    requires Represents(points, abs) && id in abs
    ensures Represents(PutDeleted(points, abs[id], now, arrival), abs - {id})
  {
    HomeIsKey(abs[id], arrival);
    forall other | other in abs && other != id ensures Home(abs[other]) != Home(abs[id]) {
      HomesApart(abs[other], abs[id]);
    }
  }

  /** An update of which no write is lost keeps the correspondence exactly when it keeps the tags or
      moves the end time: with other tags and the same time the old point stays live. */
  lemma UpdateRefinesExact(points: Points, abs: Notes, anno: Annotation, now1: int, now2: int, arrival: int)
    requires Represents(points, abs) && anno.id in abs && Storable(anno)
    ensures Represents(Updated(points, abs[anno.id], anno, now1, now2, arrival, true), abs[anno.id := anno])
        <==> anno.tags == abs[anno.id].tags || anno.endTime != abs[anno.id].endTime
  {
    if anno.tags == abs[anno.id].tags || anno.endTime != abs[anno.id].endTime {
      UpdateRefines(points, abs, anno, now1, now2, arrival);
    } else {
      UpdateLeavesOld(points, abs, anno, now1, now2, arrival);
    }
  }

  lemma UpdateRefines(points: Points, abs: Notes, anno: Annotation, now1: int, now2: int, arrival: int)
    requires Represents(points, abs) && anno.id in abs && Storable(anno)
    requires anno.tags == abs[anno.id].tags || anno.endTime != abs[anno.id].endTime
    ensures Represents(Updated(points, abs[anno.id], anno, now1, now2, arrival, true), abs[anno.id := anno])
  {
    var cur := abs[anno.id];
    HomeIsKey(anno, arrival);
    HomeIsKey(cur, arrival);
    if anno.endTime != cur.endTime {
      MoveRefines(points, abs, anno, now1, now2, arrival);
    } else {
      assert Home(anno) == Home(cur);
      OverwriteRefines(points, abs, anno, now1, arrival);
    }
  }

  /** The two writes of a move are to different points, so their order does not matter. */
  lemma MoveRefines(points: Points, abs: Notes, anno: Annotation, now1: int, now2: int, arrival: int)
    requires Represents(points, abs) && anno.id in abs && Storable(anno) && anno.endTime != abs[anno.id].endTime
    ensures Represents(PutDeleted(PutLive(points, anno, now1, arrival), abs[anno.id], now2, arrival),
                       abs[anno.id := anno])
  {
    var cur := abs[anno.id];
    WritesCommute(points, cur, anno, now1, now2, arrival);
    DeleteRefines(points, abs, anno.id, now2, arrival);
    AddRefines(PutDeleted(points, cur, now2, arrival), abs - {anno.id}, anno, now1, arrival);
    assert (abs - {anno.id})[anno.id := anno] == abs[anno.id := anno];
  }

  lemma WritesCommute(points: Points, cur: Annotation, anno: Annotation, now1: int, now2: int, arrival: int)
    requires Storable(cur) && Storable(anno) && anno.endTime != cur.endTime
    ensures PutDeleted(PutLive(points, anno, now1, arrival), cur, now2, arrival)
         == PutLive(PutDeleted(points, cur, now2, arrival), anno, now1, arrival)
  {
    assert KeyOf(anno, arrival) != KeyOf(cur, arrival);
  }

  lemma OverwriteRefines(points: Points, abs: Notes, anno: Annotation, now: int, arrival: int)
    requires Represents(points, abs) && anno.id in abs && Storable(anno) && Home(anno) == Home(abs[anno.id])
    ensures Represents(PutLive(points, anno, now, arrival), abs[anno.id := anno])
  {
    forall other | other in abs && other != anno.id ensures Home(abs[other]) != Home(anno) {
      HomesApart(abs[other], anno);
    }
    PutRefines(points, abs, anno, now, arrival);
  }

  lemma UpdateLeavesOld(points: Points, abs: Notes, anno: Annotation, now1: int, now2: int, arrival: int)
    requires Represents(points, abs) && anno.id in abs && Storable(anno)
    requires anno.tags != abs[anno.id].tags && anno.endTime == abs[anno.id].endTime
    ensures !Represents(Updated(points, abs[anno.id], anno, now1, now2, arrival, true), abs[anno.id := anno])
  {
    var cur := abs[anno.id];
    HomeIsKey(anno, arrival);
    HomeIsKey(cur, arrival);
    HomesApart(cur, anno);
    var after := Updated(points, cur, anno, now1, now2, arrival, true);
    assert Home(cur) in after && !after[Home(cur)].deleted;
  }

  // ---------- whole runs ----------

  datatype Call = AddCall(anno: Annotation) | UpdateCall(anno: Annotation) | DeleteCall(id: string)

  /** One call of which no write is lost, as the class performs it. */
  ghost predicate Step(before: Points, call: Call, after: Points) {
    exists now1, now2, arrival :: StepAt(before, call, after, now1, now2, arrival)
  }

  ghost predicate StepAt(before: Points, call: Call, after: Points, now1: int, now2: int, arrival: int) {
    match call
    case AddCall(anno) => after == PutLive(before, anno, now1, arrival)
    case UpdateCall(anno) =>
      if Gone(before, anno.id) then after == before
      else exists key :: (
        NewestLive(before, anno.id, key)
        && after == Updated(before, Decoded(key, before[key]).anno, anno, now1, now2, arrival, true))
    case DeleteCall(id) =>
      if Gone(before, id) then after == before
      else exists key :: (
        NewestLive(before, id, key)
        && after == PutDeleted(before, Decoded(key, before[key]).anno, now1, arrival))
  }

  /** The same call on the plain map. */
  function Do(abs: Notes, call: Call): Notes {
    match call
    case AddCall(anno) => abs[anno.id := anno]
    case UpdateCall(anno) => if anno.id in abs then abs[anno.id := anno] else abs
    case DeleteCall(id) => abs - {id}
  }

  function DoAll(calls: seq<Call>): Notes {
    if calls == [] then map[] else Do(DoAll(calls[..|calls| - 1]), calls[|calls| - 1])
  }

  /** A fresh id, storable annotations, and updates that keep the tags or move the time. */
  predicate Allowed(abs: Notes, call: Call) {
    match call
    case AddCall(anno) => anno.id != "" && anno.id !in abs && Storable(anno)
    case UpdateCall(anno) =>
      Storable(anno)
      && (anno.id in abs ==> anno.tags == abs[anno.id].tags || anno.endTime != abs[anno.id].endTime)
    case DeleteCall(_) => true
  }

  lemma StepRefines(before: Points, abs: Notes, call: Call, after: Points)
    requires Represents(before, abs) && Allowed(abs, call) && Step(before, call, after)
    ensures Represents(after, Do(abs, call))
  {
    var now1, now2, arrival :| StepAt(before, call, after, now1, now2, arrival);
    if call.AddCall? {
      AddRefines(before, abs, call.anno, now1, arrival);
    } else {
      var id := if call.UpdateCall? then call.anno.id else call.id;
      if Gone(before, id) {
        GetRefines(before, abs, id, Err(NotFound));
        assert abs - {id} == abs;
      } else {
        FoundInMap(before, abs, id);
        if call.UpdateCall? {
          UpdateRefinesExact(before, abs, call.anno, now1, now2, arrival);
        } else {
          DeleteRefines(before, abs, id, now1, arrival);
        }
      }
    }
  }

  lemma FoundInMap(points: Points, abs: Notes, id: string)
    requires Represents(points, abs) && !Gone(points, id)
    ensures id in abs
    ensures forall key :: NewestLive(points, id, key) ==> Decoded(key, points[key]).anno == abs[id]
  {
    forall key | NewestLive(points, id, key) ensures Decoded(key, points[key]).anno == abs[id] {
      GetRefines(points, abs, id, Ok(Decoded(key, points[key]).anno));
    }
  }

  /** In every run from the empty store without lost writes, of allowed calls, the points stand for
      the map the calls build, so Get answers as that map does. */
  lemma {:induction false} RunRefines(states: seq<Points>, calls: seq<Call>, i: nat)
    requires |states| == |calls| + 1 && states[0] == map[] && i <= |calls|
    requires forall k :: 0 <= k < |calls| ==> Step(states[k], calls[k], states[k + 1])
    requires forall k :: 0 <= k < |calls| ==> Allowed(DoAll(calls[..k]), calls[k])
    ensures Represents(states[i], DoAll(calls[..i]))
  {
    if i > 0 {
      RunRefines(states, calls, i - 1);
      assert calls[..i][..i - 1] == calls[..i - 1];
      assert Step(states[i - 1], calls[i - 1], states[i - 1 + 1]);
      StepRefines(states[i - 1], DoAll(calls[..i - 1]), calls[i - 1], states[i]);
    }
  }

  /** A written Delete makes the id disappear exactly when it had a single live point. */
  lemma DeleteIsFinalExact(points: Points, id: string, key: Key, now: int)
    requires NewestLive(points, id, key)
    ensures Gone(points[key := Stored(true, 0, now, "")], id)
        <==> forall other :: Live(points, id, other) ==> other == key
  {
    var after := points[key := Stored(true, 0, now, "")];
    forall other ensures Live(after, id, other) <==> Live(points, id, other) && other != key {}
  }

  /** An update buries the old point: by the tombstone when the time moves, by replacing it when both
      time and tags stay. */
  predicate Buries(cur: Annotation, anno: Annotation, second: bool) {
    if cur.endTime != anno.endTime then second else anno.tags == cur.tags
  }

  /** After an update the id has its new point, and the old one unless it was buried. */
  lemma LiveAfterUpdate(points: Points, abs: Notes, anno: Annotation, now1: int, now2: int, arrival: int,
                        second: bool, key: Key)
    requires Represents(points, abs) && anno.id in abs && Storable(anno)
    ensures Live(Updated(points, abs[anno.id], anno, now1, now2, arrival, second), anno.id, key)
        <==> key == Home(anno) || (key == Home(abs[anno.id]) && !Buries(abs[anno.id], anno, second))
  {
    HomeIsKey(anno, arrival);
    HomeIsKey(abs[anno.id], arrival);
    HomesApart(abs[anno.id], anno);
  }

  lemma UpdateIsNewest(points: Points, abs: Notes, anno: Annotation, now1: int, now2: int, arrival: int,
                       second: bool, key: Key)
    requires Represents(points, abs) && anno.id in abs && Storable(anno)
    requires forall k :: k in points ==> points[k].modified < now1
    ensures NewestLive(Updated(points, abs[anno.id], anno, now1, now2, arrival, second), anno.id, key)
        <==> key == Home(anno)
  {
    var up := Updated(points, abs[anno.id], anno, now1, now2, arrival, second);
    forall other ensures Live(up, anno.id, other)
        <==> other == Home(anno) || (other == Home(abs[anno.id]) && !Buries(abs[anno.id], anno, second)) {
      LiveAfterUpdate(points, abs, anno, now1, now2, arrival, second, other);
    }
    HomeIsKey(anno, arrival);
    HomeIsKey(abs[anno.id], arrival);
    assert up[Home(anno)].modified == now1;
  }

  /** A delete of the id marks its newest point. */
  lemma DeleteMarksNewest(points: Points, anno: Annotation, after: Points) returns (now: int)
    requires Storable(anno) && anno.id != "" && Step(points, DeleteCall(anno.id), after)
    requires forall key :: NewestLive(points, anno.id, key) <==> key == Home(anno)
    ensures after == points[Home(anno) := Stored(true, 0, now, "")]
  {
    var now1, now2, arrival :| StepAt(points, DeleteCall(anno.id), after, now1, now2, arrival);
    now := now1;
    assert NewestLive(points, anno.id, Home(anno));
    var found := Decoded(Home(anno), points[Home(anno)]).anno;
    HomeDecodes(anno, points[Home(anno)]);
    HomeIsKey(anno, arrival);
    assert KeyOf(found, arrival) == KeyOf(anno, arrival);
  }

  /** The old point, where it is not buried, still reads back as the old annotation. */
  lemma OldPointKept(points: Points, cur: Annotation, anno: Annotation, now1: int, now2: int, now3: int,
                     arrival: int, second: bool)
    requires cur.id == anno.id != "" && Storable(cur) && Storable(anno) && Storing(points, cur)
    requires !Buries(cur, anno, second)
    ensures var up := Updated(points, cur, anno, now1, now2, arrival, second);
            var after := up[Home(anno) := Stored(true, 0, now3, "")];
            Home(cur) in after && Decoded(Home(cur), after[Home(cur)]).anno == cur
  {
    HomeIsKey(anno, arrival);
    HomesApart(cur, anno);
    HomeDecodes(cur, points[Home(cur)]);
  }

  /** Update and then Delete: the delete is final exactly when the update buried the old point, and
      otherwise Get finds the annotation from before the update again. */
  lemma UpdateThenDelete(points: Points, abs: Notes, anno: Annotation, now1: int, now2: int, arrival: int,
                         second: bool, after: Points)
    requires Represents(points, abs) && anno.id in abs && Storable(anno)
    requires forall k :: k in points ==> points[k].modified < now1
    requires Step(Updated(points, abs[anno.id], anno, now1, now2, arrival, second), DeleteCall(anno.id), after)
    ensures Gone(after, anno.id) <==> Buries(abs[anno.id], anno, second)
    ensures !Gone(after, anno.id) ==> Finds(after, abs[anno.id])
  {
    var cur := abs[anno.id];
    var up := Updated(points, cur, anno, now1, now2, arrival, second);
    forall key ensures NewestLive(up, anno.id, key) <==> key == Home(anno) {
      UpdateIsNewest(points, abs, anno, now1, now2, arrival, second, key);
    }
    var now3 := DeleteMarksNewest(up, anno, after);
    DeleteIsFinalExact(up, anno.id, Home(anno), now3);
    forall key ensures Live(up, anno.id, key)
        <==> key == Home(anno) || (key == Home(cur) && !Buries(cur, anno, second)) {
      LiveAfterUpdate(points, abs, anno, now1, now2, arrival, second, key);
    }
    HomesApart(cur, anno);
    if !Buries(cur, anno, second) {
      assert Live(up, anno.id, Home(cur)) && Home(cur) != Home(anno);
      OldPointKept(points, cur, anno, now1, now2, now3, arrival, second);
    }
  }

  // ---------- the line protocol underneath ----------

  const ANNOTATIONS: string := "annotations"
  const DELETED: string := "deleted"
  const START_TIME: string := "start_time"
  const MODIFIED: string := "modified_time_ns"
  const TEXT: string := "text"

  function PointOf(anno: Annotation, s: Stored): LineProtocol.Point {
    LineProtocol.Point(ANNOTATIONS, Tagged(anno), map[
      DELETED := LineProtocol.BoolValue(s.deleted), START_TIME := LineProtocol.IntValue(s.startTime),
      MODIFIED := LineProtocol.IntValue(s.modified), TEXT := LineProtocol.StringValue(s.text)], anno.endTime)
  }

  /** toPoint. */
  function LivePoint(anno: Annotation, now: int): LineProtocol.Point {
    PointOf(anno, Stored(false, anno.startTime, now, anno.text))
  }

  /** toDeletedPoint. */
  function DeletedPoint(anno: Annotation, now: int): LineProtocol.Point {
    PointOf(anno, Stored(true, 0, now, ""))
  }

  /** The fields of a point that was read, as they are stored. */
  function StoredFields(fields: map<string, LineProtocol.FieldValue>): Option<Stored> {
    if DELETED in fields && fields[DELETED].BoolValue? && START_TIME in fields && fields[START_TIME].IntValue?
       && MODIFIED in fields && fields[MODIFIED].IntValue? && TEXT in fields && fields[TEXT].StringValue?
    then Some(Stored(fields[DELETED].b, fields[START_TIME].i, fields[MODIFIED].i, fields[TEXT].s))
    else None
  }

  /** The server reads a line and stores the point; a line it cannot read changes nothing. */
  function Receive(points: Points, line: string, arrival: int): Points {
    match LineProtocol.ReadLine(line)
    case None => points
    case Some(p) =>
      match StoredFields(p.fields)
      case None => points
      case Some(s) => points[Key(p.tags, if p.time == 0 then arrival else p.time) := s]
  }

  lemma FieldsStored(anno: Annotation, s: Stored)
    ensures StoredFields(PointOf(anno, s).fields) == Some(s)
    ensures LineProtocol.WrittenFields(PointOf(anno, s)) == PointOf(anno, s).fields != map[]
  {
    assert |DELETED| == 7 && |START_TIME| == 10 && |MODIFIED| == 16 && |TEXT| == 4;
    assert TEXT in PointOf(anno, s).fields;
  }

  /** A tag that is written does not end in a backslash, and neither does its value. */
  predicate LineSafe(anno: Annotation) {
    forall tag :: tag in NonEmpty(Tagged(anno)) ==>
      !Text.EndsInBackslash(tag) && !Text.EndsInBackslash(Tagged(anno)[tag])
  }

  lemma LineReads(anno: Annotation, s: Stored, tags: seq<string>, fields: seq<string>)
    requires LineProtocol.Orders(PointOf(anno, s), tags, fields) && LineSafe(anno)
    ensures LineProtocol.ReadLine(LineProtocol.Line(PointOf(anno, s), tags, fields))
         == Some(PointOf(anno, s).(tags := NonEmpty(Tagged(anno))))
  {
    var p := PointOf(anno, s);
    FieldsStored(anno, s);
    FieldsPlain(anno, s);
    assert LineProtocol.WrittenTags(p) == NonEmpty(Tagged(anno));
    LineProtocol.LineRoundTrip(p, tags, fields);
  }

  lemma Received(points: Points, line: string, p: LineProtocol.Point, s: Stored, arrival: int)
    requires LineProtocol.ReadLine(line) == Some(p) && StoredFields(p.fields) == Some(s)
    ensures Receive(points, line, arrival) == points[Key(p.tags, if p.time == 0 then arrival else p.time) := s]
  {
  }

  lemma LineStores(points: Points, anno: Annotation, s: Stored, arrival: int, tags: seq<string>, fields: seq<string>)
    requires LineProtocol.Orders(PointOf(anno, s), tags, fields) && LineSafe(anno)
    ensures Receive(points, LineProtocol.Line(PointOf(anno, s), tags, fields), arrival)
         == points[KeyOf(anno, arrival) := s]
  {
    LineReads(anno, s, tags, fields);
    FieldsStored(anno, s);
    Received(points, LineProtocol.Line(PointOf(anno, s), tags, fields),
             PointOf(anno, s).(tags := NonEmpty(Tagged(anno))), s, arrival);
  }

  lemma FieldsPlain(anno: Annotation, s: Stored)
    ensures !Text.EndsInBackslash(ANNOTATIONS)
    ensures forall field :: field in PointOf(anno, s).fields ==> !Text.EndsInBackslash(field)
  {
  }

  /** The line written for an annotation, live or deleted, puts exactly the point into the store that the
      model puts there. */
  lemma LineCarriesPoint(points: Points, anno: Annotation, now: int, arrival: int, tags: seq<string>,
                         fields: seq<string>)
    requires LineSafe(anno)
    ensures LineProtocol.Orders(LivePoint(anno, now), tags, fields) ==>
      Receive(points, LineProtocol.Line(LivePoint(anno, now), tags, fields), arrival)
      == PutLive(points, anno, now, arrival)
    ensures LineProtocol.Orders(DeletedPoint(anno, now), tags, fields) ==>
      Receive(points, LineProtocol.Line(DeletedPoint(anno, now), tags, fields), arrival)
      == PutDeleted(points, anno, now, arrival)
  {
    if LineProtocol.Orders(LivePoint(anno, now), tags, fields) {
      LineStores(points, anno, Stored(false, anno.startTime, now, anno.text), arrival, tags, fields);
    }
    if LineProtocol.Orders(DeletedPoint(anno, now), tags, fields) {
      LineStores(points, anno, Stored(true, 0, now, ""), arrival, tags, fields);
    }
  }
}
