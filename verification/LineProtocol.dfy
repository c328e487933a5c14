/** The InfluxDB line protocol printer, and the reader that inverts its escape tables. */
module LineProtocol {
  import opened Wrappers
  import opened Text
  import opened Decimal

  /** Unsupported stands for every Go type the printer has no format for. */
  datatype FieldValue =
    | IntValue(i: int)
    | UintValue(n: nat)
    | StringValue(s: string)
    | BoolValue(b: bool)
    | Unsupported

  datatype Point = Point(measurement: string, tags: map<string, string>, fields: map<string, FieldValue>, time: int)

  // ---------- escaping ----------

  type Table = set<char>

  const MEASUREMENT: Table := {',', ' '}
  const KEYS: Table := {',', '"', ' ', '='}
  const TAG_VALUES: Table := {',', '"', ' ', '='}
  const FIELD_STRINGS: Table := {'"', '\\'}

  /** A strings.Replacer that puts a backslash before each character of the table. */
  function Escape(table: Table, s: string): string {
    if s == "" then ""
    else (if s[0] in table then "\\" + [s[0]] else [s[0]]) + Escape(table, s[1..])
  }

  /** Every such character stands behind a backslash. */
  predicate Shielded(s: string, c: char) {
    forall i :: 0 <= i < |s| && s[i] == c ==> i > 0 && s[i - 1] == '\\'
  }

  lemma {:induction false} EscapeShields(table: Table, s: string, c: char)
    requires c in table && '\\' !in table
    ensures Shielded(Escape(table, s), c)
  {
    if s != "" {
      EscapeShields(table, s[1..], c);
      var front, rest := if s[0] in table then "\\" + [s[0]] else [s[0]], Escape(table, s[1..]);
      forall i | 0 <= i < |front + rest| && (front + rest)[i] == c
        ensures i > 0 && (front + rest)[i - 1] == '\\'
      {
        if i >= |front| { assert rest[i - |front|] == c; }
      }
    }
  }

  lemma {:induction false} EscapeLeaves(table: Table, s: string)
    requires forall c :: c in s ==> c !in table
    ensures Escape(table, s) == s
  {
    if s != "" {
      assert s == [s[0]] + s[1..] && s[0] in s;
      forall c | c in s[1..] ensures c in s {}
      EscapeLeaves(table, s[1..]);
    }
  }

  predicate Free(s: string, special: seq<char>) {
    forall c :: c in s ==> c !in special
  }

  /** In a printed name no comma, space, equals sign or quote is bare, in a measurement no comma or space, and
      what has none of them is printed as it is. */
  lemma NamesShielded(s: string)
    ensures Shielded(Escape(KEYS, s), ',') && Shielded(Escape(KEYS, s), ' ')
    ensures Shielded(Escape(KEYS, s), '=') && Shielded(Escape(KEYS, s), '"')
    ensures Escape(TAG_VALUES, s) == Escape(KEYS, s)
    ensures Shielded(Escape(MEASUREMENT, s), ',') && Shielded(Escape(MEASUREMENT, s), ' ')
    ensures Free(s, ", =\"") ==> Escape(KEYS, s) == s
    ensures Free(s, ", ") ==> Escape(MEASUREMENT, s) == s
    ensures Free(s, "\"\\") ==> Escape(FIELD_STRINGS, s) == s
  {
    EscapeShields(KEYS, s, ',');
    EscapeShields(KEYS, s, ' ');
    EscapeShields(KEYS, s, '=');
    EscapeShields(KEYS, s, '"');
    EscapeShields(MEASUREMENT, s, ',');
    EscapeShields(MEASUREMENT, s, ' ');
    if Free(s, ", =\"") { EscapeLeaves(KEYS, s); }
    if Free(s, ", ") { EscapeLeaves(MEASUREMENT, s); }
    if Free(s, "\"\\") { EscapeLeaves(FIELD_STRINGS, s); }
  }

  // ---------- printing ----------

  function TagText(p: Point, tag: string): string
  {
    Escape(KEYS, tag) + "=" + Escape(TAG_VALUES, if tag in p.tags then p.tags[tag] else "")
  }

  function ValueText(v: FieldValue): string {
    match v
    case IntValue(i) => FormatInt(i) + "i"
    case UintValue(n) => FormatInt(n) + "u"
    case StringValue(s) => "\"" + Escape(FIELD_STRINGS, s) + "\""
    case BoolValue(b) => if b then "true" else "false"
    case Unsupported => ""
  }

  function FieldText(p: Point, field: string): string {
    Escape(KEYS, field) + "=" + ValueText(if field in p.fields then p.fields[field] else Unsupported)
  }

  function TagTexts(p: Point): string -> string {
    (tag: string) => TagText(p, tag)
  }

  function FieldTexts(p: Point): string -> string {
    (field: string) => FieldText(p, field)
  }

  /** The tags and fields that are written. */
  function WrittenTags(p: Point): map<string, string> {
    map tag | tag in p.tags && p.tags[tag] != "" :: p.tags[tag]
  }

  function WrittenFields(p: Point): map<string, FieldValue> {
    map field | field in p.fields && p.fields[field] != Unsupported :: p.fields[field]
  }

  function TimeText(time: int): string {
    if time != 0 then " " + FormatInt(time) else ""
  }

  /** The line when the two maps are iterated in the given orders. */
  function Line(p: Point, tags: seq<string>, fields: seq<string>): string {
    Escape(MEASUREMENT, p.measurement)
    + (if tags != [] then "," + Join(Sort(Map(TagTexts(p), tags)), ",") else "")
    + (" " + Join(Sort(Map(FieldTexts(p), fields)), ","))
    + TimeText(p.time)
  }

  ghost predicate Orders(p: Point, tags: seq<string>, fields: seq<string>) {
    && multiset(tags) == multiset(WrittenTags(p).Keys)
    && multiset(fields) == multiset(WrittenFields(p).Keys)
  }

  lemma LineIgnoresOrder(p: Point, tags: seq<string>, fields: seq<string>, tags': seq<string>, fields': seq<string>)
    requires Orders(p, tags, fields) && Orders(p, tags', fields')
    ensures Line(p, tags, fields) == Line(p, tags', fields')
  {
    MapPermutes(TagTexts(p), tags, tags');
    MapPermutes(FieldTexts(p), fields, fields');
    SortPermutes(Map(TagTexts(p), tags), Map(TagTexts(p), tags'));
    SortPermutes(Map(FieldTexts(p), fields), Map(FieldTexts(p), fields'));
    assert |tags| == |multiset(tags)| == |multiset(tags')| == |tags'|;
  }

  method CollectTags(p: Point) returns (texts: seq<string>, ghost order: seq<string>)
    ensures multiset(order) == multiset(WrittenTags(p).Keys) && texts == Map(TagTexts(p), order)
  {
    texts, order := [], [];
    var todo := p.tags.Keys;
    ghost var written := WrittenTags(p).Keys;
    while todo != {}
      invariant todo <= p.tags.Keys
      invariant multiset(order) + multiset(todo * written) == multiset(written)
      invariant texts == Map(TagTexts(p), order)
    {
      var tag :| tag in todo;
      if p.tags[tag] != "" {
        texts := texts + [Escape(KEYS, tag) + "=" + Escape(TAG_VALUES, p.tags[tag])];
        assert (todo - {tag}) * written == todo * written - {tag};
        order := order + [tag];
      } else {
        assert (todo - {tag}) * written == todo * written;
      }
      todo := todo - {tag};
    }
  }

  method CollectFields(p: Point) returns (texts: seq<string>, ghost order: seq<string>)
    ensures multiset(order) == multiset(WrittenFields(p).Keys) && texts == Map(FieldTexts(p), order)
  {
    texts, order := [], [];
    var todo := p.fields.Keys;
    ghost var written := WrittenFields(p).Keys;
    while todo != {}
      invariant todo <= p.fields.Keys
      invariant multiset(order) + multiset(todo * written) == multiset(written)
      invariant texts == Map(FieldTexts(p), order)
    {
      var field :| field in todo;
      if p.fields[field] != Unsupported {
        texts := texts + [Escape(KEYS, field) + "=" + ValueText(p.fields[field])];
        assert (todo - {field}) * written == todo * written - {field};
        order := order + [field];
      } else {
        assert (todo - {field}) * written == todo * written;
      }
      todo := todo - {field};
    }
  }

  /** toLineProtocol. */
  method ToLineProtocol(p: Point) returns (r: Result<string, string>)
    ensures r.Ok? <==> p.measurement != "" && p.fields != map[]
    ensures r.Ok? ==> forall tags, fields :: Orders(p, tags, fields) ==> r.value == Line(p, tags, fields)
  {
    var measurement := Escape(MEASUREMENT, p.measurement);
    if |measurement| == 0 {
      return Err("measurement required to write point");
    }
    if p.fields == map[] {
      return Err("at least one field required to write point");
    }
    ghost var tagOrder, fieldOrder;
    var tags, fields;
    tags, tagOrder := CollectTags(p);
    fields, fieldOrder := CollectFields(p);
    var lp := measurement;
    if |tags| > 0 {
      lp := lp + ("," + Join(Sort(tags), ","));
    } else {
      assert lp + "" == lp;
    }
    lp := lp + (" " + Join(Sort(fields), ","));
    if p.time != 0 {
      lp := lp + (" " + FormatInt(p.time));
    } else {
      assert lp + "" == lp;
    }
    assert lp == Line(p, tagOrder, fieldOrder);
    forall ts, fs | Orders(p, ts, fs) ensures lp == Line(p, ts, fs) {
      LineIgnoresOrder(p, tagOrder, fieldOrder, ts, fs);
    }
    r := Ok(lp);
  }

  // ---------- reading ----------

  /** Text up to the first unescaped stop character, and what is left from there. */
  function ReadText(table: Table, stops: Table, s: string): (r: (string, string))
    ensures |r.1| <= |s|
    decreases |s|
  {
    if s == "" then ("", "")
    else if s[0] == '\\' && |s| > 1 && s[1] in table then
      var r := ReadText(table, stops, s[2..]);
      ([s[1]] + r.0, r.1)
    else if s[0] in stops then ("", s)
    else
      var r := ReadText(table, stops, s[1..]);
      ([s[0]] + r.0, r.1)
  }

  /** Name, equals sign, rest. */
  function ReadKey(s: string): (r: Option<(string, string)>)
    ensures r.Some? ==> |r.value.1| < |s|
  {
    var r := ReadText(KEYS, {'='}, s);
    if r.1 == "" then None else Some((r.0, r.1[1..]))
  }

  datatype Tags = Tags(pairs: seq<(string, string)>, rest: string)

  /** tag=value, comma separated, up to the space. */
  function ReadTags(s: string): Option<Tags>
    decreases |s|
  {
    match ReadKey(s)
    case None => None
    case Some(key) =>
      var value := ReadText(TAG_VALUES, {',', ' '}, key.1);
      if value.1 == "" then None
      else if value.1[0] == ' ' then Some(Tags([(key.0, value.0)], value.1))
      else
        match ReadTags(value.1[1..])
        case None => None
        case Some(more) => Some(Tags([(key.0, value.0)] + more.pairs, more.rest))
  }

  /** The contents of a string field, after its opening quote, and what follows the closing one. */
  function ReadString(s: string): Option<(string, string)> {
    var r := ReadText(FIELD_STRINGS, {'"'}, s);
    if r.1 == "" then None else Some((r.0, r.1[1..]))
  }

  function ParseToken(t: string): Option<FieldValue> {
    if t == "true" then Some(BoolValue(true))
    else if t == "false" then Some(BoolValue(false))
    else if t != "" && t[|t| - 1] == 'i' && IsInt(t[..|t| - 1]) then Some(IntValue(ParseInt(t[..|t| - 1])))
    else if t != "" && t[|t| - 1] == 'u' && AllDigits(t[..|t| - 1]) && |t| > 1 then
      Some(UintValue(ParseNat(t[..|t| - 1])))
    else None
  }

  function ReadValue(s: string): (r: Option<(FieldValue, string)>)
    ensures r.Some? ==> |r.value.1| <= |s|
  {
    if s != "" && s[0] == '"' then
      match ReadString(s[1..])
      case None => None
      case Some(q) => Some((StringValue(q.0), q.1))
    else
      var token := ReadText({}, {',', ' '}, s);
      match ParseToken(token.0)
      case None => None
      case Some(v) => Some((v, token.1))
  }

  datatype Fields = Fields(pairs: seq<(string, FieldValue)>, rest: string)

  function ReadFields(s: string): Option<Fields>
    decreases |s|
  {
    match ReadKey(s)
    case None => None
    case Some(key) =>
      match ReadValue(key.1)
      case None => None
      case Some(value) =>
        if value.1 == "" || value.1[0] != ',' then Some(Fields([(key.0, value.0)], value.1))
        else
          match ReadFields(value.1[1..])
          case None => None
          case Some(more) => Some(Fields([(key.0, value.0)] + more.pairs, more.rest))
  }

  function ReadTime(s: string): Option<int> {
    if s == "" then Some(0)
    else if s[0] == ' ' && IsInt(s[1..]) then Some(ParseInt(s[1..]))
    else None
  }

  function MapOf<V>(pairs: seq<(string, V)>): map<string, V> {
    if pairs == [] then map[] else MapOf(pairs[1..])[pairs[0].0 := pairs[0].1]
  }

  /** Fields and time, from the space before the fields on. */
  function ReadRest(measurement: string, tags: map<string, string>, s: string): Option<Point>
    requires s != ""
  {
    match ReadFields(s[1..])
    case None => None
    case Some(fields) =>
      match ReadTime(fields.rest)
      case None => None
      case Some(time) => Some(Point(measurement, tags, MapOf(fields.pairs), time))
  }

  /** Everything after the measurement. */
  function ReadBody(measurement: string, s: string): Option<Point>
    requires s != ""
  {
    if s[0] != ',' then ReadRest(measurement, map[], s)
    else
      match ReadTags(s[1..])
      case None => None
      case Some(tags) =>
        if tags.rest == "" then None else ReadRest(measurement, MapOf(tags.pairs), tags.rest)
  }

  /** The reader of one line. */
  function ReadLine(s: string): Option<Point> {
    var name := ReadText(MEASUREMENT, {',', ' '}, s);
    if name.1 == "" then None else ReadBody(name.0, name.1)
  }

  // ---------- one escaped text ----------

  /** An escaped text is read back up to a stop character, if the text does not end in a backslash. */
  lemma {:induction false} ReadEscaped(table: Table, stops: Table, s: string, rest: string)
    requires stops <= table && '\\' !in table && !EndsInBackslash(s)
    requires rest != "" && rest[0] in stops
    ensures ReadText(table, stops, Escape(table, s) + rest) == (s, rest)
  {
    if s == "" {
      assert Escape(table, s) + rest == rest;
    } else {
      assert s == [s[0]] + s[1..];
      ReadEscaped(table, stops, s[1..], rest);
      EscapedFirst(table, s, rest);
      ReadsChar(table, stops, s[0], Escape(table, s[1..]) + rest);
    }
  }

  lemma EscapedFirst(table: Table, s: string, rest: string)
    requires s != ""
    ensures Escape(table, s) + rest
         == (if s[0] in table then "\\" + [s[0]] else [s[0]]) + (Escape(table, s[1..]) + rest)
  {
  }

  /** One character is read back, escaped or not; a backslash must not be followed by what it could escape. */
  lemma ReadsChar(table: Table, stops: Table, c: char, inner: string)
    requires stops <= table && '\\' !in table
    ensures var r := ReadText(table, stops, inner);
            && (c in table ==> ReadText(table, stops, "\\" + [c] + inner) == ([c] + r.0, r.1))
            && ((c !in table && !(c == '\\' && inner != "" && inner[0] in table)) ==>
                  ReadText(table, stops, [c] + inner) == ([c] + r.0, r.1))
  {
    assert ("\\" + [c] + inner)[2..] == inner && ([c] + inner)[1..] == inner;
  }

  /** A string field is read back whatever it contains. */
  lemma {:induction false} ReadStringEscaped(s: string, rest: string)
    ensures ReadText(FIELD_STRINGS, {'"'}, Escape(FIELD_STRINGS, s) + ("\"" + rest)) == (s, "\"" + rest)
  {
    var text := Escape(FIELD_STRINGS, s) + ("\"" + rest);
    if s == "" {
      assert text == "\"" + rest;
    } else {
      assert s == [s[0]] + s[1..];
      ReadStringEscaped(s[1..], rest);
      if s[0] in FIELD_STRINGS {
        assert text[2..] == Escape(FIELD_STRINGS, s[1..]) + ("\"" + rest);
      } else {
        assert text[1..] == Escape(FIELD_STRINGS, s[1..]) + ("\"" + rest);
      }
    }
  }

  /** What is read up to a stop character never ends in a backslash. */
  lemma {:induction false} ReadNeverEndsInBackslash(table: Table, stops: Table, s: string)
    requires stops <= table && '\\' !in table
    requires ReadText(table, stops, s).1 != ""
    ensures !EndsInBackslash(ReadText(table, stops, s).0)
    decreases |s|
  {
    if s[0] == '\\' && |s| > 1 && s[1] in table {
      ReadNeverEndsInBackslash(table, stops, s[2..]);
    } else if s[0] !in stops {
      ReadNeverEndsInBackslash(table, stops, s[1..]);
    }
  }

  /** Plain text up to a stop character. */
  lemma {:induction false} ReadPlain(stops: Table, s: string, rest: string)
    requires forall i :: 0 <= i < |s| ==> s[i] !in stops
    requires rest == "" || rest[0] in stops
    ensures ReadText({}, stops, s + rest) == (s, rest)
  {
    if s == "" {
      assert s + rest == rest;
    } else {
      assert (s + rest)[1..] == s[1..] + rest;
      ReadPlain(stops, s[1..], rest);
      assert s == [s[0]] + s[1..];
    }
  }

  // ---------- tags ----------

  lemma ReadKeyPrinted(name: string, rest: string)
    requires !EndsInBackslash(name)
    ensures ReadKey(Escape(KEYS, name) + "=" + rest) == Some((name, rest))
  {
    assert Escape(KEYS, name) + "=" + rest == Escape(KEYS, name) + ("=" + rest);
    ReadEscaped(KEYS, {'='}, name, "=" + rest);
    assert ("=" + rest)[1..] == rest;
  }

  function TagPairs(p: Point): string -> (string, string) {
    (tag: string) => (tag, if tag in p.tags then p.tags[tag] else "")
  }

  predicate TagSafe(p: Point, tag: string) {
    !EndsInBackslash(tag) && (tag in p.tags ==> !EndsInBackslash(p.tags[tag]))
  }

  /** One tag, and then the space or the next tag. */
  lemma ReadTagPrinted(tag: string, value: string, after: string)
    requires !EndsInBackslash(tag) && !EndsInBackslash(value)
    requires after != "" && (after[0] == ' ' || after[0] == ',')
    ensures ReadTags(Escape(KEYS, tag) + "=" + (Escape(TAG_VALUES, value) + after)) ==
      if after[0] == ' ' then Some(Tags([(tag, value)], after))
      else if ReadTags(after[1..]).None? then None
      else Some(Tags([(tag, value)] + ReadTags(after[1..]).value.pairs, ReadTags(after[1..]).value.rest))
  {
    ReadKeyPrinted(tag, Escape(TAG_VALUES, value) + after);
    ReadEscaped(TAG_VALUES, {',', ' '}, value, after);
  }

  lemma {:induction false} ReadTagsPrinted(p: Point, order: seq<string>, rest: string)
    requires order != [] && rest != "" && rest[0] == ' '
    requires forall i :: 0 <= i < |order| ==> TagSafe(p, order[i])
    ensures ReadTags(Join(Map(TagTexts(p), order), ",") + rest) == Some(Tags(Map(TagPairs(p), order), rest))
  {
    var texts := Map(TagTexts(p), order);
    var tag, value := order[0], TagPairs(p)(order[0]).1;
    assert TagSafe(p, tag);
    if |order| == 1 {
      ReadTagPrinted(tag, value, rest);
      Regroup(Escape(KEYS, tag) + "=", Escape(TAG_VALUES, value), rest);
      assert Map(TagPairs(p), order) == [(tag, value)];
    } else {
      assert texts[1..] == Map(TagTexts(p), order[1..]);
      ReadTagsPrinted(p, order[1..], rest);
      JoinStep(texts, ",", rest);
      var after := "," + (Join(texts[1..], ",") + rest);
      assert after[1..] == Join(texts[1..], ",") + rest;
      ReadTagPrinted(tag, value, after);
      Regroup(Escape(KEYS, tag) + "=", Escape(TAG_VALUES, value), after);
      MapFirst(TagPairs(p), order);
    }
  }

  lemma Regroup(a: string, b: string, c: string)
    ensures (a + b) + c == a + (b + c)
  {
  }

  lemma MapFirst<A, B>(f: A -> B, s: seq<A>)
    requires s != []
    ensures Map(f, s) == [f(s[0])] + Map(f, s[1..])
  {
  }

  // ---------- fields ----------

  lemma ReadValuePrinted(v: FieldValue, rest: string)
    requires v != Unsupported
    requires rest == "" || rest[0] == ',' || rest[0] == ' '
    ensures ReadValue(ValueText(v) + rest) == Some((v, rest))
  {
    match v
    case StringValue(s) => ReadStringPrinted(s, rest);
    case _ =>
      TokenPrinted(v);
      ReadToken(v, ValueText(v), rest);
  }

  lemma ReadStringPrinted(s: string, rest: string)
    ensures ReadValue(ValueText(StringValue(s)) + rest) == Some((StringValue(s), rest))
  {
    var text := ValueText(StringValue(s)) + rest;
    assert text[0] == '"' && text[1..] == Escape(FIELD_STRINGS, s) + ("\"" + rest);
    ReadStringEscaped(s, rest);
    assert ("\"" + rest)[1..] == rest;
  }

  lemma ReadToken(v: FieldValue, t: string, rest: string)
    requires ParseToken(t) == Some(v) && t != "" && t[0] != '"'
    requires forall i :: 0 <= i < |t| ==> t[i] !in {',', ' '}
    requires rest == "" || rest[0] == ',' || rest[0] == ' '
    ensures ReadValue(t + rest) == Some((v, rest))
  {
    ReadPlain({',', ' '}, t, rest);
  }

  lemma TokenPrinted(v: FieldValue)
    requires v != Unsupported && !v.StringValue?
    ensures ParseToken(ValueText(v)) == Some(v)
    ensures ValueText(v) != "" && ValueText(v)[0] != '"'
    ensures forall i :: 0 <= i < |ValueText(v)| ==> ValueText(v)[i] !in {',', ' '}
  {
    match v
    case IntValue(i) => IntPrinted(i);
    case UintValue(n) => UintPrinted(n);
    case BoolValue(b) => BoolPrinted(b);
  }

  lemma IntPrinted(i: int)
    ensures ParseToken(FormatInt(i) + "i") == Some(IntValue(i))
    ensures FormatInt(i)[0] != '"' && forall k :: 0 <= k < |FormatInt(i)| ==> FormatInt(i)[k] !in {',', ' '}
  {
    ParseFormatInt(i);
    SuffixPrinted(FormatInt(i), "i");
  }

  lemma UintPrinted(n: nat)
    ensures ParseToken(FormatInt(n) + "u") == Some(UintValue(n))
    ensures FormatInt(n)[0] != '"' && forall k :: 0 <= k < |FormatInt(n)| ==> FormatInt(n)[k] !in {',', ' '}
  {
    ParseFormatNat(n);
    SuffixPrinted(FormatInt(n), "u");
  }

  lemma BoolPrinted(b: bool)
    ensures var text := if b then "true" else "false";
            ParseToken(text) == Some(BoolValue(b)) && forall k :: 0 <= k < |text| ==> text[k] !in {',', ' '}
  {
    assert "true"[0] != "false"[0];
  }

  lemma SuffixPrinted(digits: string, suffix: string)
    requires |suffix| == 1
    ensures var t := digits + suffix; t[..|t| - 1] == digits && t[|t| - 1] == suffix[0]
  {
  }

  function FieldPairs(p: Point): string -> (string, FieldValue) {
    (field: string) => (field, if field in p.fields then p.fields[field] else Unsupported)
  }

  /** One field, and then the end, the space or the next field. */
  lemma ReadFieldPrinted(field: string, value: FieldValue, after: string)
    requires !EndsInBackslash(field) && value != Unsupported
    requires after == "" || after[0] == ' ' || after[0] == ','
    ensures ReadFields(Escape(KEYS, field) + "=" + (ValueText(value) + after)) ==
      if after == "" || after[0] == ' ' then Some(Fields([(field, value)], after))
      else if ReadFields(after[1..]).None? then None
      else Some(Fields([(field, value)] + ReadFields(after[1..]).value.pairs, ReadFields(after[1..]).value.rest))
  {
    ReadKeyPrinted(field, ValueText(value) + after);
    ReadValuePrinted(value, after);
  }

  lemma {:induction false} ReadFieldsPrinted(p: Point, order: seq<string>, rest: string)
    requires order != [] && (rest == "" || rest[0] == ' ')
    requires forall i :: 0 <= i < |order| ==> order[i] in WrittenFields(p) && !EndsInBackslash(order[i])
    ensures ReadFields(Join(Map(FieldTexts(p), order), ",") + rest) == Some(Fields(Map(FieldPairs(p), order), rest))
  {
    var texts := Map(FieldTexts(p), order);
    var field, value := order[0], FieldPairs(p)(order[0]).1;
    assert order[0] in WrittenFields(p);
    if |order| == 1 {
      ReadFieldPrinted(field, value, rest);
      Regroup(Escape(KEYS, field) + "=", ValueText(value), rest);
      assert Map(FieldPairs(p), order) == [(field, value)];
    } else {
      assert texts[1..] == Map(FieldTexts(p), order[1..]);
      ReadFieldsPrinted(p, order[1..], rest);
      JoinStep(texts, ",", rest);
      var after := "," + (Join(texts[1..], ",") + rest);
      assert after[1..] == Join(texts[1..], ",") + rest;
      ReadFieldPrinted(field, value, after);
      Regroup(Escape(KEYS, field) + "=", ValueText(value), after);
      MapFirst(FieldPairs(p), order);
    }
  }

  // ---------- maps back from pairs ----------

  lemma {:induction false} MapOfPairs<V>(f: string -> (string, V), order: seq<string>, m: map<string, V>)
    requires forall k :: f(k).0 == k
    requires forall i :: 0 <= i < |order| ==> order[i] in m && f(order[i]).1 == m[order[i]]
    ensures forall k :: k in MapOf(Map(f, order)) <==> k in order
    ensures forall k :: k in order ==> MapOf(Map(f, order))[k] == m[k]
  {
    if order != [] {
      assert Map(f, order)[1..] == Map(f, order[1..]);
      MapOfPairs(f, order[1..], m);
      assert order == [order[0]] + order[1..];
    }
  }

  lemma MapOfEnumeration<V>(f: string -> (string, V), order: seq<string>, m: map<string, V>)
    requires forall k :: f(k).0 == k
    requires forall k :: k in m ==> f(k).1 == m[k]
    requires multiset(order) == multiset(m.Keys)
    ensures MapOf(Map(f, order)) == m
  {
    forall k ensures k in order <==> k in m { assert k in multiset(order) <==> k in m; }
    MapOfPairs(f, order, m);
  }

  // ---------- the whole line ----------

  /** The names and tag values that are written do not end in a backslash. */
  predicate NamesSafe(p: Point) {
    && !EndsInBackslash(p.measurement)
    && (forall tag :: tag in WrittenTags(p) ==> !EndsInBackslash(tag) && !EndsInBackslash(p.tags[tag]))
    && (forall field :: field in WrittenFields(p) ==> !EndsInBackslash(field))
  }

  /** What a line can carry: the tags with a value and the fields with a format. */
  function Written(p: Point): Point {
    Point(p.measurement, WrittenTags(p), WrittenFields(p), p.time)
  }

  lemma LineSplits(p: Point, tags: seq<string>, fields: seq<string>) returns (ts: seq<string>, fs: seq<string>)
    requires Orders(p, tags, fields)
    ensures Orders(p, ts, fs) && |ts| == |tags| && |fs| == |fields|
    ensures Sort(Map(TagTexts(p), tags)) == Map(TagTexts(p), ts)
    ensures Sort(Map(FieldTexts(p), fields)) == Map(FieldTexts(p), fs)
  {
    AlphabeticIsTotal();
    SortSorted(Alphabetic(), Map(TagTexts(p), tags));
    SortSorted(Alphabetic(), Map(FieldTexts(p), fields));
    ts := Lift(TagTexts(p), tags, Sort(Map(TagTexts(p), tags)));
    fs := Lift(FieldTexts(p), fields, Sort(Map(FieldTexts(p), fields)));
    assert |ts| == |multiset(ts)| == |multiset(tags)| == |tags|;
    assert |fs| == |multiset(fs)| == |multiset(fields)| == |fields|;
  }

  lemma ReadTimePrinted(time: int)
    ensures ReadTime(TimeText(time)) == Some(time)
    ensures TimeText(time) == "" || TimeText(time)[0] == ' '
  {
    if time != 0 {
      ParseFormatInt(time);
      assert TimeText(time)[1..] == FormatInt(time);
    }
  }

  lemma ReadFieldPart(p: Point, fs: seq<string>)
    requires multiset(fs) == multiset(WrittenFields(p).Keys) && WrittenFields(p) != map[]
    requires forall field :: field in WrittenFields(p) ==> !EndsInBackslash(field)
    ensures var read := ReadFields(Join(Map(FieldTexts(p), fs), ",") + TimeText(p.time));
            read.Some? && MapOf(read.value.pairs) == WrittenFields(p) && read.value.rest == TimeText(p.time)
  {
    var field :| field in WrittenFields(p);
    assert field in multiset(fs);
    forall i | 0 <= i < |fs| ensures fs[i] in WrittenFields(p) { assert fs[i] in multiset(fs); }
    ReadTimePrinted(p.time);
    ReadFieldsPrinted(p, fs, TimeText(p.time));
    MapOfEnumeration(FieldPairs(p), fs, WrittenFields(p));
  }

  lemma ReadTagPart(p: Point, ts: seq<string>, rest: string)
    requires multiset(ts) == multiset(WrittenTags(p).Keys) && ts != []
    requires forall tag :: tag in WrittenTags(p) ==> !EndsInBackslash(tag) && !EndsInBackslash(p.tags[tag])
    requires rest != "" && rest[0] == ' '
    ensures var read := ReadTags(Join(Map(TagTexts(p), ts), ",") + rest);
            read.Some? && MapOf(read.value.pairs) == WrittenTags(p) && read.value.rest == rest
  {
    forall i | 0 <= i < |ts| ensures TagSafe(p, ts[i]) { assert ts[i] in multiset(ts); }
    ReadTagsPrinted(p, ts, rest);
    MapOfEnumeration(TagPairs(p), ts, WrittenTags(p));
  }

  /** What follows the measurement. */
  function Body(p: Point, ts: seq<string>, fs: seq<string>): string {
    (if ts != [] then "," + (Join(Map(TagTexts(p), ts), ",") + FieldPart(p, fs)) else FieldPart(p, fs))
  }

  function FieldPart(p: Point, fs: seq<string>): string {
    " " + (Join(Map(FieldTexts(p), fs), ",") + TimeText(p.time))
  }

  lemma LineShape(p: Point, tags: seq<string>, fields: seq<string>) returns (ts: seq<string>, fs: seq<string>)
    requires Orders(p, tags, fields)
    ensures Orders(p, ts, fs)
    ensures Line(p, tags, fields) == Escape(MEASUREMENT, p.measurement) + Body(p, ts, fs)
  {
    ts, fs := LineSplits(p, tags, fields);
    Reassociate(Escape(MEASUREMENT, p.measurement), Join(Map(TagTexts(p), ts), ","),
                Join(Map(FieldTexts(p), fs), ","), TimeText(p.time));
  }

  lemma Reassociate(m: string, i: string, j: string, t: string)
    ensures m + "" + (" " + j) + t == m + (" " + (j + t))
    ensures m + ("," + i) + (" " + j) + t == m + ("," + (i + (" " + (j + t))))
  {
  }

  lemma ReadRestPrinted(p: Point, fs: seq<string>, tags: map<string, string>)
    requires multiset(fs) == multiset(WrittenFields(p).Keys) && WrittenFields(p) != map[]
    requires forall field :: field in WrittenFields(p) ==> !EndsInBackslash(field)
    ensures ReadRest(p.measurement, tags, FieldPart(p, fs))
         == Some(Point(p.measurement, tags, WrittenFields(p), p.time))
  {
    assert FieldPart(p, fs)[1..] == Join(Map(FieldTexts(p), fs), ",") + TimeText(p.time);
    ReadFieldPart(p, fs);
    ReadTimePrinted(p.time);
  }

  lemma ReadBodyPrinted(p: Point, ts: seq<string>, fs: seq<string>)
    requires Orders(p, ts, fs) && WrittenFields(p) != map[] && NamesSafe(p)
    ensures ReadBody(p.measurement, Body(p, ts, fs)) == Some(Written(p))
  {
    ReadRestPrinted(p, fs, WrittenTags(p));
    if ts != [] {
      assert Body(p, ts, fs)[1..] == Join(Map(TagTexts(p), ts), ",") + FieldPart(p, fs);
      ReadTagPart(p, ts, FieldPart(p, fs));
    } else {
      NoneWritten(p, ts);
    }
  }

  lemma LineRoundTrip(p: Point, tags: seq<string>, fields: seq<string>)
    requires Orders(p, tags, fields) && WrittenFields(p) != map[] && NamesSafe(p)
    ensures ReadLine(Line(p, tags, fields)) == Some(Written(p))
  {
    var ts, fs := LineShape(p, tags, fields);
    ReadEscaped(MEASUREMENT, {',', ' '}, p.measurement, Body(p, ts, fs));
    ReadBodyPrinted(p, ts, fs);
  }

  /** What the line carries: the tags with a value, the fields with a format, the measurement and the time. */
  lemma LineCarries(p: Point, tags: seq<string>, fields: seq<string>, name: string)
    requires Orders(p, tags, fields) && NamesSafe(p) && WrittenFields(p) != map[]
    ensures var q := ReadLine(Line(p, tags, fields));
            && q.Some? && q.value.measurement == p.measurement && q.value.time == p.time
            && (name in q.value.tags <==> name in p.tags && p.tags[name] != "")
            && (name in q.value.tags ==> q.value.tags[name] == p.tags[name])
            && (name in q.value.fields <==> name in p.fields && !p.fields[name].Unsupported?)
            && (name in q.value.fields ==> q.value.fields[name] == p.fields[name])
  {
    LineRoundTrip(p, tags, fields);
  }

  lemma NoneWritten(p: Point, ts: seq<string>)
    requires multiset(ts) == multiset(WrittenTags(p).Keys) && ts == []
    ensures WrittenTags(p) == map[]
  {
    assert forall tag :: tag in WrittenTags(p) ==> tag in multiset(ts);
  }

  // ---------- why names must be safe ----------

  lemma ReadKeySafe(s: string)
    requires ReadKey(s).Some?
    ensures !EndsInBackslash(ReadKey(s).value.0)
  {
    ReadNeverEndsInBackslash(KEYS, {'='}, s);
  }

  lemma {:induction false} ReadTagsSafe(s: string, i: nat)
    requires ReadTags(s).Some? && i < |ReadTags(s).value.pairs|
    ensures !EndsInBackslash(ReadTags(s).value.pairs[i].0) && !EndsInBackslash(ReadTags(s).value.pairs[i].1)
    decreases |s|
  {
    ReadKeySafe(s);
    var key := ReadKey(s).value;
    ReadNeverEndsInBackslash(TAG_VALUES, {',', ' '}, key.1);
    var value := ReadText(TAG_VALUES, {',', ' '}, key.1);
    if value.1[0] != ' ' && i > 0 { ReadTagsSafe(value.1[1..], i - 1); }
  }

  lemma {:induction false} ReadFieldsSafe(s: string, i: nat)
    requires ReadFields(s).Some? && i < |ReadFields(s).value.pairs|
    ensures !EndsInBackslash(ReadFields(s).value.pairs[i].0)
    decreases |s|
  {
    ReadKeySafe(s);
    if i > 0 { ReadFieldsSafe(ReadValue(ReadKey(s).value.1).value.1[1..], i - 1); }
  }

  lemma {:induction false} MapOfFrom<V>(pairs: seq<(string, V)>, k: string) returns (i: nat)
    requires k in MapOf(pairs)
    ensures i < |pairs| && pairs[i] == (k, MapOf(pairs)[k])
  {
    if k == pairs[0].0 {
      i := 0;
    } else {
      i := MapOfFrom(pairs[1..], k);
      i := i + 1;
    }
  }

  /** A point read from any line at all has safe names: the line protocol cannot carry the others. */
  lemma ReadLineSafe(s: string)
    requires ReadLine(s).Some?
    ensures var p := ReadLine(s).value;
            && !EndsInBackslash(p.measurement)
            && (forall tag :: tag in p.tags ==> !EndsInBackslash(tag) && !EndsInBackslash(p.tags[tag]))
            && (forall field :: field in p.fields ==> !EndsInBackslash(field))
  {
    ReadNeverEndsInBackslash(MEASUREMENT, {',', ' '}, s);
    var body := ReadText(MEASUREMENT, {',', ' '}, s).1;
    if body[0] != ',' {
      ReadRestSafe(body, "", map[]);
    } else {
      var tags := ReadTags(body[1..]).value;
      ReadRestSafe(tags.rest, "", MapOf(tags.pairs));
      forall tag | tag in MapOf(tags.pairs) ensures !EndsInBackslash(tag) && !EndsInBackslash(MapOf(tags.pairs)[tag]) {
        var i := MapOfFrom(tags.pairs, tag);
        ReadTagsSafe(body[1..], i);
      }
    }
  }

  lemma ReadRestSafe(s: string, measurement: string, tags: map<string, string>)
    requires s != "" && ReadRest(measurement, tags, s).Some?
    ensures forall field :: field in MapOf(ReadFields(s[1..]).value.pairs) ==> !EndsInBackslash(field)
  {
    var pairs := ReadFields(s[1..]).value.pairs;
    forall field | field in MapOf(pairs) ensures !EndsInBackslash(field) {
      var i := MapOfFrom(pairs, field);
      ReadFieldsSafe(s[1..], i);
    }
  }

  /** Measurement, tags, fields and time are recovered from the line exactly when no written name or
      tag value ends in a backslash; string fields are recovered whatever they contain. */
  lemma LineRoundTripExact(p: Point, tags: seq<string>, fields: seq<string>)
    requires Orders(p, tags, fields) && WrittenFields(p) != map[]
    ensures ReadLine(Line(p, tags, fields)) == Some(Written(p)) <==> NamesSafe(p)
  {
    if NamesSafe(p) {
      LineRoundTrip(p, tags, fields);
    } else if ReadLine(Line(p, tags, fields)) == Some(Written(p)) {
      ReadLineSafe(Line(p, tags, fields));
    }
  }

  /** So two points with safe names have the same line only if they carry the same. */
  lemma LineDecodesUniquely(p: Point, q: Point, tags: seq<string>, fields: seq<string>,
                            tags': seq<string>, fields': seq<string>)
    requires Orders(p, tags, fields) && WrittenFields(p) != map[] && NamesSafe(p)
    requires Orders(q, tags', fields') && WrittenFields(q) != map[] && NamesSafe(q)
    requires Line(p, tags, fields) == Line(q, tags', fields')
    ensures Written(p) == Written(q)
  {
    LineRoundTrip(p, tags, fields);
    LineRoundTrip(q, tags', fields');
  }
}
