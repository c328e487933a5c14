/** What the printed filter of a TICKscript means: its lambda text is parsed as a boolean expression,
    and the points where it holds are compared with the points the query configuration selects. */
module LambdaText {
  import opened Wrappers
  import opened Text
  import opened Literals
  import opened TagLogic
  import opened WhereFilter
  import Conditions

  // ---------- the expressions of a lambda ----------

  datatype Node =
    | True
    | Present(field: string)
    | Compare(filter: TagFilter)
    | And(left: Node, right: Node)
    | Or(left: Node, right: Node)

  /** Where an expression holds, with every field present. */
  predicate Holds(n: Node, p: Point) {
    match n
    case True => true
    case Present(_) => true
    case Compare(f) => FilterHolds(f, p)
    case And(left, right) => Holds(left, p) && Holds(right, p)
    case Or(left, right) => Holds(left, p) || Holds(right, p)
  }

  // ---------- parsing ----------

  datatype Parsed = Parsed(node: Node, rest: string)

  /** The word after spaces, and what follows it. */
  function Word(s: string, word: string): (r: Option<string>)
    ensures r.Some? ==> |r.value| + |word| <= |s|
  {
    var t := SkipSpace(s);
    if word <= t then Some(t[|word|..]) else None
  }

  predicate InWord(c: char) {
    'a' <= c <= 'z' || 'A' <= c <= 'Z' || '0' <= c <= '9' || c == '_'
  }

  predicate WordEnds(rest: string) {
    rest == "" || !InWord(rest[0])
  }

  /** A word of letters, which does not go on. */
  function Keyword(s: string, word: string): (r: Option<string>)
    ensures r.Some? ==> |r.value| + |word| <= |s|
  {
    match Word(s, word)
    case None => None
    case Some(rest) => if WordEnds(rest) then Some(rest) else None
  }

  /** OR binds weaker than AND, and AND weaker than a comparison. */
  function ParseOr(s: string): (r: Option<Parsed>)
    ensures r.Some? ==> |r.value.rest| < |s|
    decreases |s|, 2
  {
    match ParseAnd(s)
    case None => None
    case Some(left) =>
      match Keyword(left.rest, "OR")
      case None => Some(left)
      case Some(more) =>
        match ParseOr(more)
        case None => None
        case Some(right) => Some(Parsed(Or(left.node, right.node), right.rest))
  }

  function ParseAnd(s: string): (r: Option<Parsed>)
    ensures r.Some? ==> |r.value.rest| < |s|
    decreases |s|, 1
  {
    match ParseAtom(s)
    case None => None
    case Some(left) =>
      match Keyword(left.rest, "AND")
      case None => Some(left)
      case Some(more) =>
        match ParseAnd(more)
        case None => None
        case Some(right) => Some(Parsed(And(left.node, right.node), right.rest))
  }

  function ParseAtom(s: string): (r: Option<Parsed>)
    ensures r.Some? ==> |r.value.rest| < |s|
    decreases |s|, 0
  {
    var t := SkipSpace(s);
    if t == "" then None
    else if t[0] == '(' then
      match ParseOr(t[1..])
      case None => None
      case Some(inner) =>
        match Word(inner.rest, ")")
        case None => None
        case Some(rest) => Some(Parsed(inner.node, rest))
    else if t[0] == '"' then ParseComparison(t[1..])
    else if "isPresent(\"" <= t then ParsePresent(t[11..])
    else if "TRUE" <= t && WordEnds(t[4..]) then Some(Parsed(True, t[4..]))
    else None
  }

  /** A reference, an operator and a string, from behind the first quote. */
  function ParseComparison(s: string): (r: Option<Parsed>)
    ensures r.Some? ==> |r.value.rest| <= |s|
  {
    match ReadQuoted('"', s)
    case None => None
    case Some(tag) =>
      if Word(tag.1, "==").Some? then ParseValue(Equal, tag.0, Word(tag.1, "==").value)
      else if Word(tag.1, "!=").Some? then ParseValue(Unequal, tag.0, Word(tag.1, "!=").value)
      else None
  }

  function ParseValue(op: Cmp, tag: string, s: string): (r: Option<Parsed>)
    ensures r.Some? ==> |r.value.rest| <= |s|
  {
    match Word(s, "'")
    case None => None
    case Some(text) =>
      match ReadQuoted('\'', text)
      case None => None
      case Some(value) => Some(Parsed(Compare(TagFilter(op, tag, value.0)), value.1))
  }

  /** The argument and the parenthesis of isPresent, from behind the first quote. */
  function ParsePresent(s: string): (r: Option<Parsed>)
    ensures r.Some? ==> |r.value.rest| <= |s|
  {
    match ReadQuoted('"', s)
    case None => None
    case Some(field) =>
      match Word(field.1, ")")
      case None => None
      case Some(rest) => Some(Parsed(Present(field.0), rest))
  }

  /** A lambda text that is one expression to its end. */
  function ParseLambda(s: string): Option<Node> {
    match ParseOr(s)
    case None => None
    case Some(r) => if SkipSpace(r.rest) == "" then Some(r.node) else None
  }

  // ---------- parsing what was printed ----------

  /** The text is parsed as the node, whatever follows it. */
  ghost predicate Reads(text: string, n: Node) {
    forall rest {:trigger ParseAtom(text + rest)} :: ParseAtom(text + rest) == Some(Parsed(n, rest))
  }

  lemma SpaceThen(z: string)
    ensures SkipSpace(" " + z) == SkipSpace(z)
    ensures z != "" && !IsSpace(z[0]) ==> SkipSpace(z) == z
  {
    assert (" " + z)[1..] == z;
  }

  lemma WordAfterSpace(word: string, z: string)
    requires word != "" && !IsSpace(word[0])
    ensures Word(word + z, word) == Some(z) && Word(" " + (word + z), word) == Some(z)
  {
    SpaceThen(word + z);
    assert (word + z)[|word|..] == z;
  }

  lemma WordDiffers(word: string, z: string, other: string)
    requires word != "" && !IsSpace(word[0]) && other != "" && other[0] != word[0]
    ensures Word(word + z, other) == None && Word(" " + (word + z), other) == None
  {
    SpaceThen(word + z);
  }

  lemma KeywordAfterSpace(word: string, z: string)
    requires word != "" && !IsSpace(word[0])
    ensures Keyword(" " + (word + (" " + z)), word) == Some(" " + z)
  {
    WordAfterSpace(word, " " + z);
  }

  lemma SpaceBefore(s: string)
    ensures ParseAtom(" " + s) == ParseAtom(s) && ParseAnd(" " + s) == ParseAnd(s) && ParseOr(" " + s) == ParseOr(s)
  {
    SpaceThen(s);
  }

  lemma ValueReads(f: TagFilter, rest: string)
    requires RawSafe('\'', f.value)
    ensures ParseValue(f.op, f.tag, " " + ("'" + (f.value + ['\''] + rest))) == Some(Parsed(Compare(f), rest))
  {
    WordAfterSpace("'", f.value + ['\''] + rest);
    RawRoundTripExact('\'', f.value, rest);
  }

  lemma ComparisonReads(f: TagFilter, rest: string)
    requires RawSafe('"', f.tag) && RawSafe('\'', f.value)
    ensures ParseComparison(f.tag + ['"'] + (" " + (OpText(f.op) + (" " + ("'" + (f.value + ['\''] + rest))))))
         == Some(Parsed(Compare(f), rest))
  {
    var value := " " + ("'" + (f.value + ['\''] + rest));
    var after := " " + (OpText(f.op) + value);
    RawRoundTripExact('"', f.tag, after);
    WordAfterSpace(OpText(f.op), value);
    if f.op == Unequal { WordDiffers("!=", value, "=="); }
    ValueReads(f, rest);
  }

  lemma CondReads(f: TagFilter)
    requires RawSafe('"', f.tag) && RawSafe('\'', f.value)
    ensures Reads(Cond(f), Compare(f))
  {
    forall rest ensures ParseAtom(Cond(f) + rest) == Some(Parsed(Compare(f), rest)) {
      var text := Cond(f) + rest;
      assert text[0] == '"' && SkipSpace(text) == text;
      CondText(f, rest);
      ComparisonReads(f, rest);
    }
  }

  lemma CondText(f: TagFilter, rest: string)
    ensures (Cond(f) + rest)[1..]
         == f.tag + ['"'] + (" " + (OpText(f.op) + (" " + ("'" + (f.value + ['\''] + rest)))))
  {
  }

  function Guard(field: string): string {
    "isPresent(\"" + field + "\")"
  }

  lemma GuardReads(field: string)
    requires RawSafe('"', field)
    ensures Reads(Guard(field), Present(field))
  {
    forall rest ensures ParseAtom(Guard(field) + rest) == Some(Parsed(Present(field), rest)) {
      var text := Guard(field) + rest;
      assert text[0] == 'i' && SkipSpace(text) == text;
      assert text == "isPresent(\"" + (field + ['"'] + (")" + rest));
      assert text[11..] == field + ['"'] + (")" + rest);
      RawRoundTripExact('"', field, ")" + rest);
      WordAfterSpace(")", rest);
    }
  }

  function Conj(nodes: seq<Node>): Node
    requires nodes != []
  {
    if |nodes| == 1 then nodes[0] else And(nodes[0], Conj(nodes[1..]))
  }

  function Disj(nodes: seq<Node>): Node
    requires nodes != []
  {
    if |nodes| == 1 then nodes[0] else Or(nodes[0], Disj(nodes[1..]))
  }

  lemma {:induction false} ConjHolds(nodes: seq<Node>, p: Point)
    requires nodes != []
    ensures Holds(Conj(nodes), p) <==> forall i :: 0 <= i < |nodes| ==> Holds(nodes[i], p)
  {
    if |nodes| > 1 {
      ConjHolds(nodes[1..], p);
      assert forall i :: 1 <= i < |nodes| ==> nodes[i] == nodes[1..][i - 1];
    }
  }

  lemma {:induction false} DisjHolds(nodes: seq<Node>, p: Point)
    requires nodes != []
    ensures Holds(Disj(nodes), p) <==> exists i :: 0 <= i < |nodes| && Holds(nodes[i], p)
  {
    if |nodes| > 1 {
      DisjHolds(nodes[1..], p);
      assert forall i :: 1 <= i < |nodes| ==> nodes[i] == nodes[1..][i - 1];
    }
  }

  ghost predicate AllRead(parts: seq<string>, nodes: seq<Node>) {
    |parts| == |nodes| && forall i :: 0 <= i < |parts| ==> Reads(parts[i], nodes[i])
  }

  lemma AndText(more: string)
    ensures Keyword(" AND " + more, "AND") == Some(" " + more)
  {
    assert " AND " + more == " " + ("AND" + (" " + more));
    KeywordAfterSpace("AND", more);
  }

  lemma OrText(more: string)
    ensures Keyword(" OR " + more, "AND") == None && Keyword(" OR " + more, "OR") == Some(" " + more)
  {
    assert " OR " + more == " " + ("OR" + (" " + more));
    KeywordAfterSpace("OR", more);
    WordDiffers("OR", " " + more, "AND");
  }

  lemma ParseAndStep(s: string, left: Parsed, more: string)
    requires ParseAtom(s) == Some(left) && Keyword(left.rest, "AND") == Some(more) && ParseAnd(more).Some?
    ensures ParseAnd(s) == Some(Parsed(And(left.node, ParseAnd(more).value.node), ParseAnd(more).value.rest))
  {
  }

  lemma ParseOrStep(s: string, left: Parsed, more: string)
    requires ParseAnd(s) == Some(left) && Keyword(left.rest, "OR") == Some(more) && ParseOr(more).Some?
    ensures ParseOr(s) == Some(Parsed(Or(left.node, ParseOr(more).value.node), ParseOr(more).value.rest))
  {
  }

  lemma AtomIsAnd(s: string, left: Parsed)
    requires ParseAtom(s) == Some(left) && Keyword(left.rest, "AND") == None
    ensures ParseAnd(s) == Some(left)
  {
  }

  lemma AndStep(part: string, n: Node, more: string, right: Parsed)
    requires Reads(part, n) && ParseAnd(more) == Some(right)
    ensures ParseAnd(part + (" AND " + more)) == Some(Parsed(And(n, right.node), right.rest))
  {
    var after := " AND " + more;
    assert ParseAtom(part + after) == Some(Parsed(n, after));
    AndText(more);
    SpaceBefore(more);
    ParseAndStep(part + after, Parsed(n, after), " " + more);
  }

  lemma OrStep(part: string, n: Node, more: string, right: Parsed)
    requires Reads(part, n) && ParseOr(more) == Some(right)
    ensures ParseOr(part + (" OR " + more)) == Some(Parsed(Or(n, right.node), right.rest))
  {
    var after := " OR " + more;
    assert ParseAtom(part + after) == Some(Parsed(n, after));
    OrText(more);
    SpaceBefore(more);
    AtomIsAnd(part + after, Parsed(n, after));
    ParseOrStep(part + after, Parsed(n, after), " " + more);
  }

  lemma {:induction false} AndReads(parts: seq<string>, nodes: seq<Node>, rest: string)
    requires AllRead(parts, nodes) && parts != [] && Word(rest, "AND").None?
    ensures ParseAnd(Join(parts, " AND ") + rest) == Some(Parsed(Conj(nodes), rest))
  {
    assert Reads(parts[0], nodes[0]);
    if |parts| > 1 {
      AndReads(parts[1..], nodes[1..], rest);
      JoinStep(parts, " AND ", rest);
      AndStep(parts[0], nodes[0], Join(parts[1..], " AND ") + rest, Parsed(Conj(nodes[1..]), rest));
    } else {
      assert ParseAtom(parts[0] + rest) == Some(Parsed(nodes[0], rest));
    }
  }

  lemma {:induction false} OrReads(parts: seq<string>, nodes: seq<Node>, rest: string)
    requires AllRead(parts, nodes) && parts != [] && Word(rest, "AND").None? && Word(rest, "OR").None?
    ensures ParseOr(Join(parts, " OR ") + rest) == Some(Parsed(Disj(nodes), rest))
  {
    assert Reads(parts[0], nodes[0]);
    if |parts| > 1 {
      OrReads(parts[1..], nodes[1..], rest);
      JoinStep(parts, " OR ", rest);
      OrStep(parts[0], nodes[0], Join(parts[1..], " OR ") + rest, Parsed(Disj(nodes[1..]), rest));
    } else {
      assert ParseAtom(parts[0] + rest) == Some(Parsed(nodes[0], rest));
    }
  }

  // ---------- the group of a tag ----------

  function Comparison(f: TagFilter): Node {
    Compare(f)
  }

  /** What the group of a tag should mean: one of its values, or none of them. */
  function TagNode(q: QueryConfig, tag: string): Node
    requires TagConds(q, tag) != []
  {
    var nodes := Map(Comparison, TagConds(q, tag));
    if q.areTagsAccepted then Disj(nodes) else Conj(nodes)
  }

  /** Every tag has a value, and no name or value ends the quotes it is printed in. */
  predicate TagsPlain(q: QueryConfig) {
    forall tag :: tag in q.tags ==>
      q.tags[tag] != [] && RawSafe('"', tag) && forall v :: v in q.tags[tag] ==> RawSafe('\'', v)
  }

  lemma GroupReads(q: QueryConfig, tag: string)
    requires TagsPlain(q) && tag in q.tags
    ensures Reads(Group(q, tag), TagNode(q, tag))
  {
    var conds := TagConds(q, tag);
    var nodes := Map(Comparison, conds);
    forall i | 0 <= i < |conds| ensures Reads(Map(Cond, conds)[i], nodes[i]) {
      assert conds[i].value in q.tags[tag];
      CondReads(conds[i]);
    }
    forall rest ensures ParseAtom(Group(q, tag) + rest) == Some(Parsed(TagNode(q, tag), rest)) {
      GroupText(Map(Cond, conds), nodes, q.areTagsAccepted, rest);
    }
  }

  lemma GroupText(parts: seq<string>, nodes: seq<Node>, accepted: bool, rest: string)
    requires AllRead(parts, nodes) && parts != []
    ensures ParseAtom("(" + Join(parts, if accepted then " OR " else " AND ") + ")" + rest)
         == Some(Parsed(if accepted then Disj(nodes) else Conj(nodes), rest))
  {
    var inner := Join(parts, if accepted then " OR " else " AND ");
    var text := "(" + inner + ")" + rest;
    assert text[0] == '(' && SkipSpace(text) == text && text[1..] == inner + (")" + rest);
    WordAfterSpace(")", rest);
    WordDiffers(")", rest, "AND");
    WordDiffers(")", rest, "OR");
    if accepted { OrReads(parts, nodes, ")" + rest); } else { AndReads(parts, nodes, ")" + rest); }
  }

  /** A group holds where the tag has one of the accepted values, or none of the rejected. */
  lemma TagNodeHolds(q: QueryConfig, tag: string, p: Point)
    requires tag in q.tags && q.tags[tag] != []
    ensures Holds(TagNode(q, tag), p) <==> (p(tag) in q.tags[tag] <==> q.areTagsAccepted)
  {
    var nodes := Map(Comparison, TagConds(q, tag));
    if q.areTagsAccepted { DisjHolds(nodes, p); } else { ConjHolds(nodes, p); }
    assert forall i :: 0 <= i < |nodes| ==> nodes[i] == Compare(TagFilter(Operator(q), tag, q.tags[tag][i]));
    assert forall i :: 0 <= i < |nodes| ==> (Holds(nodes[i], p) <==> (p(tag) == q.tags[tag][i] <==> q.areTagsAccepted));
  }

  // ---------- the whole filter ----------

  /** The names that are guarded: those of the fields, and of the fields in function arguments. */
  function Guarded(fields: seq<Field>): seq<string> {
    if fields == [] then []
    else (if fields[0].kind == "field" then [fields[0].value] else Guarded(fields[0].args)) + Guarded(fields[1..])
  }

  predicate FieldsPlain(fields: seq<Field>) {
    forall name :: name in Guarded(fields) ==> RawSafe('"', name)
  }

  lemma {:induction false} PresenceIsGuarded(fields: seq<Field>)
    ensures Presence(fields) == Map(Guard, Guarded(fields))
  {
    if fields != [] {
      PresenceIsGuarded(fields[0].args);
      PresenceIsGuarded(fields[1..]);
    }
  }

  /** A part of the filter: the group of a tag, or a guard. */
  ghost predicate IsPart(q: QueryConfig, part: string, n: Node) {
    || (exists tag :: tag in q.tags && TagConds(q, tag) != [] && part == Group(q, tag) && n == TagNode(q, tag))
    || (exists name :: name in Guarded(q.fields) && part == Guard(name) && n == Present(name))
  }

  lemma PartReads(q: QueryConfig, part: string, n: Node)
    requires TagsPlain(q) && FieldsPlain(q.fields) && IsPart(q, part, n)
    ensures Reads(part, n)
  {
    if tag :| tag in q.tags && TagConds(q, tag) != [] && part == Group(q, tag) && n == TagNode(q, tag) {
      GroupReads(q, tag);
    } else {
      var name :| name in Guarded(q.fields) && part == Guard(name) && n == Present(name);
      GuardReads(name);
    }
  }

  /** One text has one meaning. */
  lemma ReadsOnce(text: string, m: Node, n: Node)
    requires Reads(text, m) && Reads(text, n)
    ensures m == n
  {
    assert ParseAtom(text + "") == Some(Parsed(m, ""));
  }

  ghost function PartNode(q: QueryConfig, part: string): (n: Node)
    requires SomePart(q, part)
    ensures IsPart(q, part, n)
  {
    var n :| IsPart(q, part, n);
    n
  }

  ghost predicate SomePart(q: QueryConfig, part: string) {
    exists n :: IsPart(q, part, n)
  }

  /** What is printed, sorted or not: a group for each tag, and guards. */
  ghost predicate PartsOf(q: QueryConfig, parts: seq<string>) {
    && (forall part :: part in parts ==> SomePart(q, part))
    && (forall tag :: tag in q.tags ==> Group(q, tag) in parts)
  }

  lemma GroupParts(q: QueryConfig, order: seq<string>)
    requires Enumerates(order, q) && TagsPlain(q)
    ensures PartsOf(q, Map(GroupOf(q), order))
  {
    var groups := Map(GroupOf(q), order);
    forall i | 0 <= i < |groups| ensures SomePart(q, groups[i]) {
      assert order[i] in multiset(order) && order[i] in q.tags;
      assert IsPart(q, groups[i], TagNode(q, order[i]));
    }
    forall tag | tag in q.tags ensures Group(q, tag) in groups {
      assert tag in multiset(order);
      var i :| 0 <= i < |order| && order[i] == tag;
      assert groups[i] == Group(q, tag);
    }
  }

  lemma GuardParts(q: QueryConfig, part: string)
    requires part in Presence(q.fields)
    ensures SomePart(q, part)
  {
    PresenceIsGuarded(q.fields);
    var i :| 0 <= i < |Presence(q.fields)| && Presence(q.fields)[i] == part;
    assert IsPart(q, part, Present(Guarded(q.fields)[i]));
  }

  lemma PrintedParts(q: QueryConfig, order: seq<string>)
    requires Enumerates(order, q) && TagsPlain(q)
    ensures PartsOf(q, Map(GroupOf(q), order) + Presence(q.fields))
  {
    GroupParts(q, order);
    forall part | part in Presence(q.fields) ensures SomePart(q, part) { GuardParts(q, part); }
  }

  lemma SortedParts(q: QueryConfig, outer: seq<string>)
    requires PartsOf(q, outer)
    ensures PartsOf(q, Sort(outer)) && |Sort(outer)| == |outer|
  {
    SortLength(outer);
    forall part ensures part in outer <==> part in Sort(outer) {
      assert part in multiset(outer) <==> part in multiset(Sort(outer));
    }
  }

  /** The expressions of all parts together hold where the configuration selects. */
  lemma PartsHold(q: QueryConfig, parts: seq<string>, nodes: seq<Node>, p: Point)
    requires TagsPlain(q) && FieldsPlain(q.fields) && |nodes| == |parts| > 0
    requires forall i :: 0 <= i < |parts| ==> IsPart(q, parts[i], nodes[i])
    requires forall tag :: tag in q.tags ==> Group(q, tag) in parts
    ensures Holds(Conj(nodes), p) <==> Selects(TagConfig(q.tags, q.areTagsAccepted), p)
  {
    ConjHolds(nodes, p);
    forall tag | tag in q.tags
      ensures exists i :: 0 <= i < |nodes| && (Holds(nodes[i], p) <==> (p(tag) in q.tags[tag] <==> q.areTagsAccepted))
    {
      var i :| 0 <= i < |parts| && parts[i] == Group(q, tag);
      PartReads(q, parts[i], nodes[i]);
      GroupReads(q, tag);
      ReadsOnce(parts[i], nodes[i], TagNode(q, tag));
      TagNodeHolds(q, tag, p);
    }
    if Selects(TagConfig(q.tags, q.areTagsAccepted), p) {
      forall i | 0 <= i < |nodes| ensures Holds(nodes[i], p) { PartHolds(q, parts[i], nodes[i], p); }
    }
  }

  lemma PartHolds(q: QueryConfig, part: string, n: Node, p: Point)
    requires TagsPlain(q) && IsPart(q, part, n) && Selects(TagConfig(q.tags, q.areTagsAccepted), p)
    ensures Holds(n, p)
  {
    if tag :| tag in q.tags && TagConds(q, tag) != [] && part == Group(q, tag) && n == TagNode(q, tag) {
      TagNodeHolds(q, tag, p);
    }
  }

  lemma PartNodes(q: QueryConfig, parts: seq<string>) returns (nodes: seq<Node>)
    requires TagsPlain(q) && FieldsPlain(q.fields) && PartsOf(q, parts)
    ensures AllRead(parts, nodes) && forall i :: 0 <= i < |parts| ==> IsPart(q, parts[i], nodes[i])
  {
    forall i | 0 <= i < |parts| ensures SomePart(q, parts[i]) { assert parts[i] in parts; }
    nodes := seq(|parts|, i requires 0 <= i < |parts| => PartNode(q, parts[i]));
    forall i | 0 <= i < |parts| ensures Reads(parts[i], nodes[i]) { PartReads(q, parts[i], nodes[i]); }
  }

  lemma JoinedParses(parts: seq<string>, nodes: seq<Node>)
    requires AllRead(parts, nodes) && parts != []
    ensures ParseLambda(Join(parts, " AND ")) == Some(Conj(nodes))
  {
    AndReads(parts, nodes, "");
    assert Join(parts, " AND ") + "" == Join(parts, " AND ");
  }

  lemma JoinedMeaning(q: QueryConfig, parts: seq<string>, p: Point)
    requires TagsPlain(q) && FieldsPlain(q.fields) && parts != [] && PartsOf(q, parts)
    ensures var n := ParseLambda(Join(parts, " AND "));
            n.Some? && (Holds(n.value, p) <==> Selects(TagConfig(q.tags, q.areTagsAccepted), p))
  {
    var nodes := PartNodes(q, parts);
    JoinedParses(parts, nodes);
    PartsHold(q, parts, nodes, p);
  }

  /** The printed lambda is an expression that holds exactly where the query configuration selects,
      whatever order its tags are walked in. */
  lemma PrintedMeaning(q: QueryConfig, order: seq<string>, p: Point)
    requires Enumerates(order, q) && TagsPlain(q) && FieldsPlain(q.fields)
    ensures var n := ParseLambda(Lambda(q, order));
            n.Some? && (Holds(n.value, p) <==> Selects(TagConfig(q.tags, q.areTagsAccepted), p))
  {
    var outer := Map(GroupOf(q), order) + Presence(q.fields);
    PrintedParts(q, order);
    if outer == [] {
      NothingPrinted();
    } else {
      SortedParts(q, outer);
      JoinedMeaning(q, Sort(outer), p);
    }
  }

  lemma NothingPrinted()
    ensures ParseLambda("TRUE") == Some(True)
  {
    assert SkipSpace("TRUE") == "TRUE" && "TRUE"[4..] == "";
  }

  // ---------- a value that closes its quotes ----------

  /** A value with the text of a second comparison of its tag. */
  function Spliced(tag: string, a: string, b: string): string {
    a + "' OR \"" + tag + "\" == '" + b
  }

  function Accepting(tag: string, values: seq<string>): QueryConfig {
    QueryConfig(map[tag := values], true, [])
  }

  /** It is printed like the two values, so the lambda holds at those, and the configuration at neither. */
  lemma SplicedMeaning(tag: string, a: string, b: string, p: Point)
    requires RawSafe('"', tag) && RawSafe('\'', a) && RawSafe('\'', b)
    ensures var q := Accepting(tag, [Spliced(tag, a, b)]);
            var n := ParseLambda(Lambda(q, [tag]));
            && Enumerates([tag], q)
            && n.Some? && (Holds(n.value, p) <==> p(tag) == a || p(tag) == b)
            && (Selects(TagConfig(q.tags, true), p) <==> p(tag) == Spliced(tag, a, b))
  {
    var q, two := Accepting(tag, [Spliced(tag, a, b)]), Accepting(tag, [a, b]);
    SplicedLambda(tag, a, b);
    OneTag(tag, [Spliced(tag, a, b)], p);
    OneTag(tag, [a, b], p);
    PrintedMeaning(two, [tag], p);
  }

  lemma OneTag(tag: string, values: seq<string>, p: Point)
    ensures var q := Accepting(tag, values);
            Enumerates([tag], q) && (Selects(TagConfig(q.tags, true), p) <==> p(tag) in values)
  {
    assert Accepting(tag, values).tags.Keys == {tag} && multiset([tag]) == multiset({tag});
  }

  lemma SplicedLambda(tag: string, a: string, b: string)
    ensures Lambda(Accepting(tag, [Spliced(tag, a, b)]), [tag]) == Lambda(Accepting(tag, [a, b]), [tag])
  {
    var q, two := Accepting(tag, [Spliced(tag, a, b)]), Accepting(tag, [a, b]);
    SplicedGroup(tag, a, b);
    assert Map(GroupOf(q), [tag]) == Map(GroupOf(two), [tag]);
  }

  lemma SplicedGroup(tag: string, a: string, b: string)
    ensures Group(Accepting(tag, [Spliced(tag, a, b)]), tag) == Group(Accepting(tag, [a, b]), tag)
  {
    var f, g, h := TagFilter(Equal, tag, Spliced(tag, a, b)), TagFilter(Equal, tag, a), TagFilter(Equal, tag, b);
    assert TagConds(Accepting(tag, [Spliced(tag, a, b)]), tag) == [f];
    assert TagConds(Accepting(tag, [a, b]), tag) == [g, h];
    assert Map(Cond, [f]) == [Cond(f)] && Map(Cond, [g, h]) == [Cond(g), Cond(h)];
    SplicedCond(tag, a, b);
    JoinOfTwo(Cond(g), Cond(h), " OR ");
  }

  lemma JoinOfTwo(x: string, y: string, sep: string)
    ensures Join([x], sep) == x && Join([x, y], sep) == x + sep + y
  {
    assert [x, y][1..] == [y];
  }

  lemma SplicedCond(tag: string, a: string, b: string)
    ensures Cond(TagFilter(Equal, tag, Spliced(tag, a, b)))
         == Cond(TagFilter(Equal, tag, a)) + " OR " + Cond(TagFilter(Equal, tag, b))
  {
    CondOf(tag, Spliced(tag, a, b));
    CondOf(tag, a);
    CondOf(tag, b);
    assert "' OR \"" == "'" + " OR " + "\"";
    Glued("\"", tag, "\" == '", a, "'", " OR ", b);
  }

  lemma CondOf(tag: string, value: string)
    ensures Cond(TagFilter(Equal, tag, value)) == "\"" + tag + "\" == '" + value + "'"
  {
    assert "\" " + "==" + " '" == "\" == '";
  }

  lemma Glued(q: string, tag: string, m: string, a: string, e: string, or: string, b: string)
    ensures q + tag + m + (a + (e + or + q) + tag + m + b) + e
         == (q + tag + m + a + e) + or + (q + tag + m + b + e)
  {
  }

  /** A configuration that prints a lambda with another meaning: where the tag is a it holds, though a is
      not the accepted value. */
  lemma SplicedIsMistaken()
    ensures var q := Accepting("t", ["a' OR \"t\" == 'b"]);
            var n := ParseLambda(Lambda(q, ["t"]));
            n.Some? && Holds(n.value, tag => "a") && !Selects(TagConfig(q.tags, true), tag => "a")
  {
    assert Spliced("t", "a", "b") == "a' OR \"t\" == 'b";
    SplicedMeaning("t", "a", "b", tag => "a");
  }

  // ---------- from the condition to the script ----------

  function ConfigOf(e: Expr, fields: seq<Field>): QueryConfig
    requires Reduced(e)
  {
    QueryConfig(Grouped(Comparisons(e)), Accepts(Comparisons(e)), fields)
  }

  /** On the trees whose meaning is kept, the lambda that is printed for a condition holds exactly at
      the points where the condition does. */
  lemma ConditionPrinted(e: Expr, fields: seq<Field>, order: seq<string>, p: Point)
    requires Reduced(e) && (AcceptedTree(e) || RejectedTree(e))
    requires Enumerates(order, ConfigOf(e, fields)) && TagsPlain(ConfigOf(e, fields)) && FieldsPlain(fields)
    ensures IsTagLogic(e) == Some(Comparisons(e))
    ensures var n := ParseLambda(Lambda(ConfigOf(e, fields), order));
            n.Some? && (Holds(n.value, p) <==> Eval(e, p))
  {
    ConditionMeaningKept(e, p);
    PrintedMeaning(ConfigOf(e, fields), order, p);
  }

  /** For any condition that is accepted, the printed lambda is right at every point exactly when the
      condition is one whose meaning grouping keeps. */
  lemma ConditionPrintedExact(e: Expr, fields: seq<Field>, order: seq<string>)
    requires Reduced(e) && IsTagLogic(e).Some?
    requires Enumerates(order, ConfigOf(e, fields)) && TagsPlain(ConfigOf(e, fields)) && FieldsPlain(fields)
    ensures var n := ParseLambda(Lambda(ConfigOf(e, fields), order));
            n.Some? && ((forall p :: Holds(n.value, p) <==> Eval(e, p)) <==> MeaningKept(e))
  {
    var n := PrintedNode(ConfigOf(e, fields), order);
    KeptByNode(e, n);
  }

  lemma PrintedNode(q: QueryConfig, order: seq<string>) returns (n: Node)
    requires Enumerates(order, q) && TagsPlain(q) && FieldsPlain(q.fields)
    ensures ParseLambda(Lambda(q, order)) == Some(n)
    ensures forall p :: Holds(n, p) <==> Selects(TagConfig(q.tags, q.areTagsAccepted), p)
  {
    PrintedMeaning(q, order, (tag: string) => "");
    n := ParseLambda(Lambda(q, order)).value;
    forall p ensures Holds(n, p) <==> Selects(TagConfig(q.tags, q.areTagsAccepted), p) { PrintedMeaning(q, order, p); }
  }

  lemma KeptByNode(e: Expr, n: Node)
    requires Reduced(e)
    requires forall p :: Holds(n, p) <==> Selects(TagConfig(Grouped(Comparisons(e)), Accepts(Comparisons(e))), p)
    ensures (forall p :: Holds(n, p) <==> Eval(e, p)) <==> MeaningKept(e)
  {
    var config := TagConfig(Grouped(Comparisons(e)), Accepts(Comparisons(e)));
    if MeaningKept(e) {
      forall p ensures Holds(n, p) <==> Eval(e, p) { assert Eval(e, p) <==> Selects(config, p); }
    } else {
      var p :| !(Eval(e, p) <==> Selects(config, p));
      assert !(Holds(n, p) <==> Eval(e, p));
    }
  }

  lemma GroupedNotEmpty(filters: seq<TagFilter>)
    ensures filters != [] ==> Grouped(filters) != map[]
  {
    if filters != [] {
      assert filters[0] in filters;
      assert filters[0].tag in Grouped(filters);
    }
  }

  /** And the filter that is read back from that lambda selects them too. */
  lemma ConditionSurvivesScript(e: Expr, fields: seq<Field>, order: seq<string>, p: Point)
    requires Reduced(e) && (AcceptedTree(e) || RejectedTree(e))
    requires Enumerates(order, ConfigOf(e, fields)) && TagsPlain(ConfigOf(e, fields)) && FieldsPlain(fields)
    requires QuerySafe(ConfigOf(e, fields)) && FieldsSafe(fields)
    ensures var lambda := Lambda(ConfigOf(e, fields), order);
            && var printed, read := ParseLambda(lambda), ReadFilter(lambda);
            && printed.Some? && (Holds(printed.value, p) <==> Eval(e, p))
            && read.Some?
            && (Selects(TagConfig(read.value.tagValues, read.value.operator == Some(Equal)), p) <==> Eval(e, p))
  {
    ConditionPrinted(e, fields, order, p);
    ConditionMeaningKept(e, p);
    GroupedNotEmpty(Comparisons(e));
    if ConfigOf(e, fields).tags == map[] {
      NoTagsRoundTrip(ConfigOf(e, fields), order);
    } else {
      RoundTrip(ConfigOf(e, fields), order);
    }
  }

  /** From a condition as it is written to the script and back: the printed lambda holds, and the filter read
      from it selects, exactly where the condition is true. */
  lemma WrittenSurvivesScript(w: Conditions.Written, fields: seq<Field>, order: seq<string>, p: Point)
    requires Conditions.Valid(w) && (Conditions.EachOneOf(w) || Conditions.NoneOf(w))
    requires var filters := Conditions.Filters(w);
             var q := QueryConfig(Grouped(filters), Accepts(filters), fields);
             Enumerates(order, q) && TagsPlain(q) && FieldsPlain(fields) && QuerySafe(q) && FieldsSafe(fields)
    ensures var filters := Conditions.Filters(w);
            var lambda := Lambda(QueryConfig(Grouped(filters), Accepts(filters), fields), order);
            && var printed, read := ParseLambda(lambda), ReadFilter(lambda);
            && printed.Some? && (Holds(printed.value, p) <==> Conditions.Means(w, p))
            && read.Some?
            && (Selects(TagConfig(read.value.tagValues, read.value.operator == Some(Equal)), p)
                <==> Conditions.Means(w, p))
  {
    Conditions.WrittenIsCondition(w, p);
    if Conditions.EachOneOf(w) { Conditions.EachOneOfIsAccepted(w); } else { Conditions.NoneOfIsRejected(w); }
    ConditionSurvivesScript(Conditions.Spelled(w), fields, order, p);
  }
}
