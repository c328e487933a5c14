/** The whereFilter variable of a TICKscript: printed from a query configuration, and read back
    from the lambda text by the regular expression of the reverse parser. */
module WhereFilter {
  import opened Collections
  import opened Wrappers
  import opened Text
  import opened TagLogic

  datatype Field = Field(value: string, kind: string, args: seq<Field>)

  datatype QueryConfig = QueryConfig(tags: map<string, seq<string>>, areTagsAccepted: bool, fields: seq<Field>)

  // ---------- printing ----------

  function OpText(op: Cmp): string {
    if op == Equal then "==" else "!="
  }

  function Operator(q: QueryConfig): Cmp {
    if q.areTagsAccepted then Equal else Unequal
  }

  function Separator(q: QueryConfig): string {
    if q.areTagsAccepted then " OR " else " AND "
  }

  /** What follows the tag of a comparison. */
  function Tail(f: TagFilter): string {
    "\" " + OpText(f.op) + " '" + f.value + "'"
  }

  function Cond(f: TagFilter): string {
    "\"" + f.tag + Tail(f)
  }

  function Conds(op: Cmp, tag: string, values: seq<string>): (r: seq<TagFilter>)
    ensures |r| == |values| && forall i :: 0 <= i < |r| ==> r[i] == TagFilter(op, tag, values[i])
  {
    seq(|values|, i requires 0 <= i < |values| => TagFilter(op, tag, values[i]))
  }

  function TagConds(q: QueryConfig, tag: string): seq<TagFilter> {
    Conds(Operator(q), tag, if tag in q.tags then q.tags[tag] else [])
  }

  function Group(q: QueryConfig, tag: string): string {
    "(" + Join(Map(Cond, TagConds(q, tag)), Separator(q)) + ")"
  }

  function GroupOf(q: QueryConfig): string -> string {
    (tag: string) => Group(q, tag)
  }

  function Presence(fields: seq<Field>): seq<string> {
    if fields == [] then []
    else
      (if fields[0].kind == "field" then ["isPresent(\"" + fields[0].value + "\")"] else Presence(fields[0].args))
      + Presence(fields[1..])
  }

  /** The text when the tag map is iterated in the given order. */
  function WhereText(q: QueryConfig, order: seq<string>): string {
    "lambda: " + Lambda(q, order)
  }

  function Lambda(q: QueryConfig, order: seq<string>): string {
    var outer := Map(GroupOf(q), order) + Presence(q.fields);
    if outer == [] then "TRUE" else Join(Sort(outer), " AND ")
  }

  ghost predicate Enumerates(order: seq<string>, q: QueryConfig) {
    multiset(order) == multiset(q.tags.Keys)
  }

  ghost predicate GuardsOf(field: Field, guard: string) {
    if field.kind == "field" then guard == "isPresent(\"" + field.value + "\")" else guard in Presence(field.args)
  }

  /** There is a guard for each field, and for each field among the arguments of another, and no other. */
  lemma {:induction false} PresenceExactly(fields: seq<Field>, guard: string)
    ensures guard in Presence(fields) <==> exists i :: 0 <= i < |fields| && GuardsOf(fields[i], guard)
  {
    if fields != [] {
      PresenceExactly(fields[1..], guard);
      assert forall i :: 1 <= i < |fields| ==> fields[i] == fields[1..][i - 1];
      assert guard in Presence(fields) <==> GuardsOf(fields[0], guard) || guard in Presence(fields[1..]);
    }
  }

  /** Whatever the iteration order of the tag map, the text is the same. */
  lemma TextIgnoresOrder(q: QueryConfig, a: seq<string>, b: seq<string>)
    requires Enumerates(a, q) && Enumerates(b, q)
    ensures Lambda(q, a) == Lambda(q, b)
  {
    MapPermutes(GroupOf(q), a, b);
    var x, y := Map(GroupOf(q), a) + Presence(q.fields), Map(GroupOf(q), b) + Presence(q.fields);
    assert |x| == |multiset(x)| == |multiset(y)| == |y|;
    SortPermutes(x, y);
  }

  method AppendFields(outer: seq<string>, fields: seq<Field>) returns (r: seq<string>)
    ensures r == outer + Presence(fields)
    decreases fields
  {
    r := outer;
    for i := 0 to |fields|
      invariant r + Presence(fields[i..]) == outer + Presence(fields)
    {
      var field := fields[i];
      assert fields[i..][1..] == fields[i + 1..];
      if field.kind == "field" {
        r := r + ["isPresent(\"" + field.value + "\")"];
      } else {
        r := AppendFields(r, field.args);
      }
    }
    assert r + [] == r;
  }

  method TagGroup(q: QueryConfig, tag: string) returns (group: string)
    requires tag in q.tags
    ensures group == Group(q, tag)
  {
    var values := q.tags[tag];
    ghost var conds := Map(Cond, TagConds(q, tag));
    var inner: seq<string> := [];
    for i := 0 to |values|
      invariant inner == conds[..i]
    {
      assert conds[i] == Cond(TagFilter(Operator(q), tag, values[i]));
      inner := inner + ["\"" + tag + ("\" " + OpText(Operator(q)) + " '" + values[i] + "'")];
    }
    assert inner == conds;
    group := "(" + Join(inner, Separator(q)) + ")";
  }

  /** The expression of the filter. */
  method Expression(q: QueryConfig) returns (text: string)
    ensures forall order :: Enumerates(order, q) ==> text == Lambda(q, order)
  {
    var outer: seq<string> := [];
    var todo := q.tags.Keys;
    ghost var order: seq<string> := [];
    while todo != {}
      invariant todo <= q.tags.Keys
      invariant multiset(order) + multiset(todo) == multiset(q.tags.Keys)
      invariant outer == Map(GroupOf(q), order)
    {
      var tag :| tag in todo;
      var group := TagGroup(q, tag);
      outer := outer + [group];
      assert Map(GroupOf(q), order + [tag]) == Map(GroupOf(q), order) + [GroupOf(q)(tag)];
      todo := todo - {tag};
      order := order + [tag];
    }
    outer := AppendFields(outer, q.fields);
    text := if |outer| > 0 then Join(Sort(outer), " AND ") else "TRUE";
    assert text == Lambda(q, order);
    forall other | Enumerates(other, q) ensures text == Lambda(q, other) {
      TextIgnoresOrder(q, order, other);
    }
  }

  /** whereFilter. */
  method WhereFilter(config: Option<QueryConfig>) returns (text: string)
    ensures config.None? ==> text == "lambda: TRUE"
    ensures config.Some? ==>
      forall order :: Enumerates(order, config.value) ==> text == WhereText(config.value, order)
  {
    if config.None? {
      return "lambda: TRUE";
    }
    var expression := Expression(config.value);
    text := "lambda: " + expression;
  }

  // ---------- reading ----------

  /** The \s class of the regular expression. */
  predicate IsSpace(c: char) {
    c == ' ' || c == '\t' || c == '\n' || c == '\r' || c == '\U{000C}'
  }

  function SkipSpace(s: string): (r: string)
    ensures |r| <= |s|
    ensures r != "" ==> !IsSpace(r[0])
  {
    if s != "" && IsSpace(s[0]) then SkipSpace(s[1..]) else s
  }

  predicate ValueSafe(value: string) {
    Lacks(value, '\'') && Lacks(value, '\n')
  }

  datatype Opened = Opened(op: Cmp, rest: string)

  /** \s+(==|!=)\s+' at the start of s, and what follows it. */
  function Opening(s: string): (r: Option<Opened>)
    ensures r.Some? ==> |r.value.rest| < |s|
  {
    if s == "" || !IsSpace(s[0]) then None
    else
      var t := SkipSpace(s);
      if |t| < 3 || t[1] != '=' || (t[0] != '=' && t[0] != '!') || !IsSpace(t[2]) then None
      else
        var u := SkipSpace(t[2..]);
        if u == "" || u[0] != '\'' then None
        else Some(Opened(if t[0] == '=' then Equal else Unequal, u[1..]))
  }

  /** (.*)' at the start of s, taking as little as it can; the dot does not match a newline. */
  function Quoted(s: string): (r: Option<(string, string)>)
    ensures r.Some? ==> s == r.value.0 + "'" + r.value.1
    ensures r.Some? ==> ValueSafe(r.value.0)
  {
    if s == "" || s[0] == '\n' then None
    else if s[0] == '\'' then Some(("", s[1..]))
    else
      match Quoted(s[1..])
      case None => None
      case Some(q) => Some(([s[0]] + q.0, q.1))
  }

  datatype Match = Match(filter: TagFilter, rest: string)

  /** (.*)"\s+(==|!=)\s+'(.*)' at the start of s: the tag ends at the first quote from where the
      rest of the pattern matches. */
  function MatchTag(s: string): (r: Option<Match>)
    ensures r.Some? ==> |r.value.rest| < |s|
  {
    if s == "" || s[0] == '\n' then None
    else
      var start := if s[0] == '"' then Opening(s[1..]) else None;
      var quoted := if start.Some? then Quoted(start.value.rest) else None;
      if quoted.Some? then
        Some(Match(TagFilter(start.value.op, "", quoted.value.0), quoted.value.1))
      else
        match MatchTag(s[1..])
        case None => None
        case Some(m) => Some(m.(filter := m.filter.(tag := [s[0]] + m.filter.tag)))
  }

  /** FindAllStringSubmatch: leftmost matches, each search starting where the last match ended. */
  function FindAll(s: string): seq<TagFilter>
    decreases |s|
  {
    if s == "" then []
    else if s[0] == '"' && MatchTag(s[1..]).Some? then
      [MatchTag(s[1..]).value.filter] + FindAll(MatchTag(s[1..]).value.rest)
    else FindAll(s[1..])
  }

  datatype Filter = Filter(tagValues: map<string, seq<string>>, operator: Option<Cmp>)

  /** What a lambda text means to the reverse parser. */
  function ReadFilter(lambda: string): Option<Filter> {
    if lambda == "TRUE" || "isPresent" <= lambda then Some(Filter(map[], None))
    else
      var found := FindAll(lambda);
      if |Operators(found)| != 1 then None
      else Some(Filter(Grouped(found), Some(found[0].op)))
  }

  datatype Var = StringVar(text: string) | DurationVar(nanos: int) | LambdaVar(expression: string)
    | NumberVar(digits: string) | BoolVar(truth: bool) | ListVar(items: seq<Var>)

  /** varWhereFilter; None is the false of its second result. */
  method VarWhereFilter(vars: map<string, Var>) returns (r: Option<Filter>)
    ensures r == if "whereFilter" in vars && vars["whereFilter"].LambdaVar?
                 then ReadFilter(vars["whereFilter"].expression) else None
  {
    if "whereFilter" !in vars || !vars["whereFilter"].LambdaVar? {
      return None;
    }
    var lambda := vars["whereFilter"].expression;
    if lambda == "TRUE" || "isPresent" <= lambda {
      return Some(Filter(map[], None));
    }
    var found := FindAll(lambda);
    var tagValues: map<string, seq<string>> := map[];
    var opSet: set<Cmp> := {};
    for i := 0 to |found|
      invariant tagValues == Grouped(found[..i]) && opSet == Operators(found[..i])
    {
      var f := found[i];
      GroupStep(found, i);
      opSet := opSet + {f.op};
      var values := if f.tag in tagValues then tagValues[f.tag] else [];
      tagValues := tagValues[f.tag := values + [f.value]];
    }
    assert found[..|found|] == found;
    if |opSet| != 1 {
      return None;
    }
    var op :| op in opSet;
    OnlyOperator(found, op);
    r := Some(Filter(tagValues, Some(op)));
  }

  lemma OnlyOperator(found: seq<TagFilter>, op: Cmp)
    requires |Operators(found)| == 1 && op in Operators(found)
    ensures found != [] && found[0].op == op
  {
    assert found[0] in found;
    if found[0].op != op { Smaller({op, found[0].op}, Operators(found)); }
  }

  // ---------- reading what was printed ----------

  /** No double quote in the tag is followed by what starts a comparison. */
  predicate QuotesSafe(tag: string) {
    forall i :: 0 <= i < |tag| && tag[i] == '"' ==> Opening(tag[i + 1..]).None?
  }

  predicate TagSafe(tag: string) {
    Lacks(tag, '\n') && QuotesSafe(tag)
  }

  predicate FilterSafe(f: TagFilter) {
    TagSafe(f.tag) && ValueSafe(f.value)
  }

  /** The caller's side of the round trip: every tag has a value, and names and values are safe. */
  predicate QuerySafe(q: QueryConfig) {
    forall tag :: tag in q.tags ==>
      q.tags[tag] != [] && TagSafe(tag) && forall v :: v in q.tags[tag] ==> ValueSafe(v)
  }

  predicate FieldsSafe(fields: seq<Field>) {
    forall i :: 0 <= i < |Presence(fields)| ==> ValueSafe(Presence(fields)[i])
  }

  lemma {:induction false} SkipSpaceExtends(u: string, z: string)
    requires z != "" && !IsSpace(z[0])
    ensures SkipSpace(u + z) == SkipSpace(u) + z
  {
    if u == "" {
      assert u + z == z;
    } else {
      assert (u + z)[1..] == u[1..] + z;
      SkipSpaceExtends(u[1..], z);
    }
  }

  lemma OpeningExtends(u: string, z: string)
    requires z != "" && z[0] == '"'
    ensures Opening(u + z)
         == if Opening(u).None? then None else Some(Opening(u).value.(rest := Opening(u).value.rest + z))
  {
    SkipSpaceExtends(u, z);
    var t := SkipSpace(u);
    if |t| >= 2 {
      assert (t + z)[2..] == t[2..] + z;
      SkipSpaceExtends(t[2..], z);
      var v := SkipSpace(t[2..]);
      if v != "" { assert (v + z)[1..] == v[1..] + z; }
    }
  }

  lemma OpeningReads(op: Cmp, z: string)
    ensures Opening(" " + OpText(op) + " '" + z) == Some(Opened(op, z))
  {
    var s := " " + OpText(op) + " '" + z;
    assert s[1..] == OpText(op) + (" '" + z);
    var t := SkipSpace(s);
    assert t == SkipSpace(s[1..]) == s[1..];
    assert t[2..] == " '" + z;
    assert (" '" + z)[1..] == "'" + z;
    assert SkipSpace(" '" + z) == SkipSpace("'" + z) == "'" + z;
    assert ("'" + z)[1..] == z;
  }

  lemma {:induction false} QuotedReads(value: string, rest: string)
    requires ValueSafe(value)
    ensures Quoted(value + "'" + rest) == Some((value, rest))
  {
    var s := value + "'" + rest;
    if value == "" {
      assert s[1..] == rest;
    } else {
      assert s[1..] == value[1..] + "'" + rest;
      QuotedReads(value[1..], rest);
      assert value == [value[0]] + value[1..];
    }
  }

  lemma {:induction false} MatchReads(f: TagFilter, rest: string)
    requires FilterSafe(f)
    ensures MatchTag(f.tag + Tail(f) + rest) == Some(Match(f, rest))
    decreases |f.tag|
  {
    var s := f.tag + Tail(f) + rest;
    if f.tag == "" {
      assert s[1..] == " " + OpText(f.op) + " '" + (f.value + "'" + rest);
      OpeningReads(f.op, f.value + "'" + rest);
      QuotedReads(f.value, rest);
    } else {
      var g := f.(tag := f.tag[1..]);
      assert f.tag == [f.tag[0]] + g.tag;
      assert s[1..] == g.tag + Tail(g) + rest;
      assert s[1..] == g.tag + (Tail(g) + rest);
      TagSafeTail(f.tag);
      if s[0] == '"' { OpeningExtends(g.tag, Tail(g) + rest); }
      MatchReads(g, rest);
    }
  }

  lemma TagSafeTail(tag: string)
    requires TagSafe(tag) && tag != ""
    ensures TagSafe(tag[1..]) && (tag[0] == '"' ==> Opening(tag[1..]).None?)
  {
    forall i | 0 <= i < |tag[1..]| && tag[1..][i] == '"' ensures Opening(tag[1..][i + 1..]).None? {
      assert tag[1..][i + 1..] == tag[i + 1 + 1..];
    }
  }

  lemma FindAllCond(f: TagFilter, rest: string)
    requires FilterSafe(f)
    ensures FindAll(Cond(f) + rest) == [f] + FindAll(rest)
  {
    var s := Cond(f) + rest;
    assert s[1..] == f.tag + Tail(f) + rest;
    MatchReads(f, rest);
  }

  lemma {:induction false} FindAllSkips(pre: string, rest: string)
    requires Lacks(pre, '"')
    ensures FindAll(pre + rest) == FindAll(rest)
  {
    if pre == "" {
      assert pre + rest == rest;
    } else {
      assert (pre + rest)[1..] == pre[1..] + rest;
      FindAllSkips(pre[1..], rest);
    }
  }

  lemma {:induction false} FindAllJoin(filters: seq<TagFilter>, sep: string, rest: string)
    requires Lacks(sep, '"') && forall i :: 0 <= i < |filters| ==> FilterSafe(filters[i])
    ensures FindAll(Join(Map(Cond, filters), sep) + rest) == filters + FindAll(rest)
  {
    if filters == [] {
      assert "" + rest == rest;
    } else if |filters| == 1 {
      FindAllCond(filters[0], rest);
    } else {
      var more := Join(Map(Cond, filters[1..]), sep) + rest;
      FindAllJoin(filters[1..], sep, rest);
      CondsText(filters, sep, rest);
      CondThenMore(filters[0], sep, more);
      assert filters == [filters[0]] + filters[1..];
      assert [filters[0]] + (filters[1..] + FindAll(rest)) == [filters[0]] + filters[1..] + FindAll(rest);
    }
  }

  lemma CondsText(filters: seq<TagFilter>, sep: string, rest: string)
    requires |filters| > 1
    ensures Join(Map(Cond, filters), sep) + rest
         == Cond(filters[0]) + (sep + (Join(Map(Cond, filters[1..]), sep) + rest))
  {
    var conds := Map(Cond, filters);
    assert conds[1..] == Map(Cond, filters[1..]) && conds[0] == Cond(filters[0]);
    JoinStep(conds, sep, rest);
  }

  lemma CondThenMore(f: TagFilter, sep: string, more: string)
    requires FilterSafe(f) && Lacks(sep, '"')
    ensures FindAll(Cond(f) + (sep + more)) == [f] + FindAll(more)
  {
    FindAllSkips(sep, more);
    FindAllCond(f, sep + more);
  }

  lemma FindAllGroup(q: QueryConfig, tag: string, rest: string)
    requires QuerySafe(q) && tag in q.tags
    ensures FindAll(Group(q, tag) + rest) == TagConds(q, tag) + FindAll(rest)
  {
    var inner := Join(Map(Cond, TagConds(q, tag)), Separator(q));
    assert Group(q, tag) + rest == "(" + (inner + (")" + rest));
    FindAllSkips("(", inner + (")" + rest));
    forall i | 0 <= i < |TagConds(q, tag)| ensures FilterSafe(TagConds(q, tag)[i]) {
      assert q.tags[tag][i] in q.tags[tag];
    }
    FindAllJoin(TagConds(q, tag), Separator(q), ")" + rest);
    FindAllSkips(")", rest);
  }

  /** All comparisons, tag by tag. */
  function AllConds(q: QueryConfig, order: seq<string>): seq<TagFilter> {
    if order == [] then [] else TagConds(q, order[0]) + AllConds(q, order[1..])
  }

  lemma {:induction false} FindAllGroups(q: QueryConfig, order: seq<string>, rest: string)
    requires QuerySafe(q) && forall i :: 0 <= i < |order| ==> order[i] in q.tags
    ensures FindAll(Join(Map(GroupOf(q), order), " AND ") + rest) == AllConds(q, order) + FindAll(rest)
  {
    if order == [] {
      assert "" + rest == rest;
    } else if |order| == 1 {
      FindAllGroup(q, order[0], rest);
    } else {
      FindAllGroups(q, order[1..], rest);
      GroupsText(q, order, rest);
      GroupThenMore(q, order[0], Join(Map(GroupOf(q), order[1..]), " AND ") + rest);
    }
  }

  lemma GroupsText(q: QueryConfig, order: seq<string>, rest: string)
    requires |order| > 1
    ensures Join(Map(GroupOf(q), order), " AND ") + rest
         == Group(q, order[0]) + (" AND " + (Join(Map(GroupOf(q), order[1..]), " AND ") + rest))
  {
    var groups := Map(GroupOf(q), order);
    assert groups[1..] == Map(GroupOf(q), order[1..]) && groups[0] == Group(q, order[0]);
    JoinStep(groups, " AND ", rest);
  }

  lemma GroupThenMore(q: QueryConfig, tag: string, more: string)
    requires QuerySafe(q) && tag in q.tags
    ensures FindAll(Group(q, tag) + (" AND " + more)) == TagConds(q, tag) + FindAll(more)
  {
    FindAllSkips(" AND ", more);
    FindAllGroup(q, tag, " AND " + more);
  }

  // ---------- no comparison without a single quote ----------

  lemma {:induction false} SkipSpaceSuffix(s: string, c: char)
    requires Lacks(s, c)
    ensures Lacks(SkipSpace(s), c)
  {
    if s != "" && IsSpace(s[0]) { SkipSpaceSuffix(s[1..], c); }
  }

  lemma OpeningNeedsQuote(s: string)
    requires Lacks(s, '\'')
    ensures Opening(s).None?
  {
    SkipSpaceSuffix(s, '\'');
    var t := SkipSpace(s);
    if |t| >= 2 { SkipSpaceSuffix(t[2..], '\''); }
  }

  lemma {:induction false} MatchNeedsQuote(s: string)
    requires Lacks(s, '\'')
    ensures MatchTag(s).None?
  {
    if s != "" {
      OpeningNeedsQuote(s[1..]);
      MatchNeedsQuote(s[1..]);
    }
  }

  lemma {:induction false} FindAllNeedsQuote(s: string)
    requires Lacks(s, '\'')
    ensures FindAll(s) == []
  {
    if s != "" {
      MatchNeedsQuote(s[1..]);
      FindAllNeedsQuote(s[1..]);
    }
  }

  // ---------- what can be read at all ----------

  lemma {:induction false} MatchIsClean(s: string)
    requires MatchTag(s).Some?
    ensures Lacks(MatchTag(s).value.filter.tag, '\n') && ValueSafe(MatchTag(s).value.filter.value)
  {
    var start := if s[0] == '"' then Opening(s[1..]) else None;
    if !(start.Some? && Quoted(start.value.rest).Some?) { MatchIsClean(s[1..]); }
  }

  lemma {:induction false} FindAllIsClean(s: string, f: TagFilter)
    requires f in FindAll(s)
    ensures Lacks(f.tag, '\n') && ValueSafe(f.value)
    decreases |s|
  {
    if s[0] == '"' && MatchTag(s[1..]).Some? {
      MatchIsClean(s[1..]);
      if f != MatchTag(s[1..]).value.filter { FindAllIsClean(MatchTag(s[1..]).value.rest, f); }
    } else {
      FindAllIsClean(s[1..], f);
    }
  }

  /** A match takes the text apart: the tag, then its closing quote, then a comparison. */
  lemma {:induction false} MatchShape(s: string) returns (z: string)
    requires MatchTag(s).Some?
    ensures s == MatchTag(s).value.filter.tag + "\"" + z
    ensures Opening(z).Some? && Quoted(Opening(z).value.rest).Some?
  {
    var start := if s[0] == '"' then Opening(s[1..]) else None;
    if start.Some? && Quoted(start.value.rest).Some? {
      z := s[1..];
    } else {
      z := MatchShape(s[1..]);
    }
  }

  lemma {:induction false} QuotedFinds(r: string, z: string)
    requires Lacks(r, '\n') && Lacks(z, '\n') && !Lacks(z, '\'')
    ensures Quoted(r + z).Some?
    decreases |r| + |z|
  {
    if r == "" {
      assert r + z == z;
      if z[0] != '\'' {
        assert z == [z[0]] + z[1..];
        assert "" + z[1..] == z[1..];
        QuotedFinds("", z[1..]);
      }
    } else {
      assert (r + z)[1..] == r[1..] + z;
      if r[0] != '\'' { QuotedFinds(r[1..], z); }
    }
  }

  /** On text without newlines the scanner only ever returns safe tags: it prefers an earlier end. */
  lemma {:induction false} MatchIsSafe(s: string)
    requires MatchTag(s).Some? && Lacks(s, '\n')
    ensures TagSafe(MatchTag(s).value.filter.tag)
  {
    var tag := MatchTag(s).value.filter.tag;
    MatchIsClean(s);
    var start := if s[0] == '"' then Opening(s[1..]) else None;
    if !(start.Some? && Quoted(start.value.rest).Some?) {
      var m := MatchTag(s[1..]).value.filter;
      MatchIsSafe(s[1..]);
      var z := MatchShape(s[1..]);
      EarlierEnd(s[1..], m.tag, z);
      QuotesSafeMore(s[0], m.tag);
    }
  }

  lemma QuotesSafeMore(c: char, tag: string)
    requires QuotesSafe(tag) && (c == '"' ==> Opening(tag).None?)
    ensures QuotesSafe([c] + tag)
  {
    var more := [c] + tag;
    forall i | 0 <= i < |more| && more[i] == '"' ensures Opening(more[i + 1..]).None? {
      if i == 0 {
        assert more[1..] == tag;
      } else {
        assert more[i + 1..] == tag[i - 1 + 1..] && tag[i - 1] == '"';
      }
    }
  }

  lemma EarlierEnd(s: string, tag: string, z: string)
    requires s == tag + "\"" + z && Lacks(s, '\n')
    requires Opening(z).Some? && Quoted(Opening(z).value.rest).Some?
    ensures Opening(tag).Some? ==> Opening(s).Some? && Quoted(Opening(s).value.rest).Some?
  {
    if Opening(tag).Some? {
      assert s == tag + ("\"" + z);
      forall i | 0 <= i < |tag| ensures tag[i] != '\n' { assert s[i] != '\n'; }
      OpeningExtends(tag, "\"" + z);
      if Lacks(z, '\'') { OpeningNeedsQuote(z); }
      var k :| 0 <= k < |z| && z[k] == '\'';
      assert ("\"" + z)[k + 1] == '\'';
      forall i | 0 <= i < |"\"" + z| ensures ("\"" + z)[i] != '\n' { assert s[|tag| + i] != '\n'; }
      OpeningLacks(tag);
      QuotedFinds(Opening(tag).value.rest, "\"" + z);
    }
  }

  lemma OpeningLacks(s: string)
    requires Opening(s).Some? && Lacks(s, '\n')
    ensures Lacks(Opening(s).value.rest, '\n')
  {
    SkipSpaceSuffix(s, '\n');
    SkipSpaceSuffix(SkipSpace(s)[2..], '\n');
  }

  lemma {:induction false} FindAllIsSafe(s: string, f: TagFilter)
    requires Lacks(s, '\n') && f in FindAll(s)
    ensures TagSafe(f.tag)
    decreases |s|
  {
    if s[0] == '"' && MatchTag(s[1..]).Some? {
      MatchIsSafe(s[1..]);
      MatchRestLacks(s[1..]);
      if f != MatchTag(s[1..]).value.filter { FindAllIsSafe(MatchTag(s[1..]).value.rest, f); }
    } else {
      FindAllIsSafe(s[1..], f);
    }
  }

  lemma {:induction false} MatchRestLacks(s: string)
    requires MatchTag(s).Some? && Lacks(s, '\n')
    ensures Lacks(MatchTag(s).value.rest, '\n')
  {
    var start := if s[0] == '"' then Opening(s[1..]) else None;
    if start.Some? && Quoted(start.value.rest).Some? {
      OpeningLacks(s[1..]);
      var q := Quoted(start.value.rest).value;
      forall i | 0 <= i < |q.1| ensures q.1[i] != '\n' { assert start.value.rest[|q.0| + 1 + i] != '\n'; }
    } else {
      MatchRestLacks(s[1..]);
    }
  }

  // ---------- the round trip ----------

  /** The isPresent guards as they stand after the groups. */
  function Guards(fields: seq<Field>): string {
    var presence := Presence(fields);
    if presence == [] then "" else " AND " + Join(Sort(presence), " AND ")
  }

  lemma SortLength(s: seq<string>)
    ensures |Sort(s)| == |s| && multiset(Sort(s)) == multiset(s)
  {
    AlphabeticIsTotal();
    SortSorted(Alphabetic(), s);
    assert |multiset(Sort(s))| == |multiset(s)|;
  }

  lemma JoinMore(a: seq<string>, b: seq<string>, sep: string)
    requires a != []
    ensures Join(a + b, sep) == Join(a, sep) + if b == [] then "" else sep + Join(b, sep)
  {
    if b == [] {
      assert a + b == a;
    } else {
      JoinConcat(a, b, sep);
    }
  }

  /** The groups sort before the isPresent guards, so the text is the groups of some order of the
      tags, and then the guards. */
  lemma LambdaSplits(q: QueryConfig, order: seq<string>) returns (sorted: seq<string>)
    requires Enumerates(order, q) && q.tags != map[]
    ensures Enumerates(sorted, q)
    ensures Lambda(q, order) == Join(Map(GroupOf(q), sorted), " AND ") + Guards(q.fields)
  {
    var groups, presence := Map(GroupOf(q), order), Presence(q.fields);
    NotEmpty(q, order);
    SortLength(groups);
    SortLength(presence);
    sorted := Lift(GroupOf(q), order, Sort(groups));
    PresenceStarts(q.fields);
    SortSplits(groups, presence, '(', 'i');
    JoinMore(Sort(groups), Sort(presence), " AND ");
  }

  lemma NotEmpty(q: QueryConfig, order: seq<string>)
    requires Enumerates(order, q) && q.tags != map[]
    ensures order != []
  {
    var tag :| tag in q.tags;
    assert tag in multiset(order);
  }

  lemma {:induction false} PresenceStarts(fields: seq<Field>)
    ensures forall i :: 0 <= i < |Presence(fields)| ==> Presence(fields)[i] != "" && Presence(fields)[i][0] == 'i'
  {
    if fields != [] {
      PresenceStarts(fields[0].args);
      PresenceStarts(fields[1..]);
    }
  }

  lemma GuardsSafe(fields: seq<Field>, c: char)
    requires c == '\'' || c == '\n'
    requires FieldsSafe(fields)
    ensures Lacks(Guards(fields), c)
  {
    SortLacks(Presence(fields), c);
    JoinLacks(Sort(Presence(fields)), " AND ", c);
  }

  /** Scanning the whole text finds every comparison of every tag, and nothing in the guards. */
  lemma FindAllLambda(q: QueryConfig, order: seq<string>) returns (sorted: seq<string>)
    requires Enumerates(order, q) && q.tags != map[] && QuerySafe(q) && FieldsSafe(q.fields)
    ensures Enumerates(sorted, q)
    ensures FindAll(Lambda(q, order)) == AllConds(q, sorted)
  {
    sorted := LambdaSplits(q, order);
    var guards := Guards(q.fields);
    GuardsSafe(q.fields, '\'');
    forall i | 0 <= i < |sorted| ensures sorted[i] in q.tags { assert sorted[i] in multiset(sorted); }
    FindAllGroups(q, sorted, guards);
    FindAllNeedsQuote(guards);
    assert AllConds(q, sorted) + [] == AllConds(q, sorted);
  }

  lemma CountsBoth(order: seq<string>, i: nat, j: nat)
    requires i < j < |order|
    ensures order[i] == order[j] ==> multiset(order)[order[i]] >= 2
  {
    assert order == order[..i] + [order[i]] + order[i + 1..j] + [order[j]] + order[j + 1..];
  }

  lemma EnumerationIsDistinct(q: QueryConfig, order: seq<string>)
    requires Enumerates(order, q)
    ensures Distinct(order) && forall tag :: tag in order <==> tag in q.tags
  {
    forall tag ensures tag in order <==> tag in q.tags { assert tag in multiset(order) <==> tag in q.tags; }
    forall i, j | 0 <= i < j < |order| ensures order[i] != order[j] {
      CountsBoth(order, i, j);
    }
  }

  lemma {:induction false} ValuesConcat(a: seq<TagFilter>, b: seq<TagFilter>, tag: string)
    ensures Values(a + b, tag) == Values(a, tag) + Values(b, tag)
  {
    if b == [] {
      assert a + b == a && Values(a, tag) + [] == Values(a, tag);
    } else {
      var last := |b| - 1;
      assert (a + b)[..|a + b| - 1] == a + b[..last];
      ValuesConcat(a, b[..last], tag);
    }
  }

  lemma {:induction false} ValuesOfConds(op: Cmp, of: string, values: seq<string>, tag: string)
    ensures Values(Conds(op, of, values), tag) == if of == tag then values else []
  {
    if values != [] {
      var last := |values| - 1;
      assert Conds(op, of, values)[..last] == Conds(op, of, values[..last]);
      ValuesOfConds(op, of, values[..last], tag);
      assert values == values[..last] + [values[last]];
    }
  }

  lemma {:induction false} ValuesOfAll(q: QueryConfig, order: seq<string>, tag: string)
    requires Distinct(order)
    ensures Values(AllConds(q, order), tag) == if tag in order && tag in q.tags then q.tags[tag] else []
  {
    if order != [] {
      NotLater(order);
      ValuesOfAll(q, order[1..], tag);
      ValuesOfMore(q, order[0], order[1..], tag);
      assert AllConds(q, order) == TagConds(q, order[0]) + AllConds(q, order[1..]);
    }
  }

  lemma ValuesOfMore(q: QueryConfig, first: string, rest: seq<string>, tag: string)
    ensures Values(TagConds(q, first) + AllConds(q, rest), tag)
         == (if first == tag && first in q.tags then q.tags[first] else []) + Values(AllConds(q, rest), tag)
  {
    ValuesConcat(TagConds(q, first), AllConds(q, rest), tag);
    ValuesOfConds(Operator(q), first, if first in q.tags then q.tags[first] else [], tag);
  }

  lemma NotLater(order: seq<string>)
    requires Distinct(order) && order != []
    ensures order[0] !in order[1..] && Distinct(order[1..])
    ensures forall tag :: tag in order <==> tag == order[0] || tag in order[1..]
  {
    assert order == [order[0]] + order[1..];
    forall i, j | 0 <= i < j < |order[1..]| ensures order[1..][i] != order[1..][j] {
      assert order[i + 1] != order[j + 1];
    }
    forall k | 0 <= k < |order[1..]| ensures order[1..][k] != order[0] {
      assert order[k + 1] != order[0];
    }
  }

  lemma {:induction false} AllCondsOperator(q: QueryConfig, order: seq<string>, f: TagFilter)
    requires f in AllConds(q, order)
    ensures f.op == Operator(q) && f.tag in order && f.tag in q.tags
  {
    if f in TagConds(q, order[0]) {
    } else {
      AllCondsOperator(q, order[1..], f);
    }
  }

  lemma GroupedAll(q: QueryConfig, order: seq<string>)
    requires Enumerates(order, q) && QuerySafe(q)
    ensures Grouped(AllConds(q, order)) == q.tags
  {
    EnumerationIsDistinct(q, order);
    var all := AllConds(q, order);
    forall tag ensures tag in Tags(all) <==> tag in q.tags {
      ValuesOfAll(q, order, tag);
      if tag in Tags(all) {
        var f :| f in all && f.tag == tag;
        AllCondsOperator(q, order, f);
      } else if tag in q.tags {
        ValuesNone(all, tag);
      }
    }
    forall tag | tag in q.tags ensures Grouped(all)[tag] == q.tags[tag] {
      ValuesOfAll(q, order, tag);
    }
  }

  lemma AllCondsOneOperator(q: QueryConfig, order: seq<string>)
    requires Enumerates(order, q) && QuerySafe(q) && q.tags != map[]
    ensures AllConds(q, order) != [] && Operators(AllConds(q, order)) == {Operator(q)}
    ensures AllConds(q, order)[0].op == Operator(q)
  {
    var all := AllConds(q, order);
    GroupedAll(q, order);
    var tag :| tag in q.tags;
    assert tag in Grouped(all);
    assert all[0] in all;
    forall f | f in all ensures f.op == Operator(q) { AllCondsOperator(q, order, f); }
    assert all[0].op in Operators(all);
  }

  /** What the printer writes for a safe query is read back exactly, value order kept. */
  lemma RoundTrip(q: QueryConfig, order: seq<string>)
    requires Enumerates(order, q) && q.tags != map[] && FieldsSafe(q.fields) && QuerySafe(q)
    ensures ReadFilter(Lambda(q, order)) == Some(Filter(q.tags, Some(Operator(q))))
  {
    var sorted := FindAllLambda(q, order);
    GroupedAll(q, sorted);
    AllCondsOneOperator(q, sorted);
    LambdaStarts(q, order);
  }

  lemma LambdaStarts(q: QueryConfig, order: seq<string>)
    requires Enumerates(order, q) && q.tags != map[]
    ensures Lambda(q, order) != "" && Lambda(q, order)[0] == '('
  {
    var sorted := LambdaSplits(q, order);
    NotEmpty(q, sorted);
    assert Map(GroupOf(q), sorted)[0] == Group(q, sorted[0]);
  }

  predicate LineSafe(q: QueryConfig) {
    forall tag :: tag in q.tags ==> Lacks(tag, '\n') && forall v :: v in q.tags[tag] ==> Lacks(v, '\n')
  }

  lemma LambdaLacksNewline(q: QueryConfig, order: seq<string>)
    requires Enumerates(order, q) && q.tags != map[] && FieldsSafe(q.fields) && LineSafe(q)
    ensures Lacks(Lambda(q, order), '\n')
  {
    var sorted := LambdaSplits(q, order);
    forall i | 0 <= i < |sorted| ensures sorted[i] in q.tags { assert sorted[i] in multiset(sorted); }
    GroupsLackNewline(q, sorted);
    GuardsSafe(q.fields, '\n');
  }

  lemma GroupsLackNewline(q: QueryConfig, order: seq<string>)
    requires LineSafe(q) && forall i :: 0 <= i < |order| ==> order[i] in q.tags
    ensures Lacks(Join(Map(GroupOf(q), order), " AND "), '\n')
  {
    var groups := Map(GroupOf(q), order);
    forall i | 0 <= i < |groups| ensures Lacks(groups[i], '\n') { GroupLacksNewline(q, order[i]); }
    JoinLacks(groups, " AND ", '\n');
  }

  lemma CondLacksNewline(f: TagFilter)
    requires Lacks(f.tag, '\n') && Lacks(f.value, '\n')
    ensures Lacks(Cond(f), '\n')
  {
  }

  lemma GroupLacksNewline(q: QueryConfig, tag: string)
    requires tag in q.tags && LineSafe(q)
    ensures Lacks(Group(q, tag), '\n')
  {
    var conds := TagConds(q, tag);
    forall j | 0 <= j < |conds| ensures Lacks(Map(Cond, conds)[j], '\n') {
      assert q.tags[tag][j] in q.tags[tag];
      CondLacksNewline(conds[j]);
    }
    JoinLacks(Map(Cond, conds), Separator(q), '\n');
  }

  /** The round trip succeeds for exactly the safe queries. */
  lemma RoundTripExact(q: QueryConfig, order: seq<string>)
    requires Enumerates(order, q) && q.tags != map[] && FieldsSafe(q.fields)
    ensures ReadFilter(Lambda(q, order)) == Some(Filter(q.tags, Some(Operator(q)))) <==> QuerySafe(q)
  {
    if QuerySafe(q) {
      RoundTrip(q, order);
    } else if ReadFilter(Lambda(q, order)) == Some(Filter(q.tags, Some(Operator(q)))) {
      var text := Lambda(q, order);
      var found := FindAll(text);
      assert Grouped(found) == q.tags;
      forall tag | tag in q.tags ensures q.tags[tag] != [] && Lacks(tag, '\n')
        ensures forall v :: v in q.tags[tag] ==> ValueSafe(v)
      {
        ReadTagIsClean(text, tag);
      }
      LambdaLacksNewline(q, order);
      forall tag | tag in q.tags ensures TagSafe(tag) {
        var f :| f in found && f.tag == tag;
        FindAllIsSafe(text, f);
      }
    }
  }

  lemma ReadTagIsClean(text: string, tag: string)
    requires tag in Grouped(FindAll(text))
    ensures Grouped(FindAll(text))[tag] != [] && Lacks(tag, '\n')
    ensures forall v :: v in Grouped(FindAll(text))[tag] ==> ValueSafe(v)
  {
    var found := FindAll(text);
    var f :| f in found && f.tag == tag;
    FindAllIsClean(text, f);
    ValuesMeaning(found, tag, f.value);
    forall v | v in Values(found, tag) ensures ValueSafe(v) {
      ValuesMeaning(found, tag, v);
      var g :| g in found && g.tag == tag && g.value == v;
      FindAllIsClean(text, g);
    }
  }

  /** With no tags the text is TRUE or only guards, and is read back as no filter at all. */
  lemma NoTagsRoundTrip(q: QueryConfig, order: seq<string>)
    requires Enumerates(order, q) && q.tags == map[]
    ensures ReadFilter(Lambda(q, order)) == Some(Filter(map[], None))
  {
    assert |multiset(order)| == 0;
    var presence := Presence(q.fields);
    assert Map(GroupOf(q), order) + presence == presence;
    if presence != [] {
      PresenceStarts(q.fields);
      AlphabeticIsTotal();
      SortSorted(Alphabetic(), presence);
      var sorted := Sort(presence);
      assert |sorted| == |multiset(sorted)| == |multiset(presence)| == |presence|;
      assert sorted[0] in multiset(presence);
      PresencePrefix(q.fields, sorted[0]);
    }
  }

  lemma {:induction false} PresencePrefix(fields: seq<Field>, text: string)
    requires text in Presence(fields)
    ensures "isPresent" <= text
  {
    if fields[0].kind == "field" && text == "isPresent(\"" + fields[0].value + "\")" {
    } else if text in Presence(fields[0].args) && fields[0].kind != "field" {
      PresencePrefix(fields[0].args, text);
    } else {
      PresencePrefix(fields[1..], text);
    }
  }
}
