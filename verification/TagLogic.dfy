/** From the WHERE clause of an InfluxQL query to the tags of a query configuration. */
module TagLogic {
  import opened Collections
  import opened Wrappers

  datatype Op = AND | OR | EQ | NEQ | LT | LTE | GT | GTE | ADD | SUB | OTHER

  datatype Expr =
    | Paren(inner: Expr)
    | Binary(op: Op, lhs: Expr, rhs: Expr)
    | VarRef(name: string)
    | StringLiteral(text: string)
    | DurationLiteral(nanos: int)
    | Call(name: string, args: seq<Expr>)
    | OtherLiteral

  /** What influxql.Reduce leaves: parentheses only around binary expressions. */
  predicate Reduced(e: Expr) {
    match e
    case Paren(inner) => inner.Binary? && Reduced(inner)
    case Binary(_, lhs, rhs) => Reduced(lhs) && Reduced(rhs)
    case _ => true
  }

  /** The operators of a tag filter, "==" and "!=". */
  datatype Cmp = Equal | Unequal

  datatype TagFilter = TagFilter(op: Cmp, tag: string, value: string)

  // ---------- recognizing time ranges ----------

  /** The only characters that lower-case to a letter of "time" or "now" are the ASCII capitals and
      the dotted capital I. */
  function LowerChar(c: char): char {
    if 'A' <= c <= 'Z' then c + 32 as char else if c == '\U{0130}' then 'i' else c
  }

  function ToLower(s: string): string {
    if s == "" then "" else [LowerChar(s[0])] + ToLower(s[1..])
  }

  predicate IsTime(e: Expr) {
    match e
    case Paren(inner) => IsTime(inner)
    case VarRef(name) => ToLower(name) == "time"
    case _ => false
  }

  predicate IsNow(e: Expr) {
    match e
    case Paren(inner) => IsNow(inner)
    case Call(name, args) => ToLower(name) == "now" && |args| == 0
    case _ => false
  }

  function IsDuration(e: Expr): Option<int> {
    match e
    case Paren(inner) => IsDuration(inner)
    case DurationLiteral(nanos) => Some(nanos)
    case _ => None
  }

  function IsPreviousTime(e: Expr): Option<int> {
    match e
    case Paren(inner) => IsPreviousTime(inner)
    case Binary(op, lhs, rhs) =>
      var duration := if IsDuration(lhs).Some? then IsDuration(lhs) else IsDuration(rhs);
      if (IsNow(lhs) || IsNow(rhs)) && op == SUB then duration else None
    case _ => if IsNow(e) then Some(0) else None
  }

  function IsTimeRange(e: Expr): Option<int> {
    match e
    case Paren(inner) => IsTimeRange(inner)
    case Binary(op, lhs, rhs) =>
      var previous := if IsPreviousTime(lhs).Some? then IsPreviousTime(lhs) else IsPreviousTime(rhs);
      if (IsTime(lhs) || IsTime(rhs)) && (op == LT || op == LTE || op == GT || op == GTE) then previous else None
    case _ => None
  }

  // ---------- recognizing tag comparisons ----------

  predicate IsVarRef(e: Expr): (r: bool)
    ensures r && Reduced(e) ==> e.VarRef?
  {
    match e
    case Paren(inner) => IsVarRef(inner)
    case VarRef(_) => true
    case _ => false
  }

  predicate IsString(e: Expr): (r: bool)
    ensures r && Reduced(e) ==> e.StringLiteral?
  {
    match e
    case Paren(inner) => IsString(inner)
    case StringLiteral(_) => true
    case _ => false
  }

  /** The source takes the operands by a type assertion that does not look through parentheses, and
      dereferences the nil it yields on a parenthesised operand: its callers pass reduced trees. */
  function IsTagFilter(e: Expr): Option<TagFilter>
    requires Reduced(e)
  {
    match e
    case Paren(inner) => IsTagFilter(inner)
    case Binary(op, lhs, rhs) =>
      if op != EQ && op != NEQ then None
      else if !((IsString(lhs) || IsString(rhs)) && (IsVarRef(lhs) || IsVarRef(rhs))) then None
      else
        var operator := if op == EQ then Equal else Unequal;
        if IsVarRef(lhs) then Some(TagFilter(operator, lhs.name, rhs.text))
        else Some(TagFilter(operator, rhs.name, lhs.text))
    case _ => None
  }

  function IsTagLogic(e: Expr): Option<seq<TagFilter>>
    requires Reduced(e)
  {
    if e.Paren? then IsTagLogic(e.inner)
    else if IsTimeRange(e).Some? then Some([])
    else if IsTagFilter(e).Some? then Some([IsTagFilter(e).value])
    else if !e.Binary? then None
    else Junction(e.op, Side(IsTimeRange(e.lhs).Some?, IsTagFilter(e.lhs), IsTagLogic(e.lhs)),
                        Side(IsTimeRange(e.rhs).Some?, IsTagFilter(e.rhs), IsTagLogic(e.rhs)))
  }

  /** What was recognized of one side of a binary expression. */
  datatype Side = Side(timeRange: bool, filter: Option<TagFilter>, logic: Option<seq<TagFilter>>)

  function Junction(op: Op, l: Side, r: Side): Option<seq<TagFilter>> {
    if l.filter.Some? && r.filter.Some? && l.filter.value.tag == r.filter.value.tag
       && l.filter.value.op == r.filter.value.op && op == OR
    then Some([l.filter.value, r.filter.value])
    else if op != AND && op != OR then None
    else if (l.timeRange || r.timeRange) && (l.filter.Some? || r.filter.Some?) then
      Some([if l.filter.Some? then l.filter.value else r.filter.value])
    else if l.logic.Some? && r.logic.Some? && |Operators(l.logic.value) + Operators(r.logic.value)| <= 1 then
      Some(l.logic.value + r.logic.value)
    else None
  }

  function Operators(filters: seq<TagFilter>): set<Cmp> {
    set f | f in filters :: f.op
  }

  // ---------- what IsTagLogic decides ----------

  /** A condition built by AND and OR, and parentheses, from time ranges and tag comparisons. */
  predicate Condition(e: Expr)
    requires Reduced(e)
  {
    if e.Paren? then Condition(e.inner)
    else
      IsTimeRange(e).Some? || IsTagFilter(e).Some?
      || (e.Binary? && (e.op == AND || e.op == OR) && Condition(e.lhs) && Condition(e.rhs))
  }

  /** The tag comparisons of a condition, left to right. */
  function Comparisons(e: Expr): seq<TagFilter>
    requires Reduced(e)
  {
    match e
    case Paren(inner) => Comparisons(inner)
    case Binary(op, lhs, rhs) =>
      if IsTagFilter(e).Some? then [IsTagFilter(e).value]
      else if op == AND || op == OR then Comparisons(lhs) + Comparisons(rhs)
      else []
    case _ => []
  }

  predicate AllOp(filters: seq<TagFilter>, op: Cmp) {
    forall f :: f in filters ==> f.op == op
  }

  predicate OneOp(filters: seq<TagFilter>) {
    AllOp(filters, Equal) || AllOp(filters, Unequal)
  }

  lemma TimeRangeIsNoFilter(e: Expr)
    requires Reduced(e) && IsTimeRange(e).Some?
    ensures IsTagFilter(e).None? && Comparisons(e) == [] && Condition(e)
  {
  }

  lemma FilterIsComparison(e: Expr)
    requires Reduced(e) && IsTagFilter(e).Some?
    ensures Comparisons(e) == [IsTagFilter(e).value] && Condition(e)
  {
  }

  lemma OperatorsOne(filters: seq<TagFilter>)
    ensures |Operators(filters)| <= 1 <==> OneOp(filters)
  {
    var ops := Operators(filters);
    if AllOp(filters, Equal) {
      assert ops <= {Equal};
      Smaller(ops, {Equal});
    } else if AllOp(filters, Unequal) {
      assert ops <= {Unequal};
      Smaller(ops, {Unequal});
    } else {
      var f :| f in filters && f.op != Equal;
      var g :| g in filters && g.op != Unequal;
      assert f.op in ops && g.op in ops;
      assert {Equal, Unequal} <= ops;
      Smaller({Equal, Unequal}, ops);
    }
  }

  /** IsTagLogic accepts exactly the conditions whose comparisons all use one operator, and returns
      those comparisons, left to right. */
  lemma {:induction false} TagLogicExact(e: Expr)
    requires Reduced(e)
    ensures IsTagLogic(e) == if Condition(e) && OneOp(Comparisons(e)) then Some(Comparisons(e)) else None
    decreases e, 0
  {
    if e.Paren? {
      TagLogicExact(e.inner);
    } else if IsTimeRange(e).Some? {
      TimeRangeIsNoFilter(e);
    } else if IsTagFilter(e).Some? {
      FilterIsComparison(e);
    } else if e.Binary? {
      var l := SideOf(e.lhs);
      var r := SideOf(e.rhs);
      if e.op == AND || e.op == OR {
        JunctionExact(e.op, l, r, Condition(e.lhs), Condition(e.rhs), Comparisons(e.lhs), Comparisons(e.rhs));
      }
    }
  }

  lemma {:induction false} SideOf(e: Expr) returns (s: Side)
    requires Reduced(e)
    ensures s == Side(IsTimeRange(e).Some?, IsTagFilter(e), IsTagLogic(e))
    ensures SideExact(s, Condition(e), Comparisons(e))
    decreases e, 1
  {
    s := Side(IsTimeRange(e).Some?, IsTagFilter(e), IsTagLogic(e));
    TagLogicExact(e);
    if IsTagFilter(e).Some? { FilterIsComparison(e); }
    if IsTimeRange(e).Some? { TimeRangeIsNoFilter(e); }
  }

  /** A side with these comparisons, that is a condition or not, is recognized exactly. */
  predicate SideExact(s: Side, condition: bool, comparisons: seq<TagFilter>) {
    && s.logic == (if condition && OneOp(comparisons) then Some(comparisons) else None)
    && (s.filter.Some? ==> condition && comparisons == [s.filter.value])
    && (s.timeRange ==> s.filter.None? && condition && comparisons == [])
  }

  lemma JunctionExact(op: Op, l: Side, r: Side, cl: bool, cr: bool, fl: seq<TagFilter>, fr: seq<TagFilter>)
    requires (op == AND || op == OR) && SideExact(l, cl, fl) && SideExact(r, cr, fr)
    ensures Junction(op, l, r) == if cl && cr && OneOp(fl + fr) then Some(fl + fr) else None
  {
    if l.filter.Some? && r.filter.Some? && l.filter.value.op == r.filter.value.op {
      Pair(l.filter.value, r.filter.value);
    } else if l.filter.Some? && r.timeRange {
      Single(l.filter.value);
    } else if r.filter.Some? && l.timeRange {
      Single(r.filter.value);
    }
    OperatorsConcat(fl, fr);
  }

  lemma Pair(f: TagFilter, g: TagFilter)
    requires f.op == g.op
    ensures [f] + [g] == [f, g] && OneOp([f] + [g])
  {
  }

  lemma Single(f: TagFilter)
    ensures [f] + [] == [f] == [] + [f] && OneOp([f])
  {
  }

  lemma OperatorsConcat(l: seq<TagFilter>, r: seq<TagFilter>)
    ensures |Operators(l) + Operators(r)| <= 1 <==> OneOp(l + r)
    ensures OneOp(l + r) ==> OneOp(l) && OneOp(r)
  {
    OperatorsOne(l + r);
    assert Operators(l + r) == Operators(l) + Operators(r);
    assert forall f :: f in l || f in r ==> f in l + r;
  }

  // ---------- grouping by tag ----------

  datatype TagConfig = TagConfig(tags: map<string, seq<string>>, areTagsAccepted: bool)

  /** The values compared with one tag, in order. */
  function Values(filters: seq<TagFilter>, tag: string): seq<string> {
    if filters == [] then []
    else
      var last := filters[|filters| - 1];
      Values(filters[..|filters| - 1], tag) + (if last.tag == tag then [last.value] else [])
  }

  function Tags(filters: seq<TagFilter>): set<string> {
    set f | f in filters :: f.tag
  }

  /** The grouped tags: every tag compared, with its values in order. */
  function Grouped(filters: seq<TagFilter>): map<string, seq<string>> {
    map tag | tag in Tags(filters) :: Values(filters, tag)
  }

  predicate Accepts(filters: seq<TagFilter>) {
    filters != [] && AllOp(filters, Equal)
  }

  /** The loop that groups the values by tag and collects the operators. */
  method GroupTags(filters: seq<TagFilter>) returns (tags: map<string, seq<string>>, ops: set<Cmp>)
    ensures tags == Grouped(filters) && ops == Operators(filters)
  {
    tags, ops := map[], {};
    for i := 0 to |filters|
      invariant tags == Grouped(filters[..i]) && ops == Operators(filters[..i])
    {
      var l := filters[i];
      GroupStep(filters, i);
      var values := if l.tag in tags then tags[l.tag] else [];
      ops := ops + {l.op};
      tags := tags[l.tag := values + [l.value]];
    }
    assert filters[..|filters|] == filters;
  }

  lemma GroupStep(filters: seq<TagFilter>, i: nat)
    requires i < |filters|
    ensures var before, l := Grouped(filters[..i]), filters[i];
            Grouped(filters[..i + 1]) == before[l.tag := (if l.tag in before then before[l.tag] else []) + [l.value]]
    ensures Operators(filters[..i + 1]) == Operators(filters[..i]) + {filters[i].op}
  {
    assert filters[..i + 1] == filters[..i] + [filters[i]];
    GroupedAppend(filters[..i], filters[i]);
    SetsAppend(filters[..i], filters[i]);
    if filters[i].tag !in Tags(filters[..i]) { ValuesNone(filters[..i], filters[i].tag); }
  }

  lemma SetsAppend(filters: seq<TagFilter>, f: TagFilter)
    ensures Tags(filters + [f]) == Tags(filters) + {f.tag}
    ensures Operators(filters + [f]) == Operators(filters) + {f.op}
  {
    var all := filters + [f];
    assert f in all && forall g :: g in filters ==> g in all;
  }

  lemma ValuesAppend(filters: seq<TagFilter>, f: TagFilter, tag: string)
    ensures Values(filters + [f], tag) == Values(filters, tag) + if f.tag == tag then [f.value] else []
  {
    assert (filters + [f])[..|filters|] == filters;
  }

  lemma GroupedAppend(filters: seq<TagFilter>, f: TagFilter)
    ensures Grouped(filters + [f]) == Grouped(filters)[f.tag := Values(filters, f.tag) + [f.value]]
  {
    SetsAppend(filters, f);
    var now := Grouped(filters + [f]);
    var extended := Grouped(filters)[f.tag := Values(filters, f.tag) + [f.value]];
    forall tag | tag in now ensures now[tag] == extended[tag] {
      ValuesAppend(filters, f, tag);
    }
    assert now.Keys == extended.Keys;
  }

  lemma {:induction false} ValuesNone(filters: seq<TagFilter>, tag: string)
    requires tag !in Tags(filters)
    ensures Values(filters, tag) == []
  {
    if filters != [] {
      var init := filters[..|filters| - 1];
      assert filters[|filters| - 1] in filters;
      assert forall f :: f in init ==> f in filters;
      ValuesNone(init, tag);
    }
  }

  lemma SingleOp(filters: seq<TagFilter>)
    requires filters != [] && OneOp(filters)
    ensures |Operators(filters)| == 1
    ensures Equal in Operators(filters) <==> AllOp(filters, Equal)
  {
    assert filters[0] in filters && filters[0].op in Operators(filters);
    assert Operators(filters) == {filters[0].op};
  }

  lemma {:induction false} ValuesMeaning(filters: seq<TagFilter>, tag: string, value: string)
    ensures value in Values(filters, tag) <==> exists f :: f in filters && f.tag == tag && f.value == value
  {
    if filters != [] {
      var init, last := filters[..|filters| - 1], filters[|filters| - 1];
      assert filters == init + [last];
      ValuesMeaning(init, tag, value);
    }
  }

  // ---------- meaning ----------

  /** A point, as far as tag conditions can tell: the value of every tag. */
  type Point = string -> string

  predicate FilterHolds(f: TagFilter, p: Point) {
    if f.op == Equal then p(f.tag) == f.value else p(f.tag) != f.value
  }

  /** The string an operand stands for: the value of a tag, or a literal. */
  function Operand(e: Expr, p: Point): Option<string> {
    match e
    case Paren(inner) => Operand(inner, p)
    case VarRef(name) => Some(p(name))
    case StringLiteral(text) => Some(text)
    case _ => None
  }

  /** The points a condition selects once its time ranges are ignored. */
  predicate Eval(e: Expr, p: Point) {
    match e
    case Paren(inner) => Eval(inner, p)
    case Binary(op, lhs, rhs) =>
      if op == AND then Eval(lhs, p) && Eval(rhs, p)
      else if op == OR then Eval(lhs, p) || Eval(rhs, p)
      else if op == EQ then Operand(lhs, p) == Operand(rhs, p)
      else if op == NEQ then Operand(lhs, p) != Operand(rhs, p)
      else true
    case _ => true
  }

  /** A recognized tag filter, whatever parentheses are around it and whichever side its tag is on,
      holds exactly where the comparison it was recognized in holds. */
  lemma {:induction false} FilterMeaning(e: Expr, p: Point)
    requires Reduced(e) && IsTagFilter(e).Some?
    ensures Eval(e, p) <==> FilterHolds(IsTagFilter(e).value, p)
  {
    if e.Paren? { FilterMeaning(e.inner, p); }
  }

  /** The points a tag configuration selects. */
  predicate Selects(config: TagConfig, p: Point) {
    forall tag :: tag in config.tags ==>
      (if config.areTagsAccepted then p(tag) in config.tags[tag] else p(tag) !in config.tags[tag])
  }

  /** An OR-group: equalities with one tag, in any association or parenthesisation. */
  predicate OrGroup(e: Expr, tag: string)
    requires Reduced(e)
  {
    match e
    case Paren(inner) => OrGroup(inner, tag)
    case Binary(op, lhs, rhs) =>
      if IsTagFilter(e).Some? then IsTagFilter(e).value.op == Equal && IsTagFilter(e).value.tag == tag
      else op == OR && OrGroup(lhs, tag) && OrGroup(rhs, tag)
    case _ => false
  }

  /** An AND-tree of time ranges and OR-groups over distinct tags. */
  ghost predicate AcceptedTree(e: Expr)
    requires Reduced(e)
  {
    || (e.Paren? && AcceptedTree(e.inner))
    || IsTimeRange(e).Some?
    || (exists tag :: OrGroup(e, tag))
    || (e.Binary? && e.op == AND && AcceptedTree(e.lhs) && AcceptedTree(e.rhs)
        && Tags(Comparisons(e.lhs)) !! Tags(Comparisons(e.rhs)))
  }

  /** An AND-tree of time ranges and inequalities. */
  predicate RejectedTree(e: Expr)
    requires Reduced(e)
  {
    || (e.Paren? && RejectedTree(e.inner))
    || IsTimeRange(e).Some?
    || (IsTagFilter(e).Some? && IsTagFilter(e).value.op == Unequal)
    || (e.Binary? && e.op == AND && RejectedTree(e.lhs) && RejectedTree(e.rhs))
  }

  ghost predicate SomeMatch(filters: seq<TagFilter>, tag: string, p: Point) {
    exists f :: f in filters && f.tag == tag && p(tag) == f.value
  }

  ghost predicate EachTagMatches(filters: seq<TagFilter>, p: Point) {
    forall tag :: tag in Tags(filters) ==> SomeMatch(filters, tag, p)
  }

  predicate AllHold(filters: seq<TagFilter>, p: Point) {
    forall f :: f in filters ==> FilterHolds(f, p)
  }

  lemma {:induction false} OrGroupMeaning(e: Expr, tag: string, p: Point)
    requires Reduced(e) && OrGroup(e, tag)
    ensures Condition(e) && AllOp(Comparisons(e), Equal) && Tags(Comparisons(e)) == {tag}
    ensures Eval(e, p) <==> SomeMatch(Comparisons(e), tag, p)
  {
    if e.Paren? {
      OrGroupMeaning(e.inner, tag, p);
    } else if IsTagFilter(e).Some? {
      FilterMeaning(e, p);
      FilterIsComparison(e);
      assert IsTagFilter(e).value in Comparisons(e);
    } else {
      OrGroupMeaning(e.lhs, tag, p);
      OrGroupMeaning(e.rhs, tag, p);
      MatchConcat(Comparisons(e.lhs), Comparisons(e.rhs), tag, p);
    }
  }

  lemma MatchConcat(a: seq<TagFilter>, b: seq<TagFilter>, tag: string, p: Point)
    ensures SomeMatch(a + b, tag, p) <==> SomeMatch(a, tag, p) || SomeMatch(b, tag, p)
    ensures Tags(a + b) == Tags(a) + Tags(b)
  {
    if SomeMatch(a, tag, p) {
      var f :| f in a && f.tag == tag && p(tag) == f.value;
      assert f in a + b;
    }
    if SomeMatch(b, tag, p) {
      var f :| f in b && f.tag == tag && p(tag) == f.value;
      assert f in a + b;
    }
  }

  lemma {:induction false} AcceptedMeaning(e: Expr, p: Point)
    requires Reduced(e) && AcceptedTree(e)
    ensures Condition(e) && AllOp(Comparisons(e), Equal)
    ensures Eval(e, p) <==> EachTagMatches(Comparisons(e), p)
  {
    if IsTimeRange(e).Some? {
      TimeRangeIsNoFilter(e);
      TimeRangeHolds(e, p);
    } else if tag :| OrGroup(e, tag) {
      OrGroupMeaning(e, tag, p);
    } else if e.Paren? {
      AcceptedMeaning(e.inner, p);
    } else {
      AcceptedMeaning(e.lhs, p);
      AcceptedMeaning(e.rhs, p);
      DisjointMatches(Comparisons(e.lhs), Comparisons(e.rhs), p);
    }
  }

  lemma DisjointMatches(a: seq<TagFilter>, b: seq<TagFilter>, p: Point)
    requires Tags(a) !! Tags(b)
    ensures EachTagMatches(a + b, p) <==> EachTagMatches(a, p) && EachTagMatches(b, p)
  {
    forall tag ensures SomeMatch(a + b, tag, p) <==> SomeMatch(a, tag, p) || SomeMatch(b, tag, p) {
      MatchConcat(a, b, tag, p);
    }
    forall tag ensures SomeMatch(a, tag, p) ==> tag in Tags(a) {}
    forall tag ensures SomeMatch(b, tag, p) ==> tag in Tags(b) {}
    MatchConcat(a, b, "", p);
  }

  lemma TimeRangeHolds(e: Expr, p: Point)
    requires Reduced(e) && IsTimeRange(e).Some?
    ensures Eval(e, p)
  {
  }

  lemma {:induction false} RejectedMeaning(e: Expr, p: Point)
    requires Reduced(e) && RejectedTree(e)
    ensures Condition(e) && AllOp(Comparisons(e), Unequal)
    ensures Eval(e, p) <==> AllHold(Comparisons(e), p)
  {
    if IsTimeRange(e).Some? {
      TimeRangeIsNoFilter(e);
      TimeRangeHolds(e, p);
    } else if IsTagFilter(e).Some? {
      FilterMeaning(e, p);
      FilterIsComparison(e);
    } else if e.Paren? {
      RejectedMeaning(e.inner, p);
    } else {
      RejectedMeaning(e.lhs, p);
      RejectedMeaning(e.rhs, p);
    }
  }

  lemma SelectsAccepted(filters: seq<TagFilter>, p: Point)
    requires Accepts(filters)
    ensures Selects(TagConfig(Grouped(filters), true), p) <==> EachTagMatches(filters, p)
  {
    forall tag ensures p(tag) in Values(filters, tag) <==> SomeMatch(filters, tag, p) {
      ValuesMeaning(filters, tag, p(tag));
    }
  }

  lemma SelectsRejected(filters: seq<TagFilter>, p: Point)
    requires AllOp(filters, Unequal)
    ensures Selects(TagConfig(Grouped(filters), false), p) <==> AllHold(filters, p)
  {
    forall tag ensures p(tag) in Values(filters, tag) <==> SomeMatch(filters, tag, p) {
      ValuesMeaning(filters, tag, p(tag));
    }
    if Selects(TagConfig(Grouped(filters), false), p) {
      forall f | f in filters ensures FilterHolds(f, p) {
        assert f.tag in Tags(filters);
        assert !SomeMatch(filters, f.tag, p);
      }
    }
  }

  /** On AND-trees of time ranges and OR-groups over distinct tags, or of time ranges and
      inequalities, IsTagLogic succeeds and the grouped tags select exactly the points the
      condition selects. */
  lemma ConditionMeaningKept(e: Expr, p: Point)
    requires Reduced(e) && (AcceptedTree(e) || RejectedTree(e))
    ensures IsTagLogic(e) == Some(Comparisons(e))
    ensures Selects(TagConfig(Grouped(Comparisons(e)), Accepts(Comparisons(e))), p) <==> Eval(e, p)
  {
    TagLogicExact(e);
    var filters := Comparisons(e);
    if AcceptedTree(e) {
      AcceptedMeaning(e, p);
      if filters != [] { SelectsAccepted(filters, p); }
    } else {
      RejectedMeaning(e, p);
      if filters != [] { assert filters[0] in filters; }
      SelectsRejected(filters, p);
    }
  }

  /** Any condition of inequalities, whatever its ANDs and ORs, is only ever made stricter. */
  lemma {:induction false} InequalitiesOnlyStricter(e: Expr, p: Point)
    requires Reduced(e) && Condition(e) && AllOp(Comparisons(e), Unequal)
    requires Selects(TagConfig(Grouped(Comparisons(e)), false), p)
    ensures Eval(e, p)
  {
    SelectsRejected(Comparisons(e), p);
    AllHoldEval(e, p);
  }

  lemma AllHoldEval(e: Expr, p: Point)
    requires Reduced(e) && Condition(e) && AllHold(Comparisons(e), p)
    ensures Eval(e, p)
  {
    EvalIsEvalWith(e, p);
    AllTrue(e, HoldsAt(p));
  }

  // ---------- exactly when the meaning is kept ----------

  /** Which comparisons of a condition are true. */
  type Truth = TagFilter -> bool

  /** A condition as an AND/OR tree of the comparisons in it. */
  predicate EvalWith(e: Expr, truth: Truth)
    requires Reduced(e)
  {
    match e
    case Paren(inner) => EvalWith(inner, truth)
    case Binary(op, lhs, rhs) =>
      if IsTagFilter(e).Some? then truth(IsTagFilter(e).value)
      else if op == AND then EvalWith(lhs, truth) && EvalWith(rhs, truth)
      else if op == OR then EvalWith(lhs, truth) || EvalWith(rhs, truth)
      else true
    case _ => true
  }

  function HoldsAt(p: Point): Truth {
    (f: TagFilter) => FilterHolds(f, p)
  }

  lemma {:induction false} EvalIsEvalWith(e: Expr, p: Point)
    requires Reduced(e) && Condition(e)
    ensures Eval(e, p) <==> EvalWith(e, HoldsAt(p))
  {
    if e.Paren? {
      EvalIsEvalWith(e.inner, p);
    } else if IsTimeRange(e).Some? {
      TimeRangeIsNoFilter(e);
    } else if IsTagFilter(e).Some? {
      FilterMeaning(e, p);
    } else {
      EvalIsEvalWith(e.lhs, p);
      EvalIsEvalWith(e.rhs, p);
    }
  }

  /** With more of its comparisons true a condition holds all the more. */
  lemma {:induction false} EvalWithMonotone(e: Expr, few: Truth, many: Truth)
    requires Reduced(e) && Condition(e)
    requires forall f :: f in Comparisons(e) && few(f) ==> many(f)
    ensures EvalWith(e, few) ==> EvalWith(e, many)
  {
    if e.Paren? {
      EvalWithMonotone(e.inner, few, many);
    } else if IsTimeRange(e).Some? {
    } else if IsTagFilter(e).Some? {
      FilterIsComparison(e);
      assert IsTagFilter(e).value in Comparisons(e);
    } else {
      EvalWithMonotone(e.lhs, few, many);
      EvalWithMonotone(e.rhs, few, many);
    }
  }

  lemma {:induction false} AllTrue(e: Expr, truth: Truth)
    requires Reduced(e) && Condition(e) && forall f :: f in Comparisons(e) ==> truth(f)
    ensures EvalWith(e, truth)
  {
    if e.Paren? {
      AllTrue(e.inner, truth);
    } else if IsTimeRange(e).Some? {
    } else if IsTagFilter(e).Some? {
      FilterIsComparison(e);
      assert IsTagFilter(e).value in Comparisons(e);
    } else {
      AllTrue(e.lhs, truth);
      AllTrue(e.rhs, truth);
    }
  }

  /** The grouped tags select the points of the condition. */
  ghost predicate MeaningKept(e: Expr)
    requires Reduced(e)
  {
    forall p :: Eval(e, p) <==> Selects(TagConfig(Grouped(Comparisons(e)), Accepts(Comparisons(e))), p)
  }

  function AllBut(f: TagFilter): Truth {
    (g: TagFilter) => g != f
  }

  /** A string that no comparison mentions. */
  lemma {:induction false} Unmentioned(filters: seq<TagFilter>) returns (s: string)
    ensures forall f :: f in filters ==> |f.value| < |s|
  {
    s := "x";
    if filters != [] {
      var init, last := filters[..|filters| - 1], filters[|filters| - 1];
      s := Unmentioned(init) ;
      assert filters == init + [last];
      s := s + last.value + "x";
    }
  }

  /** The point with the compared value at the tag of f, and a value nobody mentions elsewhere. */
  function Only(f: TagFilter, other: string): Point {
    (tag: string) => if tag == f.tag then f.value else other
  }

  /** A condition of inequalities keeps its meaning exactly when it fails as soon as any one of its
      comparisons does: a finite check. */
  lemma InequalitiesExact(e: Expr)
    requires Reduced(e) && Condition(e) && AllOp(Comparisons(e), Unequal)
    ensures MeaningKept(e) <==> forall f :: f in Comparisons(e) ==> !EvalWith(e, AllBut(f))
  {
    var filters := Comparisons(e);
    assert !Accepts(filters) by { if filters != [] { assert filters[0] in filters; } }
    forall f | f in filters && EvalWith(e, AllBut(f)) ensures !MeaningKept(e) {
      OneFailing(e, f);
    }
    if forall f :: f in filters ==> !EvalWith(e, AllBut(f)) {
      forall p ensures Eval(e, p) <==> Selects(TagConfig(Grouped(filters), false), p) {
        NoneFailing(e, p);
      }
    }
  }

  /** Where only f fails the condition holds, and the filters do not select. */
  lemma OneFailing(e: Expr, f: TagFilter)
    requires Reduced(e) && Condition(e) && AllOp(Comparisons(e), Unequal)
    requires f in Comparisons(e) && EvalWith(e, AllBut(f)) && !Accepts(Comparisons(e))
    ensures !MeaningKept(e)
  {
    var other := Unmentioned(Comparisons(e));
    var p := Only(f, other);
    forall g | g in Comparisons(e) && AllBut(f)(g) ensures HoldsAt(p)(g) {
      assert g.op == Unequal && f.op == Unequal && |g.value| < |other|;
    }
    EvalWithMonotone(e, AllBut(f), HoldsAt(p));
    EvalIsEvalWith(e, p);
    SelectsRejected(Comparisons(e), p);
    assert !FilterHolds(f, p);
  }

  lemma NoneFailing(e: Expr, p: Point)
    requires Reduced(e) && Condition(e) && AllOp(Comparisons(e), Unequal)
    requires forall f :: f in Comparisons(e) ==> !EvalWith(e, AllBut(f))
    ensures Eval(e, p) <==> Selects(TagConfig(Grouped(Comparisons(e)), false), p)
  {
    SelectsRejected(Comparisons(e), p);
    if AllHold(Comparisons(e), p) {
      AllHoldEval(e, p);
    } else {
      var f :| f in Comparisons(e) && !FilterHolds(f, p);
      EvalWithMonotone(e, HoldsAt(p), AllBut(f));
      EvalIsEvalWith(e, p);
    }
  }

  function In(chosen: set<TagFilter>): Truth {
    (f: TagFilter) => f in chosen
  }

  /** The condition holds with the chosen comparisons true, and not without any one of them. */
  ghost predicate JustEnough(e: Expr, chosen: set<TagFilter>)
    requires Reduced(e)
  {
    EvalWith(e, In(chosen)) && forall f :: f in chosen ==> !EvalWith(e, In(chosen - {f}))
  }

  /** At most one of the comparisons for each tag. */
  ghost predicate Consistent(chosen: set<TagFilter>, filters: seq<TagFilter>) {
    && (forall f :: f in chosen ==> f in filters)
    && (forall f, g :: f in chosen && g in chosen && f.tag == g.tag ==> f == g)
  }

  ghost predicate Covers(chosen: set<TagFilter>, tag: string) {
    exists f :: f in chosen && f.tag == tag
  }

  /** One comparison for every tag of the condition. */
  ghost predicate Choice(chosen: set<TagFilter>, filters: seq<TagFilter>) {
    Consistent(chosen, filters) && forall tag :: tag in Tags(filters) ==> Covers(chosen, tag)
  }

  /** The point with the chosen value at every chosen tag, and a value nobody mentions elsewhere. */
  ghost function PointOf(chosen: set<TagFilter>, other: string): Point {
    (tag: string) => if Covers(chosen, tag) then (var f :| f in chosen && f.tag == tag; f.value) else other
  }

  /** Exactly the chosen comparisons hold at the point of a choice. */
  lemma PointOfHolds(chosen: set<TagFilter>, filters: seq<TagFilter>, other: string, g: TagFilter)
    requires Consistent(chosen, filters) && AllOp(filters, Equal) && g in filters
    requires forall f :: f in filters ==> |f.value| < |other|
    ensures FilterHolds(g, PointOf(chosen, other)) <==> g in chosen
  {
    if Covers(chosen, g.tag) {
      var f :| f in chosen && f.tag == g.tag;
      assert PointOf(chosen, other)(g.tag) == f.value;
      assert f.op == Equal && g.op == Equal;
    }
  }

  /** So a condition holds there as it does with just the chosen comparisons, and the filters select
      it if every tag has one. */
  lemma PointOfMeaning(e: Expr, chosen: set<TagFilter>) returns (p: Point)
    requires Reduced(e) && Condition(e) && AllOp(Comparisons(e), Equal) && Consistent(chosen, Comparisons(e))
    ensures Eval(e, p) <==> EvalWith(e, In(chosen))
    ensures EachTagMatches(Comparisons(e), p) <==> Choice(chosen, Comparisons(e))
  {
    var filters := Comparisons(e);
    var other := Unmentioned(filters);
    p := PointOf(chosen, other);
    forall g | g in filters ensures FilterHolds(g, p) <==> g in chosen { PointOfHolds(chosen, filters, other, g); }
    EvalIsEvalWith(e, p);
    EvalWithMonotone(e, HoldsAt(p), In(chosen));
    EvalWithMonotone(e, In(chosen), HoldsAt(p));
    MatchesCovered(filters, chosen, p);
  }

  lemma MatchesCovered(filters: seq<TagFilter>, chosen: set<TagFilter>, p: Point)
    requires AllOp(filters, Equal) && Consistent(chosen, filters)
    requires forall g :: g in filters ==> (FilterHolds(g, p) <==> g in chosen)
    ensures EachTagMatches(filters, p) <==> Choice(chosen, filters)
  {
    forall tag | tag in Tags(filters) ensures SomeMatch(filters, tag, p) <==> Covers(chosen, tag) {
      if SomeMatch(filters, tag, p) {
        var f :| f in filters && f.tag == tag && p(tag) == f.value;
        assert f in chosen;
      }
    }
  }

  lemma SelectsEqual(filters: seq<TagFilter>, p: Point)
    requires AllOp(filters, Equal)
    ensures Selects(TagConfig(Grouped(filters), Accepts(filters)), p) <==> EachTagMatches(filters, p)
  {
    if filters != [] { SelectsAccepted(filters, p); }
  }

  /** A condition of equalities keeps its meaning exactly when every choice of one comparison for each
      tag is just enough for it: again a finite check. */
  lemma EqualitiesExact(e: Expr)
    requires Reduced(e) && Condition(e) && AllOp(Comparisons(e), Equal)
    ensures MeaningKept(e) <==> forall chosen :: Choice(chosen, Comparisons(e)) ==> JustEnough(e, chosen)
  {
    if MeaningKept(e) {
      forall chosen | Choice(chosen, Comparisons(e)) ensures JustEnough(e, chosen) {
        KeptIsJustEnough(e, chosen);
      }
    }
    if forall chosen :: Choice(chosen, Comparisons(e)) ==> JustEnough(e, chosen) {
      forall p ensures Eval(e, p) <==> Selects(TagConfig(Grouped(Comparisons(e)), Accepts(Comparisons(e))), p) {
        JustEnoughKeeps(e, p);
      }
    }
  }

  lemma KeptIsJustEnough(e: Expr, chosen: set<TagFilter>)
    requires Reduced(e) && Condition(e) && AllOp(Comparisons(e), Equal)
    requires MeaningKept(e) && Choice(chosen, Comparisons(e))
    ensures JustEnough(e, chosen)
  {
    var p := PointOfMeaning(e, chosen);
    SelectsEqual(Comparisons(e), p);
    forall f | f in chosen ensures !EvalWith(e, In(chosen - {f})) {
      var q := PointOfMeaning(e, chosen - {f});
      SelectsEqual(Comparisons(e), q);
      assert f.tag in Tags(Comparisons(e)) && !Covers(chosen - {f}, f.tag);
    }
  }

  lemma JustEnoughKeeps(e: Expr, p: Point)
    requires Reduced(e) && Condition(e) && AllOp(Comparisons(e), Equal)
    requires forall chosen :: Choice(chosen, Comparisons(e)) ==> JustEnough(e, chosen)
    ensures Eval(e, p) <==> Selects(TagConfig(Grouped(Comparisons(e)), Accepts(Comparisons(e))), p)
  {
    var filters := Comparisons(e);
    var held := HeldAt(filters, p);
    SelectsEqual(filters, p);
    EvalIsEvalWith(e, p);
    MatchesCovered(filters, held, p);
    if Choice(held, filters) {
      EvalWithMonotone(e, In(held), HoldsAt(p));
    } else {
      var tag :| tag in Tags(filters) && !Covers(held, tag);
      var chosen := Extended(held, filters);
      WithoutTag(e, held, chosen, tag);
      EvalWithMonotone(e, HoldsAt(p), In(held));
    }
  }

  /** The comparisons that hold at a point. */
  lemma HeldAt(filters: seq<TagFilter>, p: Point) returns (held: set<TagFilter>)
    requires AllOp(filters, Equal)
    ensures Consistent(held, filters) && forall g :: g in filters ==> (FilterHolds(g, p) <==> g in held)
  {
    held := set f | f in filters && FilterHolds(f, p);
  }

  /** No part of a just sufficient choice that leaves out a tag is sufficient. */
  lemma WithoutTag(e: Expr, held: set<TagFilter>, chosen: set<TagFilter>, tag: string)
    requires Reduced(e) && Condition(e) && JustEnough(e, chosen)
    requires held <= chosen && Covers(chosen, tag) && !Covers(held, tag)
    ensures !EvalWith(e, In(held))
  {
    var f :| f in chosen && f.tag == tag;
    assert f !in held;
    EvalWithMonotone(e, In(held), In(chosen - {f}));
  }

  ghost function Pick(filters: seq<TagFilter>, tag: string): (f: TagFilter)
    requires tag in Tags(filters)
    ensures f in filters && f.tag == tag
  {
    var f :| f in filters && f.tag == tag;
    f
  }

  /** The tags with no chosen comparison get any one. */
  lemma Extended(few: set<TagFilter>, filters: seq<TagFilter>) returns (chosen: set<TagFilter>)
    requires Consistent(few, filters)
    ensures few <= chosen && Choice(chosen, filters)
  {
    var more := set tag | tag in Tags(filters) && !Covers(few, tag) :: Pick(filters, tag);
    chosen := few + more;
    forall tag | tag in Tags(filters) ensures Covers(chosen, tag) {
      if Covers(few, tag) {
        var f :| f in few && f.tag == tag;
        assert f in chosen;
      } else {
        assert Pick(filters, tag) in chosen;
      }
    }
    forall f | f in more ensures f in filters && f == Pick(filters, f.tag) && !Covers(few, f.tag) {}
    forall f | f in few ensures Covers(few, f.tag) {}
  }

  /** An OR of equalities with two tags is accepted, and a point that matches only the first is left out. */
  lemma OrBetweenTagsChangesMeaning(l: Expr, r: Expr, p: Point)
    requires Reduced(l) && Reduced(r) && IsTagFilter(l).Some? && IsTagFilter(r).Some?
    requires IsTagFilter(l).value.op == Equal && FilterHolds(IsTagFilter(l).value, p)
    requires IsTagFilter(r).value.op == Equal && !FilterHolds(IsTagFilter(r).value, p)
    requires IsTagFilter(l).value.tag != IsTagFilter(r).value.tag
    ensures var e := Binary(OR, l, r);
            && IsTagLogic(e) == Some(Comparisons(e)) && Eval(e, p)
            && !Selects(TagConfig(Grouped(Comparisons(e)), Accepts(Comparisons(e))), p)
  {
    var fl, fr := IsTagFilter(l).value, IsTagFilter(r).value;
    OrOfFilters(l, r);
    FilterMeaning(l, p);
    SelectsEqual([fl, fr], p);
    assert fr in [fl, fr] && fr.tag in Tags([fl, fr]);
    assert !SomeMatch([fl, fr], fr.tag, p);
  }

  lemma OrOfFilters(l: Expr, r: Expr)
    requires Reduced(l) && Reduced(r) && IsTagFilter(l).Some? && IsTagFilter(r).Some?
    requires IsTagFilter(l).value.op == IsTagFilter(r).value.op
    ensures var e := Binary(OR, l, r);
            Condition(e) && Comparisons(e) == [IsTagFilter(l).value, IsTagFilter(r).value]
            && IsTagLogic(e) == Some(Comparisons(e))
  {
    FilterIsComparison(l);
    FilterIsComparison(r);
    Pair(IsTagFilter(l).value, IsTagFilter(r).value);
    TagLogicExact(Binary(OR, l, r));
  }

  /** An OR of two equalities keeps its meaning exactly when they are about one tag. */
  lemma OrOfTwoExact(l: Expr, r: Expr)
    requires Reduced(l) && Reduced(r) && IsTagFilter(l).Some? && IsTagFilter(r).Some?
    requires IsTagFilter(l).value.op == Equal && IsTagFilter(r).value.op == Equal
    ensures MeaningKept(Binary(OR, l, r)) <==> IsTagFilter(l).value.tag == IsTagFilter(r).value.tag
  {
    var e := Binary(OR, l, r);
    var fl, fr := IsTagFilter(l).value, IsTagFilter(r).value;
    if fl.tag == fr.tag {
      FilterIsOrGroup(l);
      FilterIsOrGroup(r);
      assert OrGroup(e, fl.tag);
      forall p ensures Eval(e, p) <==> Selects(TagConfig(Grouped(Comparisons(e)), Accepts(Comparisons(e))), p) {
        ConditionMeaningKept(e, p);
      }
    } else {
      var p: Point := Only(fl, fr.value + "x");
      assert |p(fr.tag)| > |fr.value|;
      OrBetweenTagsChangesMeaning(l, r, p);
    }
  }

  lemma {:induction false} FilterIsOrGroup(e: Expr)
    requires Reduced(e) && IsTagFilter(e).Some? && IsTagFilter(e).value.op == Equal
    ensures OrGroup(e, IsTagFilter(e).value.tag)
  {
    if e.Paren? { FilterIsOrGroup(e.inner); }
  }
}
