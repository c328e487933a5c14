/** The conditions that become tag filters, spelled out as a grammar, and what they mean. Nothing here is
    defined by what the recognizers accept. */
module Conditions {
  import opened Wrappers
  import opened TagLogic

  // ---------- the grammar ----------

  /** now(), or now() and a duration with a minus between them. */
  datatype Moment = Now(call: string) | Ago(call: string, nanos: int, callFirst: bool, parens: bool)

  datatype Written =
    | During(op: Op, time: string, moment: Moment, timeFirst: bool)
    | Compared(cmp: Cmp, tag: string, value: string, tagFirst: bool)
    | Both(left: Written, right: Written)
    | Either(left: Written, right: Written)
    | InParens(inner: Written)

  predicate SpellsTime(s: string) {
    && |s| == 4 && (s[0] == 't' || s[0] == 'T') && (s[1] == 'i' || s[1] == 'I' || s[1] == '\U{0130}')
    && (s[2] == 'm' || s[2] == 'M') && (s[3] == 'e' || s[3] == 'E')
  }

  predicate SpellsNow(s: string) {
    |s| == 3 && (s[0] == 'n' || s[0] == 'N') && (s[1] == 'o' || s[1] == 'O') && (s[2] == 'w' || s[2] == 'W')
  }

  /** Two pairs of parentheses are reduced to one. */
  predicate Valid(w: Written) {
    match w
    case During(op, time, moment, _) =>
      (op == LT || op == LTE || op == GT || op == GTE) && SpellsTime(time) && SpellsNow(moment.call)
    case Compared(_, _, _, _) => true
    case Both(left, right) => Valid(left) && Valid(right)
    case Either(left, right) => Valid(left) && Valid(right)
    case InParens(inner) => !inner.InParens? && Valid(inner)
  }

  function SpelledMoment(m: Moment): Expr {
    match m
    case Now(call) => Call(call, [])
    case Ago(call, nanos, callFirst, parens) =>
      var difference := if callFirst then Binary(SUB, Call(call, []), DurationLiteral(nanos))
                        else Binary(SUB, DurationLiteral(nanos), Call(call, []));
      if parens then Paren(difference) else difference
  }

  function Spelled(w: Written): Expr {
    match w
    case During(op, time, moment, timeFirst) =>
      if timeFirst then Binary(op, VarRef(time), SpelledMoment(moment))
      else Binary(op, SpelledMoment(moment), VarRef(time))
    case Compared(cmp, tag, value, tagFirst) =>
      var op := if cmp == Equal then EQ else NEQ;
      if tagFirst then Binary(op, VarRef(tag), StringLiteral(value)) else Binary(op, StringLiteral(value), VarRef(tag))
    case Both(left, right) => Binary(AND, Spelled(left), Spelled(right))
    case Either(left, right) => Binary(OR, Spelled(left), Spelled(right))
    case InParens(inner) => Paren(Spelled(inner))
  }

  /** The comparisons from left to right. */
  function Filters(w: Written): seq<TagFilter> {
    match w
    case During(_, _, _, _) => []
    case Compared(cmp, tag, value, _) => [TagFilter(cmp, tag, value)]
    case Both(left, right) => Filters(left) + Filters(right)
    case Either(left, right) => Filters(left) + Filters(right)
    case InParens(inner) => Filters(inner)
  }

  /** Where the condition holds, its time ranges aside. */
  predicate Means(w: Written, p: Point) {
    match w
    case During(_, _, _, _) => true
    case Compared(cmp, tag, value, _) => (p(tag) == value) == (cmp == Equal)
    case Both(left, right) => Means(left, p) && Means(right, p)
    case Either(left, right) => Means(left, p) || Means(right, p)
    case InParens(inner) => Means(inner, p)
  }

  // ---------- the words ----------

  lemma Lowered(s: string)
    ensures |ToLower(s)| == |s|
    ensures s != "" ==> ToLower(s)[0] == LowerChar(s[0]) && ToLower(s)[1..] == ToLower(s[1..])
  {
    if s != "" { Lowered(s[1..]); }
  }

  lemma TimeSpelled(s: string)
    ensures ToLower(s) == "time" <==> SpellsTime(s)
  {
    Lowered(s);
    if |s| == 4 {
      Lowered(s[1..]);
      Lowered(s[2..]);
      Lowered(s[3..]);
      assert s[1..][1..] == s[2..] && s[2..][1..] == s[3..];
      var l := ToLower(s);
      assert l[0] == LowerChar(s[0]) && l[1..][0] == LowerChar(s[1]) && l[1..][1..][0] == LowerChar(s[2]);
      assert l[1..][1..][1..][0] == LowerChar(s[3]);
      assert l == [l[0], l[1], l[2], l[3]];
    }
  }

  lemma NowSpelled(s: string)
    ensures ToLower(s) == "now" <==> SpellsNow(s)
  {
    Lowered(s);
    if |s| == 3 {
      Lowered(s[1..]);
      Lowered(s[2..]);
      assert s[1..][1..] == s[2..];
      var l := ToLower(s);
      assert l[0] == LowerChar(s[0]) && l[1..][0] == LowerChar(s[1]) && l[1..][1..][0] == LowerChar(s[2]);
      assert l == [l[0], l[1], l[2]];
    }
  }

  // ---------- what is recognized ----------

  /** A comparison of time with a moment is a time range with that duration, for each of the four
      operators, on either side, and in parentheses. */
  lemma RangesRecognized(op: Op, time: string, call: string, nanos: int)
    requires op == LT || op == LTE || op == GT || op == GTE
    requires SpellsTime(time) && SpellsNow(call)
    ensures IsTimeRange(Binary(op, VarRef(time), Call(call, []))) == Some(0)
    ensures IsTimeRange(Binary(op, Call(call, []), VarRef(time))) == Some(0)
    ensures var ago := Binary(SUB, Call(call, []), DurationLiteral(nanos));
            && IsTimeRange(Binary(op, VarRef(time), ago)) == Some(nanos)
            && IsTimeRange(Binary(op, ago, VarRef(time))) == Some(nanos)
            && IsTimeRange(Paren(Binary(op, VarRef(time), Paren(ago)))) == Some(nanos)
  {
    TimeSpelled(time);
    NowSpelled(call);
    assert IsTime(VarRef(time)) && IsNow(Call(call, []));
  }

  /** And a comparison of a tag with a string is a filter with that operator, tag and value, either way
      round. */
  lemma FiltersRecognized(tag: string, value: string)
    ensures Reduced(VarRef(tag)) && Reduced(StringLiteral(value))
    ensures IsTagFilter(Binary(EQ, VarRef(tag), StringLiteral(value))) == Some(TagFilter(Equal, tag, value))
    ensures IsTagFilter(Binary(EQ, StringLiteral(value), VarRef(tag))) == Some(TagFilter(Equal, tag, value))
    ensures IsTagFilter(Binary(NEQ, VarRef(tag), StringLiteral(value))) == Some(TagFilter(Unequal, tag, value))
    ensures IsTagFilter(Binary(NEQ, StringLiteral(value), VarRef(tag))) == Some(TagFilter(Unequal, tag, value))
  {
    assert IsString(StringLiteral(value)) && IsVarRef(VarRef(tag));
  }

  function Nanos(m: Moment): int {
    if m.Now? then 0 else m.nanos
  }

  lemma MomentRecognized(m: Moment)
    requires SpellsNow(m.call)
    ensures Reduced(SpelledMoment(m)) && IsPreviousTime(SpelledMoment(m)) == Some(Nanos(m))
  {
    NowSpelled(m.call);
    assert IsNow(Call(m.call, []));
  }

  lemma DuringRecognized(w: Written)
    requires Valid(w) && w.During?
    ensures Reduced(Spelled(w)) && IsTimeRange(Spelled(w)) == Some(Nanos(w.moment))
  {
    MomentRecognized(w.moment);
    TimeSpelled(w.time);
    assert IsTime(VarRef(w.time)) && IsPreviousTime(VarRef(w.time)) == None;
  }

  lemma ComparedRecognized(w: Written)
    requires Valid(w) && w.Compared?
    ensures Reduced(Spelled(w)) && IsTagFilter(Spelled(w)) == Some(TagFilter(w.cmp, w.tag, w.value))
  {
    FiltersRecognized(w.tag, w.value);
  }

  /** Everything the grammar spells is recognized, and means what it says. */
  lemma {:induction false} WrittenIsCondition(w: Written, p: Point)
    requires Valid(w)
    ensures Reduced(Spelled(w)) && Condition(Spelled(w)) && Comparisons(Spelled(w)) == Filters(w)
    ensures Eval(Spelled(w), p) <==> Means(w, p)
  {
    match w
    case During(_, _, _, _) =>
      DuringRecognized(w);
      TimeRangeIsNoFilter(Spelled(w));
      TimeRangeHolds(Spelled(w), p);
    case Compared(_, _, _, _) =>
      ComparedRecognized(w);
      FilterIsComparison(Spelled(w));
      FilterMeaning(Spelled(w), p);
    case Both(left, right) =>
      WrittenIsCondition(left, p);
      WrittenIsCondition(right, p);
    case Either(left, right) =>
      WrittenIsCondition(left, p);
      WrittenIsCondition(right, p);
    case InParens(inner) =>
      WrittenIsCondition(inner, p);
  }

  // ---------- and nothing else ----------

  /** Nothing but binary expressions stands in parentheses. */
  lemma AtomsAreBare(e: Expr)
    requires Reduced(e)
    ensures IsTime(e) ==> e.VarRef?
    ensures IsNow(e) ==> e.Call? && e.args == []
    ensures IsDuration(e).Some? ==> e.DurationLiteral?
  {
    if e.Paren? { assert e.inner.Binary?; }
  }

  lemma MomentIsSpelled(e: Expr) returns (m: Moment)
    requires Reduced(e) && IsPreviousTime(e).Some?
    ensures SpellsNow(m.call) && SpelledMoment(m) == e && Nanos(m) == IsPreviousTime(e).value
  {
    var inner := if e.Paren? then e.inner else e;
    AtomsAreBare(inner);
    if inner.Binary? {
      AtomsAreBare(inner.lhs);
      AtomsAreBare(inner.rhs);
      var callFirst := IsNow(inner.lhs);
      var call, duration := if callFirst then inner.lhs else inner.rhs, if callFirst then inner.rhs else inner.lhs;
      NowSpelled(call.name);
      m := Ago(call.name, duration.nanos, callFirst, e.Paren?);
    } else {
      NowSpelled(e.name);
      m := Now(e.name);
    }
  }

  lemma RangeIsSpelled(e: Expr) returns (w: Written)
    requires Reduced(e) && IsTimeRange(e).Some? && !e.Paren?
    ensures Valid(w) && w.During? && Spelled(w) == e
  {
    AtomsAreBare(e.lhs);
    AtomsAreBare(e.rhs);
    var timeFirst := IsTime(e.lhs);
    var time, moment := if timeFirst then e.lhs else e.rhs, if timeFirst then e.rhs else e.lhs;
    TimeSpelled(time.name);
    var m := MomentIsSpelled(moment);
    w := During(e.op, time.name, m, timeFirst);
  }

  lemma FilterIsSpelled(e: Expr) returns (w: Written)
    requires Reduced(e) && IsTagFilter(e).Some? && !e.Paren?
    ensures Valid(w) && w.Compared? && Spelled(w) == e
  {
    var f := IsTagFilter(e).value;
    w := Compared(f.op, f.tag, f.value, IsVarRef(e.lhs));
  }

  lemma {:induction false} ConditionIsWritten(e: Expr) returns (w: Written)
    requires Reduced(e) && Condition(e)
    ensures Valid(w) && Spelled(w) == e
  {
    if e.Paren? {
      var inner := ConditionIsWritten(e.inner);
      w := InParens(inner);
    } else if IsTimeRange(e).Some? {
      w := RangeIsSpelled(e);
    } else if IsTagFilter(e).Some? {
      w := FilterIsSpelled(e);
    } else {
      var left := ConditionIsWritten(e.lhs);
      var right := ConditionIsWritten(e.rhs);
      w := if e.op == AND then Both(left, right) else Either(left, right);
    }
  }

  ghost predicate Writes(w: Written, e: Expr) {
    Valid(w) && Spelled(w) == e
  }

  /** The reduced expressions that are accepted are exactly those the grammar spells with one operator,
      and their comparisons are found from left to right. */
  lemma AcceptedIsWritten(e: Expr)
    requires Reduced(e)
    ensures IsTagLogic(e).Some? <==> exists w :: Writes(w, e) && OneOp(Filters(w))
    ensures forall w :: Writes(w, e) && OneOp(Filters(w)) ==> IsTagLogic(e) == Some(Filters(w))
  {
    TagLogicExact(e);
    forall w | Writes(w, e) ensures Condition(e) && Comparisons(e) == Filters(w) {
      WrittenIsCondition(w, (tag: string) => "");
    }
    if Condition(e) {
      var w := ConditionIsWritten(e);
      assert Writes(w, e);
    }
  }

  // ---------- Convert ----------

  /** The tag part of Convert, from the reduced condition on; None stands for the raw query. */
  method ConvertCondition(e: Expr) returns (r: Option<TagConfig>)
    requires Reduced(e)
    ensures r.Some? <==> exists w :: Writes(w, e) && OneOp(Filters(w))
    ensures forall w :: Writes(w, e) && OneOp(Filters(w)) ==>
      r == Some(TagConfig(Grouped(Filters(w)), Filters(w) != [] && AllOp(Filters(w), Equal)))
  {
    AcceptedIsWritten(e);
    TagLogicExact(e);
    var logic := IsTagLogic(e);
    if logic.None? {
      return None;
    }
    var filters := logic.value;
    var tags, ops := GroupTags(filters);
    var accepted := false;
    if |filters| > 0 {
      SingleOp(filters);
      if |ops| != 1 {
        return None;
      }
      accepted := Equal in ops;
    }
    r := Some(TagConfig(tags, accepted));
  }

  /** The map has the tags that are compared, each with its values in the order of the comparisons. */
  lemma {:induction false} GroupedInOrder(a: seq<TagFilter>, b: seq<TagFilter>, op: Cmp, tag: string,
                                          value: string, other: string)
    ensures Values(a + b, tag) == Values(a, tag) + Values(b, tag)
    ensures Values([TagFilter(op, tag, value)], other) == if tag == other then [value] else []
    ensures tag in Grouped(a) <==> Values(a, tag) != []
    ensures tag in Grouped(a) ==> Grouped(a)[tag] == Values(a, tag)
  {
    assert [TagFilter(op, tag, value)][..0] == [];
    if b == [] {
      assert a + b == a;
    } else {
      var init, last := b[..|b| - 1], b[|b| - 1];
      GroupedInOrder(a, init, op, tag, value, other);
      assert (a + b)[..|a + b| - 1] == a + init;
    }
    if tag in Grouped(a) {
      var f :| f in a && f.tag == tag;
      ValuesMeaning(a, tag, f.value);
    } else {
      ValuesNone(a, tag);
    }
  }

  // ---------- the forms whose meaning is kept ----------

  /** Equalities of one tag, joined by OR. */
  predicate OneOf(w: Written, tag: string) {
    match w
    case Compared(cmp, t, _, _) => cmp == Equal && t == tag
    case Either(left, right) => OneOf(left, tag) && OneOf(right, tag)
    case InParens(inner) => OneOf(inner, tag)
    case _ => false
  }

  function TagsOf(w: Written): set<string> {
    match w
    case During(_, _, _, _) => {}
    case Compared(_, tag, _, _) => {tag}
    case Both(left, right) => TagsOf(left) + TagsOf(right)
    case Either(left, right) => TagsOf(left) + TagsOf(right)
    case InParens(inner) => TagsOf(inner)
  }

  /** Such groups, about different tags, and time ranges, joined by AND. */
  ghost predicate EachOneOf(w: Written) {
    match w
    case During(_, _, _, _) => true
    case Both(left, right) => EachOneOf(left) && EachOneOf(right) && TagsOf(left) !! TagsOf(right)
    case InParens(inner) => EachOneOf(inner)
    case _ => exists tag :: OneOf(w, tag)
  }

  /** Inequalities and time ranges, joined by AND. */
  predicate NoneOf(w: Written) {
    match w
    case During(_, _, _, _) => true
    case Compared(cmp, _, _, _) => cmp == Unequal
    case Both(left, right) => NoneOf(left) && NoneOf(right)
    case Either(_, _) => false
    case InParens(inner) => NoneOf(inner)
  }

  lemma {:induction false} TagsOfFilters(w: Written)
    ensures Tags(Filters(w)) == TagsOf(w)
  {
    match w
    case During(_, _, _, _) =>
    case Compared(_, _, _, _) =>
    case Both(left, right) => TagsOfFilters(left); TagsOfFilters(right); TagsConcat(Filters(left), Filters(right));
    case Either(left, right) => TagsOfFilters(left); TagsOfFilters(right); TagsConcat(Filters(left), Filters(right));
    case InParens(inner) => TagsOfFilters(inner);
  }

  lemma TagsConcat(a: seq<TagFilter>, b: seq<TagFilter>)
    ensures Tags(a + b) == Tags(a) + Tags(b)
  {
    MatchConcat(a, b, "", (tag: string) => "");
  }

  lemma {:induction false} OneOfIsGroup(w: Written, tag: string)
    requires Valid(w) && OneOf(w, tag)
    ensures Reduced(Spelled(w)) && OrGroup(Spelled(w), tag)
  {
    match w
    case Compared(_, _, _, _) => ComparedRecognized(w);
    case Either(left, right) => OneOfIsGroup(left, tag); OneOfIsGroup(right, tag);
    case InParens(inner) => OneOfIsGroup(inner, tag);
  }

  lemma {:induction false} EachOneOfIsAccepted(w: Written)
    requires Valid(w) && EachOneOf(w)
    ensures Reduced(Spelled(w)) && AcceptedTree(Spelled(w))
  {
    match w
    case During(_, _, _, _) => DuringRecognized(w);
    case Both(left, right) =>
      EachOneOfIsAccepted(left);
      EachOneOfIsAccepted(right);
      TagsOfFilters(left);
      TagsOfFilters(right);
      WrittenIsCondition(left, (tag: string) => "");
      WrittenIsCondition(right, (tag: string) => "");
    case InParens(inner) => EachOneOfIsAccepted(inner);
    case _ =>
      var tag :| OneOf(w, tag);
      OneOfIsGroup(w, tag);
  }

  lemma {:induction false} NoneOfIsRejected(w: Written)
    requires Valid(w) && NoneOf(w)
    ensures Reduced(Spelled(w)) && RejectedTree(Spelled(w))
  {
    match w
    case During(_, _, _, _) => DuringRecognized(w);
    case Compared(_, _, _, _) => ComparedRecognized(w);
    case Both(left, right) => NoneOfIsRejected(left); NoneOfIsRejected(right);
    case InParens(inner) => NoneOfIsRejected(inner);
  }

  /** A condition of one of these forms becomes tags that select exactly the points it is about. */
  lemma WrittenMeaningKept(w: Written, p: Point)
    requires Valid(w) && (EachOneOf(w) || NoneOf(w))
    ensures Reduced(Spelled(w)) && IsTagLogic(Spelled(w)) == Some(Filters(w))
    ensures var accepted := Filters(w) != [] && AllOp(Filters(w), Equal);
            Selects(TagConfig(Grouped(Filters(w)), accepted), p) <==> Means(w, p)
  {
    if EachOneOf(w) { EachOneOfIsAccepted(w); } else { NoneOfIsRejected(w); }
    WrittenIsCondition(w, p);
    ConditionMeaningKept(Spelled(w), p);
  }
}
