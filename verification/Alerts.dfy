/** When the alert of a generated script fires: its node is evaluated with the variables the script
    declares, and compared with what the rule asks for in words. */
module Alerts {
  import opened Wrappers
  import opened Text
  import opened Literals
  import WhereFilter
  import opened Scripts

  // ---------- evaluating an alert ----------

  /** What a lambda compares. */
  datatype Sample = Num(x: real) | Word(s: string)

  /** The numbers that printed numbers stand for. */
  type Numbers = string -> real

  /** The stream at one moment: the value of the rule, the value a printed duration ago, and the number of
      points seen in a printed duration. */
  datatype Stream = Stream(value: Sample, ago: string -> real, points: string -> nat)

  function Constant(v: Var, num: Numbers): Option<Sample> {
    if v.None? then None
    else
      match v.value
      case Number(text) => Some(Num(num(text)))
      case StringText(text) => if VarString(v).Some? then Some(Word(VarString(v).value)) else None
      case _ => None
  }

  /** A comparison of the language. */
  predicate Compares(op: string, a: Sample, b: Sample) {
    match (a, b)
    case (Num(x), Num(y)) =>
      (op == ">" && x > y) || (op == "<" && x < y) || (op == "<=" && x <= y) || (op == ">=" && x >= y)
      || (op == "==" && x == y) || (op == "!=" && x != y)
    case (Word(s), Word(t)) =>
      (op == ">" && !AtMost(s, t)) || (op == "<" && !AtMost(t, s)) || (op == "<=" && AtMost(s, t))
      || (op == ">=" && AtMost(t, s)) || (op == "==" && s == t) || (op == "!=" && s != t)
    case _ => false
  }

  /** A value against a variable. */
  predicate Crosses(op: string, a: Sample, v: Var, num: Numbers) {
    Constant(v, num).Some? && Compares(op, a, Constant(v, num).value)
  }

  function Abs(x: real): real {
    if x < 0.0 then -x else x
  }

  function Amounts(now: real, past: real): real {
    now - past
  }

  function Percents(now: real, past: real): real
    requires past != 0.0
  {
    Abs(now - past) / past * 100.0
  }

  /** Whether the alert goes critical. */
  predicate Fires(script: Script, num: Numbers, d: Stream) {
    var t := script.vars.trigger;
    match script.alert
    case CritOf(op) => Crosses(op, d.value, t.crit, num)
    case RangeCrit(low, compound, high) =>
      if compound == "AND" then Crosses(low, d.value, t.lower, num) && Crosses(high, d.value, t.upper, num)
      else compound == "OR" && (Crosses(low, d.value, t.lower, num) || Crosses(high, d.value, t.upper, num))
    case AmountCrit(op) =>
      var shift := VarDuration(t.shift);
      shift.Some? && d.value.Num? && Crosses(op, Num(Amounts(d.value.x, d.ago(shift.value))), t.crit, num)
    case PercentCrit(op) =>
      var shift := VarDuration(t.shift);
      shift.Some? && d.value.Num? && d.ago(shift.value) != 0.0
      && Crosses(op, Num(Percents(d.value.x, d.ago(shift.value))), t.crit, num)
    case DeadmanNode =>
      var period := VarDuration(script.vars.wind.period);
      period.Some? && d.points(period.value) == 0
  }

  // ---------- what a rule asks for ----------

  /** The comparison a rule names in words. */
  predicate Asked(words: string, a: real, b: real) {
    || (words == "greater than" && a > b)
    || (words == "less than" && a < b)
    || (words == "equal to or less than" && a <= b)
    || (words == "equal to or greater" && a >= b)
    || (words == "equal to" && a == b)
    || (words == "not equal to" && a != b)
  }

  lemma AskedNumbers(words: string, op: string, a: real, b: real)
    requires KapaOperator(words) == Some(op)
    ensures Compares(op, Num(a), Num(b)) <==> Asked(words, a, b)
  {
    OperatorsInverse(words, op);
  }

  /** A threshold alert fires where the value compares with the given number as the rule says. */
  lemma ThresholdFires(rule: Rule, where: string, script: Script, num: Numbers, d: Stream, number: string)
    requires ScriptOf(rule, where) == Some(script)
    requires rule.trigger == Threshold && rule.values.rangeValue.None? && rule.values.value == Token(number)
    requires d.value.Num?
    ensures Fires(script, num, d) <==> Asked(rule.values.operator, d.value.x, num(number))
  {
    ScriptParts(rule, where);
    AskedNumbers(rule.values.operator, script.alert.op, d.value.x, num(number));
  }

  /** With a text, it fires where the value is that text, or is not. */
  lemma TextFires(rule: Rule, where: string, script: Script, num: Numbers, d: Stream, text: string)
    requires ScriptOf(rule, where) == Some(script)
    requires rule.trigger == Threshold && rule.values.rangeValue.None? && rule.values.value == Text(text)
    requires d.value.Word? && !EndsInBackslash(text)
    ensures rule.values.operator == "equal to" ==> (Fires(script, num, d) <==> d.value.s == text)
    ensures rule.values.operator == "not equal to" ==> (Fires(script, num, d) <==> d.value.s != text)
  {
    ScriptParts(rule, where);
    StringRead(text);
    assert Constant(script.vars.trigger.crit, num) == Some(Word(text));
  }

  lemma RangeNode(rule: Rule, where: string, script: Script)
    requires ScriptOf(rule, where) == Some(script) && rule.trigger == Threshold && rule.values.rangeValue.Some?
    ensures rule.values.operator == "inside range" ==> script.alert == RangeCrit(">=", "AND", "<=")
    ensures rule.values.operator == "outside range" ==> script.alert == RangeCrit("<", "OR", ">")
  {
    ScriptParts(rule, where);
    RangeOperatorsInverse(rule.values.operator, RangeOperators(rule.values.operator).value);
  }

  /** A range alert fires exactly inside, or exactly outside, of the two numbers of the rule. */
  lemma RangeFires(rule: Rule, where: string, script: Script, num: Numbers, d: Stream, low: string, high: string)
    requires ScriptOf(rule, where) == Some(script) && rule.trigger == Threshold
    requires rule.values.value == Token(low) && rule.values.rangeValue == Some(high) && d.value.Num?
    ensures rule.values.operator == "inside range" ==>
      (Fires(script, num, d) <==> num(low) <= d.value.x <= num(high))
    ensures rule.values.operator == "outside range" ==>
      (Fires(script, num, d) <==> d.value.x < num(low) || d.value.x > num(high))
  {
    ScriptParts(rule, where);
    RangeNode(rule, where, script);
    var t := script.vars.trigger;
    assert Constant(t.lower, num) == Some(Num(num(low))) && Constant(t.upper, num) == Some(Num(num(high)));
  }

  /** A relative alert fires where the change against the value a shift ago compares with the number of the
      rule as it says: the change itself, or in percent of that value. */
  lemma RelativeFires(rule: Rule, where: string, script: Script, num: Numbers, d: Stream, number: string)
    requires ScriptOf(rule, where) == Some(script) && rule.trigger == Relative
    requires rule.values.value == Token(number) && d.value.Num?
    ensures rule.values.change == Amount ==>
      (Fires(script, num, d) <==> Asked(rule.values.operator, d.value.x - d.ago(rule.values.shift), num(number)))
    ensures rule.values.change == Percent && d.ago(rule.values.shift) != 0.0 ==>
      (Fires(script, num, d) <==>
        Asked(rule.values.operator, Percents(d.value.x, d.ago(rule.values.shift)), num(number)))
  {
    ScriptParts(rule, where);
    var past := d.ago(rule.values.shift);
    AskedNumbers(rule.values.operator, script.alert.op, d.value.x - past, num(number));
    if past != 0.0 {
      AskedNumbers(rule.values.operator, script.alert.op, Percents(d.value.x, past), num(number));
    }
  }

  /** A deadman alert fires where no point was seen in the period of the rule. */
  lemma DeadmanFires(rule: Rule, where: string, script: Script, num: Numbers, d: Stream)
    requires ScriptOf(rule, where) == Some(script) && rule.trigger == Deadman
    ensures Fires(script, num, d) <==> d.points(rule.values.period) == 0
  {
    ScriptParts(rule, where);
  }

  // ---------- when there is a script ----------

  predicate HasFunction(fields: seq<WhereFilter.Field>) {
    exists i :: 0 <= i < |fields| && fields[i].kind == "func"
  }

  /** The one field of a rule: a field, or a function with a field among its arguments. */
  predicate HasField(fields: seq<WhereFilter.Field>) {
    |fields| == 1 &&
    (fields[0].kind == "func" ==> exists i :: 0 <= i < |fields[0].args| && fields[0].args[i].kind == "field")
  }

  predicate Known(v: TriggerValues, trigger: Trigger) {
    match trigger
    case Deadman => true
    case Relative => v.change != OtherChange && KapaOperator(v.operator).Some?
    case Threshold =>
      if v.rangeValue.None? then KapaOperator(v.operator).Some? else RangeOperators(v.operator).Some?
    case OtherTrigger => false
  }

  /** A script is generated exactly when the names are given, the trigger and its operators are known, and
      what the trigger needs is there: a period, or one field and the times of its window. */
  lemma GeneratesExactly(rule: Rule, where: string)
    ensures ScriptOf(rule, where).Some? <==>
      && rule.database != "" && rule.rp != "" && rule.measurement != "" && rule.name != ""
      && Known(rule.values, rule.trigger)
      && if rule.trigger == Deadman then rule.values.period != ""
         else HasField(rule.where.fields)
              && (HasFunction(rule.where.fields) ==> rule.groupByTime != "" && rule.every != "")
  {
    if |rule.where.fields| == 1 { FieldArgFound(rule.where.fields[0].args); }
  }

  lemma {:induction false} FieldArgFound(args: seq<WhereFilter.Field>)
    ensures FirstFieldArg(args).Some? <==> exists i :: 0 <= i < |args| && args[i].kind == "field"
  {
    if args != [] {
      FieldArgFound(args[1..]);
      forall i | 1 <= i < |args| ensures args[i] == args[1..][i - 1] {}
    }
  }

  /** The window of a function is as long as the grouping time and moves by the interval. */
  lemma FunctionWindow(rule: Rule, where: string, script: Script)
    requires ScriptOf(rule, where) == Some(script) && rule.trigger != Deadman
    ensures HasFunction(rule.where.fields) ==>
      VarDuration(script.vars.wind.period) == Some(rule.groupByTime)
      && VarDuration(script.vars.wind.every) == Some(rule.every)
    ensures !HasFunction(rule.where.fields) ==> script.vars.wind.period == None && script.vars.wind.every == None
  {
    ScriptParts(rule, where);
  }

  /** The value is the field, the function of its first argument, or the first field among the arguments. */
  lemma ValueDeclared(rule: Rule, where: string, script: Script)
    requires ScriptOf(rule, where) == Some(script) && rule.trigger != Deadman
    ensures |rule.where.fields| == 1
    ensures var field := rule.where.fields[0];
            && (field.kind == "field" ==> script.value == Some(Eval(field.value)))
            && (field.kind == "func" && field.args != [] && field.args[0].kind == "field" ==>
                  script.value == Some(Call(field.value, field.args[0].value)))
            && (field.kind == "func" && field.args != [] && field.args[0].kind != "field" ==>
                  script.value.Some? && script.value.value.Eval?
                  && FirstFieldArg(field.args[1..]) == Some(script.value.value.field))
  {
    ScriptParts(rule, where);
    assert "func"[1] != "field"[1];
  }
}
