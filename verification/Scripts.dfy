/** The alert rule and its TICKscript: generated from a rule, and read back into one. */
module Scripts {
  import opened Wrappers
  import opened Text
  import opened LambdaText
  import opened Literals
  import opened WhereFilter

  // ---------- operators ----------

  const GREATER_THAN := "greater than"
  const LESS_THAN := "less than"
  const LESS_THAN_EQUAL := "equal to or less than"
  const GREATER_THAN_EQUAL := "equal to or greater"
  const EQUAL := "equal to"
  const NOT_EQUAL := "not equal to"
  const INSIDE_RANGE := "inside range"
  const OUTSIDE_RANGE := "outside range"

  function KapaOperator(operator: string): Option<string> {
    if operator == GREATER_THAN then Some(">")
    else if operator == LESS_THAN then Some("<")
    else if operator == LESS_THAN_EQUAL then Some("<=")
    else if operator == GREATER_THAN_EQUAL then Some(">=")
    else if operator == EQUAL then Some("==")
    else if operator == NOT_EQUAL then Some("!=")
    else None
  }

  function ChronoOperator(operator: string): Option<string> {
    if operator == ">" then Some(GREATER_THAN)
    else if operator == "<" then Some(LESS_THAN)
    else if operator == "<=" then Some(LESS_THAN_EQUAL)
    else if operator == ">=" then Some(GREATER_THAN_EQUAL)
    else if operator == "==" then Some(EQUAL)
    else if operator == "!=" then Some(NOT_EQUAL)
    else None
  }

  /** The two operator tables are inverse to each other, on all strings. */
  lemma OperatorsInverse(name: string, op: string)
    ensures KapaOperator(name) == Some(op) <==> ChronoOperator(op) == Some(name)
  {
  }

  function RangeOperators(operator: string): Option<seq<string>> {
    if operator == INSIDE_RANGE then Some([">=", "AND", "<="])
    else if operator == OUTSIDE_RANGE then Some(["<", "OR", ">"])
    else None
  }

  function ChronoRangeOperators(ops: seq<string>): Option<string> {
    if |ops| != 3 then None
    else if ops[0] == ">=" && ops[1] == "AND" && ops[2] == "<=" then Some(INSIDE_RANGE)
    else if ops[0] == "<" && ops[1] == "OR" && ops[2] == ">" then Some(OUTSIDE_RANGE)
    else None
  }

  lemma RangeOperatorsInverse(name: string, ops: seq<string>)
    ensures RangeOperators(name) == Some(ops) <==> ChronoRangeOperators(ops) == Some(name)
    ensures RangeOperators(name) == Some(ops) ==> |ops| == 3
  {
    assert INSIDE_RANGE[0] != OUTSIDE_RANGE[0] && ">="[0] != "<"[0];
    if |ops| == 3 { assert ops == [ops[0], ops[1], ops[2]]; }
  }

  // ---------- rules ----------

  datatype Trigger = Deadman | Relative | Threshold | OtherTrigger

  datatype Change = Percent | Amount | OtherChange

  /** A string, or what is a number, TRUE or FALSE. */
  datatype Value = Text(text: string) | Token(token: string)

  datatype TriggerValues = TriggerValues(change: Change, operator: string, value: Value,
                                         rangeValue: Option<string>, period: string, shift: string)

  datatype Rule = Rule(name: string, trigger: Trigger, message: string, details: string, every: string,
                       values: TriggerValues, database: string, rp: string, measurement: string,
                       where: QueryConfig, groupByTags: seq<string>, groupByTime: string)

  function TriggerName(t: Trigger): string {
    match t
    case Deadman => "deadman"
    case Relative => "relative"
    case Threshold => "threshold"
    case OtherTrigger => ""
  }

  // ---------- scripts ----------

  /** The text of a string is what stands between its quotes. */
  datatype Declared = StringText(text: string) | ListOf(text: string) | LambdaOf(text: string)
    | Number(text: string) | Duration(text: string) | Junk(text: string)

  /** A variable of the script, if it is declared. */
  type Var = Option<Declared>

  /** The variables of a script that are read back: those of all alerts, of a window, and of the trigger. */
  datatype CommonVars = CommonVars(db: Var, rp: Var, measurement: Var, groupBy: Var, where: Var, name: Var,
                                   message: Var, triggerType: Var, details: Var)

  datatype WindowVars = WindowVars(period: Var, every: Var)

  datatype TriggerVars = TriggerVars(crit: Var, lower: Var, upper: Var, shift: Var)

  datatype Vars = Vars(common: CommonVars, wind: WindowVars, trigger: TriggerVars)

  datatype ValueNode = Call(func: string, field: string) | Eval(field: string)

  datatype AlertNode = CritOf(op: string) | AmountCrit(op: string) | PercentCrit(op: string)
    | RangeCrit(low: string, compound: string, high: string) | DeadmanNode

  /** The declarations, the node that makes the value, and the nodes that make the alert. */
  datatype Script = Script(vars: Vars, value: Option<ValueNode>, alert: AlertNode)

  // ---------- generating ----------

  function FormatValue(v: Value): Declared {
    match v
    case Text(s) => StringText(Escape(s))
    case Token(t) => Number(t)
  }

  /** A value printed as it is. */
  function PrintValue(v: Value): Declared {
    match v
    case Text(s) => Junk(s)
    case Token(t) => Number(t)
  }

  function AnyFunc(fields: seq<Field>): bool {
    exists i :: 0 <= i < |fields| && fields[i].kind == "func"
  }

  /** A window of time is declared for a deadman, and for a field that is a function. */
  function WindowOf(rule: Rule): Option<WindowVars> {
    if rule.trigger == Deadman then
      if rule.values.period == "" then None else Some(WindowVars(Some(Duration(rule.values.period)), None))
    else if AnyFunc(rule.where.fields) then
      if rule.groupByTime == "" || rule.every == "" then None
      else Some(WindowVars(Some(Duration(rule.groupByTime)), Some(Duration(rule.every))))
    else Some(WindowVars(None, None))
  }

  function CommonOf(rule: Rule, where: string): CommonVars {
    CommonVars(
      Some(StringText(Escape(rule.database))), Some(StringText(Escape(rule.rp))),
      Some(StringText(Escape(rule.measurement))), Some(ListOf(ListText(rule.groupByTags))), Some(LambdaOf(where)),
      Some(StringText(Escape(rule.name))), Some(StringText(Escape(rule.message))),
      Some(StringText(TriggerName(rule.trigger))),
      if rule.details == "" then None else Some(StringText(rule.details)))
  }

  function TriggerOf(rule: Rule): TriggerVars {
    match rule.trigger
    case Threshold =>
      if rule.values.rangeValue.None? then TriggerVars(Some(FormatValue(rule.values.value)), None, None, None)
      else TriggerVars(None, Some(PrintValue(rule.values.value)), Some(Number(rule.values.rangeValue.value)), None)
    case Relative =>
      TriggerVars(Some(PrintValue(rule.values.value)), None, None, Some(Duration(rule.values.shift)))
    case Deadman => TriggerVars(None, None, None, None)
    case OtherTrigger => TriggerVars(None, None, None, None)
  }

  predicate NoneEmpty(rule: Rule) {
    rule.database != "" && rule.rp != "" && rule.measurement != "" && rule.name != "" && rule.trigger != OtherTrigger
  }

  /** The name of the one field, or of the first field argument of the one function. */
  function FieldName(fields: seq<Field>): Option<string> {
    if |fields| != 1 then None
    else if fields[0].kind == "func" then FirstFieldArg(fields[0].args)
    else Some(fields[0].value)
  }

  function FirstFieldArg(args: seq<Field>): Option<string> {
    if args == [] then None
    else if args[0].kind == "field" then Some(args[0].value)
    else FirstFieldArg(args[1..])
  }

  function ValueOf(field: Field, name: string): ValueNode {
    if field.kind == "func" && field.args != [] && field.args[0].kind == "field" then
      Call(field.value, field.args[0].value)
    else if field.kind == "field" then Eval(field.value)
    else Eval(name)
  }

  function AlertOf(rule: Rule): Option<AlertNode> {
    match rule.trigger
    case Deadman => Some(DeadmanNode)
    case OtherTrigger => None
    case Relative =>
      (match KapaOperator(rule.values.operator)
       case None => None
       case Some(op) =>
         if rule.values.change == Percent then Some(PercentCrit(op))
         else if rule.values.change == Amount then Some(AmountCrit(op))
         else None)
    case Threshold =>
      if rule.values.rangeValue.None? then
        (match KapaOperator(rule.values.operator)
         case None => None
         case Some(op) => Some(CritOf(op)))
      else
        (match RangeOperators(rule.values.operator)
         case None => None
         case Some(ops) => RangeOperatorsInverse(rule.values.operator, ops); Some(RangeCrit(ops[0], ops[1], ops[2])))
  }

  /** The script of a rule, given the text of its tag filter; None is an error. */
  function ScriptOf(rule: Rule, where: string): Option<Script> {
    var wind, alert := WindowOf(rule), AlertOf(rule);
    if !NoneEmpty(rule) || wind.None? || alert.None? then None
    else
      var vars := Vars(CommonOf(rule, where), wind.value, TriggerOf(rule));
      if rule.trigger == Deadman then Some(Script(vars, None, alert.value))
      else
        var name := FieldName(rule.where.fields);
        if name.None? then None
        else Some(Script(vars, Some(ValueOf(rule.where.fields[0], name.value)), alert.value))
  }

  method Window(rule: Rule) returns (r: Option<WindowVars>)
    ensures r == WindowOf(rule)
  {
    if rule.trigger == Deadman {
      if rule.values.period == "" {
        return None;
      }
      return Some(WindowVars(Some(Duration(rule.values.period)), None));
    }
    var fields := rule.where.fields;
    for i := 0 to |fields|
      invariant forall j :: 0 <= j < i ==> fields[j].kind != "func"
    {
      if fields[i].kind == "func" {
        if rule.groupByTime == "" || rule.every == "" {
          return None;
        }
        return Some(WindowVars(Some(Duration(rule.groupByTime)), Some(Duration(rule.every))));
      }
    }
    r := Some(WindowVars(None, None));
  }

  method FieldOf(fields: seq<Field>) returns (r: Option<string>)
    ensures r == FieldName(fields)
  {
    if |fields| != 1 {
      return None;
    }
    var field := fields[0];
    if field.kind == "func" {
      for i := 0 to |field.args|
        invariant FirstFieldArg(field.args) == FirstFieldArg(field.args[i..])
      {
        if field.args[i].kind == "field" {
          return Some(field.args[i].value);
        }
        assert field.args[i..][1..] == field.args[i + 1..];
      }
      return None;
    }
    r := Some(field.value);
  }

  /** The stream branch of Data; None is an error, and a deadman has no value node. */
  method Data(rule: Rule) returns (r: Option<Option<ValueNode>>)
    ensures r == if rule.trigger == Deadman then Some(None)
                 else if FieldName(rule.where.fields).None? then None
                 else Some(Some(ValueOf(rule.where.fields[0], FieldName(rule.where.fields).value)))
  {
    if rule.trigger == Deadman {
      return Some(None);
    }
    var fields := rule.where.fields;
    var name := FieldOf(fields);
    if name.None? {
      return None;
    }
    var value: Option<ValueNode> := None;
    for i := 0 to |fields|
      invariant i == 0 ==> value == None
      invariant i == 1 ==> ValueOf(fields[0], name.value) == if value.Some? then value.value else Eval(name.value)
    {
      if fields[i].kind == "func" && |fields[i].args| > 0 && fields[i].args[0].kind == "field" {
        value := Some(Call(fields[i].value, fields[i].args[0].value));
        break;
      }
      if value.Some? {
        break;
      }
      if fields[i].kind == "field" {
        value := Some(Eval(fields[i].value));
      }
    }
    if value.None? {
      value := Some(Eval(name.value));
    }
    r := Some(value);
  }

  /** Generate, as far as Reverse reads the script; the text of the filter is that of any order of its tags. */
  method Generate(rule: Rule) returns (r: Option<Script>)
    ensures forall order :: Enumerates(order, rule.where) ==> r == ScriptOf(rule, Lambda(rule.where, order))
  {
    if !NoneEmpty(rule) {
      return None;
    }
    var wind := Window(rule);
    if wind.None? {
      return None;
    }
    var groups := GroupBy(rule.groupByTags);
    var where := Expression(rule.where);
    var data := Data(rule);
    if data.None? {
      return None;
    }
    var alert := AlertOf(rule);
    if alert.None? {
      return None;
    }
    var common := CommonOf(rule, where).(groupBy := Some(ListOf(groups)));
    r := Some(Script(Vars(common, wind.value, TriggerOf(rule)), data.value, alert.value));
  }

  // ---------- searching the text of a script ----------

  const VAR_CRIT := "var crit = "
  const VAR_LOWER := "var lower = "
  const VAR_UPPER := "var upper = "
  const AMOUNT_EVAL := "eval(lambda: float(\"current.value\" - \"past.value\"))"
  const PERCENT_EVAL :=
    "|eval(lambda: abs(float(\"current.value\" - \"past.value\")) / float(\"past.value\") * 100.0)"
  const CRIT_CALL := ".crit(lambda:"
  const VALUE_REFERENCE := "\"value\""

  predicate Contains(s: string, phrase: string) {
    phrase <= s || (s != "" && Contains(s[1..], phrase))
  }

  function TextIn(v: Var): string {
    if v.Some? then v.value.text else ""
  }

  /** The texts in a script that come from the user, in the order of the script. No search below can
      match across two of them. */
  function Texts(script: Script): seq<string> {
    var c := script.vars.common;
    [TextIn(c.db), TextIn(c.rp), TextIn(c.measurement), TextIn(c.groupBy), TextIn(c.where), TextIn(c.name),
     TextIn(c.message), TextIn(c.details), TextIn(script.vars.trigger.crit),
     if script.value.None? then "" else script.value.value.field]
  }

  predicate Mentions(script: Script, phrase: string) {
    exists i :: 0 <= i < |Texts(script)| && Contains(Texts(script)[i], phrase)
  }

  /** What follows \s+ and the word at the start of s; the word starts with no space. */
  function AfterWord(s: string, word: string): (r: Option<string>)
    ensures r.Some? ==> |r.value| < |s|
  {
    if s != "" && IsSpace(s[0]) && word <= SkipSpace(s) then Some(SkipSpace(s)[|word|..]) else None
  }

  /** \s+(.*)\s+w for each of the words w, at the start of s, taking as little as it can. */
  function Groups(s: string, words: seq<string>): (r: Option<seq<string>>)
    ensures r.Some? ==> |r.value| == |words|
    decreases |s|
  {
    if words == [] then Some([])
    else if s == "" || !IsSpace(s[0]) then None
    else
      var groups := Capture(s[1..], words);
      if groups.Some? then groups else Groups(s[1..], words)
  }

  /** (.*)\s+w, and the groups of the words after w. */
  function Capture(s: string, words: seq<string>): (r: Option<seq<string>>)
    requires words != []
    ensures r.Some? ==> |r.value| == |words|
    decreases |s|
  {
    var tail := AfterWord(s, words[0]);
    var rest := if tail.Some? then Groups(tail.value, words[1..]) else None;
    if rest.Some? then Some([""] + rest.value)
    else if s == "" || s[0] == '\n' then None
    else
      match Capture(s[1..], words)
      case None => None
      case Some(groups) => Some([[s[0]] + groups[0]] + groups[1..])
  }

  /** The operators of the leftmost critical condition in a text. */
  function FindCrit(s: string, words: seq<string>): (r: Option<seq<string>>)
    ensures r.Some? ==> |r.value| == |words|
  {
    if s == "" then None
    else
      var value := if CRIT_CALL <= s then AfterWord(s[|CRIT_CALL|..], VALUE_REFERENCE) else None;
      var groups := if value.Some? then Groups(value.value, words) else None;
      if groups.Some? then groups else FindCrit(s[1..], words)
  }

  function FindInTexts(texts: seq<string>, words: seq<string>): (r: Option<seq<string>>)
    ensures r.Some? ==> |r.value| == |words|
  {
    if texts == [] then None
    else
      var groups := FindCrit(texts[0], words);
      if groups.Some? then groups else FindInTexts(texts[1..], words)
  }

  const CRIT_WORDS := ["crit)"]
  const RANGE_WORDS := ["lower", VALUE_REFERENCE, "upper)"]

  /** What the searches through a script find in the texts of the user. */
  datatype Found = Found(one: Option<seq<string>>, three: Option<seq<string>>, varCrit: bool, varLower: bool,
                         varUpper: bool, amount: bool, percent: bool)

  function Search(script: Script): (found: Found)
    ensures found.one.Some? ==> |found.one.value| == 1
    ensures found.three.Some? ==> |found.three.value| == 3
  {
    Found(FindInTexts(Texts(script), CRIT_WORDS), FindInTexts(Texts(script), RANGE_WORDS), Mentions(script, VAR_CRIT),
          Mentions(script, VAR_LOWER), Mentions(script, VAR_UPPER), Mentions(script, AMOUNT_EVAL),
          Mentions(script, PERCENT_EVAL))
  }

  // ---------- reading ----------

  datatype Kind = DeadmanKind | ThresholdKind | RangeKind | AmountKind | PercentKind

  /** alertType: decided by phrases in the text, wherever they stand. */
  function AlertType(kind: string, t: TriggerVars, alert: AlertNode, found: Found): Option<Kind> {
    if kind == "threshold" then
      if t.crit.Some? || found.varCrit then Some(ThresholdKind)
      else if (t.lower.Some? || found.varLower) && (t.upper.Some? || found.varUpper) then Some(RangeKind)
      else None
    else if kind == "relative" then
      if alert.AmountCrit? || found.amount then Some(AmountKind)
      else if alert.PercentCrit? || found.percent then Some(PercentKind)
      else None
    else if kind == "deadman" then Some(DeadmanKind)
    else None
  }

  /** extractCrit: one operator if the text has a condition on crit, else three if it has one on lower and upper. */
  function ExtractCrit(alert: AlertNode, found: Found): seq<string> {
    if found.one.Some? then found.one.value
    else if alert.CritOf? || alert.AmountCrit? || alert.PercentCrit? then [alert.op]
    else if found.three.Some? then found.three.value
    else if alert.RangeCrit? then [alert.low, alert.compound, alert.high]
    else []
  }

  predicate IsWord(s: string) {
    s != "" && forall i :: 0 <= i < |s| ==>
      'a' <= s[i] <= 'z' || 'A' <= s[i] <= 'Z' || '0' <= s[i] <= '9' || s[i] == '_'
  }

  /** extractFieldFunc, and the fields of the rule made of it. */
  function FieldsOf(value: Option<ValueNode>): seq<Field> {
    if value.Some? && value.value.Call? && IsWord(value.value.func) && Lacks(value.value.field, '\n') then
      [Field(value.value.func, "func", [Field(value.value.field, "field", [])])]
    else if value.Some? && value.value.Eval? && Lacks(value.value.field, '\n') then
      [Field(value.value.field, "field", [])]
    else [Field("", "field", [])]
  }

  predicate VarParses(v: Var) {
    v.None? ||
    match v.value
    case StringText(text) => Unquote('\'', text).Some?
    case ListOf(text) => ReadList(text).Some?
    case LambdaOf(text) => ParseLambda(text).Some?
    case Number(_) => true
    case Duration(_) => true
    case Junk(_) => false
  }

  predicate CommonParses(c: CommonVars) {
    && VarParses(c.db) && VarParses(c.rp) && VarParses(c.measurement) && VarParses(c.groupBy) && VarParses(c.where)
    && VarParses(c.name) && VarParses(c.message) && VarParses(c.triggerType) && VarParses(c.details)
  }

  predicate TriggerParses(t: TriggerVars) {
    VarParses(t.crit) && VarParses(t.lower) && VarParses(t.upper) && VarParses(t.shift)
  }

  predicate ValueParses(value: Option<ValueNode>) {
    value.None? || (if value.value.Call? then Unquote('\'', value.value.field).Some?
                    else Unquote('"', value.value.field).Some?)
  }

  /** What the parser of the language accepts, as far as it is modelled. */
  predicate Parses(script: Script) {
    && CommonParses(script.vars.common) && TriggerParses(script.vars.trigger)
    && VarParses(script.vars.wind.period) && VarParses(script.vars.wind.every)
    && ValueParses(script.value)
  }

  function VarString(v: Var): Option<string> {
    if v.Some? && v.value.StringText? then Unquote('\'', v.value.text) else None
  }

  function VarList(v: Var): Option<seq<string>> {
    if v.Some? && v.value.ListOf? then ReadList(v.value.text) else None
  }

  function VarFilter(v: Var): Option<Filter> {
    if v.Some? && v.value.LambdaOf? then ReadFilter(v.value.text) else None
  }

  datatype Common = Common(db: string, rp: string, measurement: string, name: string, message: string,
                           triggerType: string, groupBy: seq<string>, filter: Filter, detail: string)

  function ExtractCommon(c: CommonVars): Option<Common> {
    var db, rp, measurement := VarString(c.db), VarString(c.rp), VarString(c.measurement);
    var name, message, kind := VarString(c.name), VarString(c.message), VarString(c.triggerType);
    var groups, filter, detail := VarList(c.groupBy), VarFilter(c.where), VarString(c.details);
    if db.None? || rp.None? || measurement.None? || name.None? || message.None? || kind.None?
       || groups.None? || filter.None? then None
    else
      Some(Common(db.value, rp.value, measurement.value, name.value, message.value, kind.value, groups.value,
                  filter.value, if detail.Some? then detail.value else ""))
  }

  /** varValue. A number is kept as it was printed; the language formats it again. */
  function VarValue(v: Var): Option<Value> {
    if v.Some? && v.value.Number? then Some(Token(v.value.text))
    else if VarString(v).Some? then Some(Text(VarString(v).value))
    else None
  }

  /** varDuration. */
  function VarDuration(v: Var): Option<string> {
    if v.Some? && v.value.Duration? then Some(v.value.text) else None
  }

  datatype AlertValues = DeadmanValues | ThresholdValues(crit: Value) | RangeValues(lower: Value, upper: Value)
    | RelativeValues(shift: string, crit: Value)

  function ExtractAlert(triggerType: Var, t: TriggerVars): Option<AlertValues> {
    match VarString(triggerType)
    case None => None
    case Some(kind) =>
      if kind == "deadman" then Some(DeadmanValues)
      else if kind == "threshold" then
        if VarValue(t.crit).Some? then Some(ThresholdValues(VarValue(t.crit).value))
        else if VarValue(t.lower).Some? && VarValue(t.upper).Some? then
          Some(RangeValues(VarValue(t.lower).value, VarValue(t.upper).value))
        else None
      else if kind == "relative" then
        if VarDuration(t.shift).Some? && VarValue(t.crit).Some? then
          Some(RelativeValues(VarDuration(t.shift).value, VarValue(t.crit).value))
        else None
      else None
  }

  /** The trigger values that are read back. */
  datatype Condition = Condition(change: Option<Change>, operator: string, value: Option<Value>,
                                 rangeValue: Option<Value>, shift: string)

  function ConditionOf(kind: Kind, ops: seq<string>, values: AlertValues): Option<Condition> {
    match kind
    case DeadmanKind => Some(Condition(None, "", None, None, ""))
    case RangeKind =>
      if |ops| != 3 || !values.RangeValues? then None
      else
        var operator := ChronoRangeOperators(ops);
        Some(Condition(None, if operator.Some? then operator.value else "", Some(values.lower), Some(values.upper), ""))
    case ThresholdKind =>
      if |ops| != 1 || !values.ThresholdValues? then None
      else
        (match ChronoOperator(ops[0])
         case None => None
         case Some(operator) => Some(Condition(None, operator, Some(values.crit), None, "")))
    case AmountKind => Changed(Amount, ops, values)
    case PercentKind => Changed(Percent, ops, values)
  }

  function Changed(change: Change, ops: seq<string>, values: AlertValues): Option<Condition> {
    if |ops| != 1 || !values.RelativeValues? then None
    else
      match ChronoOperator(ops[0])
      case None => None
      case Some(operator) => Some(Condition(Some(change), operator, Some(values.crit), None, values.shift))
  }

  /** The part of a rule that is read back from its script. */
  datatype Recovered = Recovered(common: Common, fields: seq<Field>, condition: Condition, timing: Timing)

  /** The period of a deadman; the grouping time and the interval of another rule. */
  datatype Timing = Timing(period: string, groupByTime: string, every: string)

  function OrEmpty(text: Option<string>): string {
    if text.Some? then text.value else ""
  }

  function TimingOf(kind: Kind, wind: WindowVars): Timing {
    if kind == DeadmanKind then Timing(OrEmpty(VarDuration(wind.period)), "", "")
    else Timing("", OrEmpty(VarDuration(wind.period)), OrEmpty(VarDuration(wind.every)))
  }

  function Reversed(script: Script): Option<Recovered> {
    if Parses(script) then
      Reading(script.vars.common, script.vars.wind, script.vars.trigger, script.value, script.alert, Search(script))
    else None
  }

  function Reading(c: CommonVars, wind: WindowVars, t: TriggerVars, value: Option<ValueNode>, alert: AlertNode,
                   found: Found): Option<Recovered> {
    var kind, common := AlertType(TextIn(c.triggerType), t, alert, found), ExtractCommon(c);
    var values := ExtractAlert(c.triggerType, t);
    if kind.None? || common.None? || values.None? then None
    else
      match ConditionOf(kind.value, ExtractCrit(alert, found), values.value)
      case None => None
      case Some(condition) =>
        Some(Recovered(common.value, if kind.value == DeadmanKind then [] else FieldsOf(value), condition,
                       TimingOf(kind.value, wind)))
  }

  /** The last part of Reverse: the trigger values. */
  method ReadCondition(kind: Kind, ops: seq<string>, values: AlertValues) returns (r: Option<Condition>)
    ensures r == ConditionOf(kind, ops, values)
    ensures r.Some? && kind in {ThresholdKind, AmountKind, PercentKind} ==>
      |ops| == 1 && KapaOperator(r.value.operator) == Some(ops[0])
    ensures r.Some? && kind == RangeKind ==>
      |ops| == 3 && (r.value.operator != "" ==> RangeOperators(r.value.operator) == Some(ops))
  {
    if kind in {ThresholdKind, AmountKind, PercentKind} && |ops| != 1 {
      return None;
    }
    if kind == RangeKind && |ops| != 3 {
      return None;
    }
    match kind {
      case AmountKind | PercentKind =>
        var operator := ChronoOperator(ops[0]);
        if operator.None? || !values.RelativeValues? {
          return None;
        }
        OperatorsInverse(operator.value, ops[0]);
        r := Some(Condition(Some(if kind == AmountKind then Amount else Percent), operator.value, Some(values.crit),
                            None, values.shift));
      case ThresholdKind =>
        var operator := ChronoOperator(ops[0]);
        if operator.None? || !values.ThresholdValues? {
          return None;
        }
        OperatorsInverse(operator.value, ops[0]);
        r := Some(Condition(None, operator.value, Some(values.crit), None, ""));
      case RangeKind =>
        var operator := ChronoRangeOperators(ops);
        if !values.RangeValues? {
          return None;
        }
        if operator.Some? { RangeOperatorsInverse(operator.value, ops); }
        r := Some(Condition(None, if operator.Some? then operator.value else "", Some(values.lower),
                            Some(values.upper), ""));
      case DeadmanKind =>
        r := Some(Condition(None, "", None, None, ""));
    }
  }

  // ---------- round trip ----------

  /** A rule on one field: the field itself, or a function of one field. */
  predicate OneField(fields: seq<Field>) {
    |fields| == 1 &&
    (fields[0] == Field(fields[0].value, "field", []) ||
     (|fields[0].args| == 1 &&
      fields[0] == Field(fields[0].value, "func", [Field(fields[0].args[0].value, "field", [])])))
  }

  /** What the language needs to read the texts of a rule: no string ends in a backslash, and what is
      printed as it is has no quote. */
  predicate Plain(rule: Rule) {
    && !EndsInBackslash(rule.database) && !EndsInBackslash(rule.rp) && !EndsInBackslash(rule.measurement)
    && !EndsInBackslash(rule.name) && !EndsInBackslash(rule.message)
    && RawSafe('\'', rule.details) && AllRaw(rule.groupByTags)
    && QuerySafe(rule.where) && FieldsSafe(rule.where.fields) && PlainFilter(rule.where)
    && PlainValue(rule) && (rule.trigger != Deadman ==> PlainField(rule.where.fields))
  }

  /** What the lambda of the filter needs to be parsed; no tag has a single quote. */
  predicate PlainFilter(q: QueryConfig) {
    TagsPlain(q) && FieldsPlain(q.fields) && forall tag :: tag in q.tags ==> Lacks(tag, '\'')
  }

  predicate PlainValue(rule: Rule) {
    if rule.trigger == Threshold && rule.values.rangeValue.None? then
      rule.values.value.Text? ==> !EndsInBackslash(rule.values.value.text)
    else rule.values.value.Token?
  }

  predicate PlainField(fields: seq<Field>) {
    OneField(fields) &&
    if fields[0].kind == "func" then
      IsWord(fields[0].value) && RawSafe('\'', fields[0].args[0].value) && Lacks(fields[0].args[0].value, '\n')
    else RawSafe('"', fields[0].value) && Lacks(fields[0].value, '\n')
  }

  function ExpectedFilter(q: QueryConfig): Filter {
    if q.tags == map[] then Filter(map[], None) else Filter(q.tags, Some(Operator(q)))
  }

  function ExpectedCommon(rule: Rule): Common {
    Common(rule.database, rule.rp, rule.measurement, rule.name, rule.message, TriggerName(rule.trigger),
           rule.groupByTags, ExpectedFilter(rule.where), rule.details)
  }

  function ExpectedCondition(rule: Rule): Condition {
    match rule.trigger
    case Threshold =>
      var v := rule.values;
      var upper := if v.rangeValue.Some? then Some(Token(v.rangeValue.value)) else None;
      Condition(None, v.operator, Some(v.value), upper, "")
    case Relative =>
      Condition(Some(rule.values.change), rule.values.operator, Some(rule.values.value), None, rule.values.shift)
    case Deadman => Condition(None, "", None, None, "")
    case OtherTrigger => Condition(None, "", None, None, "")
  }

  /** A rule without a function has no window, so its grouping time and interval are not in the script. */
  function ExpectedTiming(rule: Rule): Timing {
    if rule.trigger == Deadman then Timing(rule.values.period, "", "")
    else if rule.where.fields != [] && rule.where.fields[0].kind == "func" then
      Timing("", rule.groupByTime, rule.every)
    else Timing("", "", "")
  }

  /** All that is to be recovered of a rule. */
  function Expected(rule: Rule): Recovered {
    Recovered(ExpectedCommon(rule), if rule.trigger == Deadman then [] else rule.where.fields, ExpectedCondition(rule),
              ExpectedTiming(rule))
  }

  /** No text of the user looks like a part of the script that is searched for before the part itself. */
  predicate Unambiguous(alert: AlertNode, found: Found) {
    match alert
    case DeadmanNode => true
    case CritOf(op) => found.one == None || found.one == Some([op])
    case AmountCrit(op) => found.one == None || found.one == Some([op])
    case PercentCrit(op) => (found.one == None || found.one == Some([op])) && !found.amount
    case RangeCrit(low, compound, high) =>
      !found.varCrit && found.one == None && (found.three == None || found.three == Some([low, compound, high]))
  }

  lemma FilterRead(q: QueryConfig, order: seq<string>)
    requires Enumerates(order, q) && QuerySafe(q) && FieldsSafe(q.fields) && PlainFilter(q)
    ensures ReadFilter(Lambda(q, order)) == Some(ExpectedFilter(q))
    ensures VarParses(Some(LambdaOf(Lambda(q, order))))
  {
    PrintedMeaning(q, order, (tag: string) => "");
    if q.tags == map[] { NoTagsRoundTrip(q, order); } else { RoundTrip(q, order); }
  }

  lemma StringRead(s: string)
    requires !EndsInBackslash(s)
    ensures VarString(Some(StringText(Escape(s)))) == Some(s) && VarParses(Some(StringText(Escape(s))))
  {
    UnquoteEscape(s);
  }

  lemma RawRead(s: string)
    requires RawSafe('\'', s)
    ensures VarString(Some(StringText(s))) == Some(s) && VarParses(Some(StringText(s)))
  {
    UnquoteRaw('\'', s);
  }

  lemma TriggerRead(t: Trigger)
    ensures VarString(Some(StringText(TriggerName(t)))) == Some(TriggerName(t))
    ensures VarParses(Some(StringText(TriggerName(t))))
  {
    assert RawSafe('\'', TriggerName(t));
    RawRead(TriggerName(t));
  }

  lemma ListRead(tags: seq<string>)
    requires AllRaw(tags)
    ensures VarList(Some(ListOf(ListText(tags)))) == Some(tags) && VarParses(Some(ListOf(ListText(tags))))
  {
    ListRoundTripExact(tags);
  }

  lemma CommonStringsRead(rule: Rule, c: CommonVars)
    requires Plain(rule) && c.where.Some? && c == CommonOf(rule, c.where.value.text)
    ensures VarString(c.db) == Some(rule.database) && VarParses(c.db)
    ensures VarString(c.rp) == Some(rule.rp) && VarParses(c.rp)
    ensures VarString(c.measurement) == Some(rule.measurement) && VarParses(c.measurement)
    ensures VarString(c.name) == Some(rule.name) && VarParses(c.name)
    ensures VarString(c.message) == Some(rule.message) && VarParses(c.message)
    ensures VarString(c.triggerType) == Some(TriggerName(rule.trigger)) && VarParses(c.triggerType)
    ensures (if VarString(c.details).Some? then VarString(c.details).value else "") == rule.details
    ensures VarParses(c.details)
  {
    StringRead(rule.database);
    StringRead(rule.rp);
    StringRead(rule.measurement);
    StringRead(rule.name);
    StringRead(rule.message);
    TriggerRead(rule.trigger);
    RawRead(rule.details);
  }

  lemma CommonRead(rule: Rule, order: seq<string>)
    requires Plain(rule) && Enumerates(order, rule.where)
    ensures ExtractCommon(CommonOf(rule, Lambda(rule.where, order))) == Some(ExpectedCommon(rule))
    ensures CommonParses(CommonOf(rule, Lambda(rule.where, order)))
  {
    var c := CommonOf(rule, Lambda(rule.where, order));
    CommonStringsRead(rule, c);
    ListRead(rule.groupByTags);
    FilterRead(rule.where, order);
  }

  lemma ValueRead(rule: Rule)
    requires PlainField(rule.where.fields) && FieldName(rule.where.fields).Some?
    ensures var value := Some(ValueOf(rule.where.fields[0], FieldName(rule.where.fields).value));
            ValueParses(value) && FieldsOf(value) == rule.where.fields
  {
    var field := rule.where.fields[0];
    assert rule.where.fields == [field];
    if field.kind == "func" {
      UnquoteRaw('\'', field.args[0].value);
    } else {
      UnquoteRaw('"', field.value);
    }
  }

  function ExpectedValues(rule: Rule): AlertValues {
    match rule.trigger
    case Threshold =>
      if rule.values.rangeValue.Some? then RangeValues(rule.values.value, Token(rule.values.rangeValue.value))
      else ThresholdValues(rule.values.value)
    case Relative => RelativeValues(rule.values.shift, rule.values.value)
    case Deadman => DeadmanValues
    case OtherTrigger => DeadmanValues
  }

  lemma ValuesRead(rule: Rule)
    requires PlainValue(rule) && rule.trigger != OtherTrigger
    ensures TriggerParses(TriggerOf(rule))
    ensures ExtractAlert(Some(StringText(TriggerName(rule.trigger))), TriggerOf(rule)) == Some(ExpectedValues(rule))
  {
    TriggerRead(rule.trigger);
    if rule.trigger == Threshold && rule.values.rangeValue.None? && rule.values.value.Text? {
      StringRead(rule.values.value.text);
    }
  }

  /** What is made of the searches, for one alert. */
  ghost predicate Agrees(kind: string, t: TriggerVars, alert: AlertNode, found: Found, values: AlertValues,
                         condition: Condition) {
    && AlertType(kind, t, alert, found).Some?
    && ConditionOf(AlertType(kind, t, alert, found).value, ExtractCrit(alert, found), values) == Some(condition)
  }

  ghost predicate Sized(found: Found) {
    (found.one.Some? ==> |found.one.value| == 1) && (found.three.Some? ==> |found.three.value| == 3)
  }

  lemma OneOperator(ops: seq<string>, operator: string, op: string)
    requires |ops| == 1 && KapaOperator(operator) == Some(op)
    ensures ChronoOperator(ops[0]) == Some(operator) <==> ops == [op]
  {
    OperatorsInverse(operator, ops[0]);
  }

  lemma ThresholdExact(t: TriggerVars, op: string, found: Found, operator: string, crit: Value)
    requires Sized(found) && t.crit.Some? && KapaOperator(operator) == Some(op)
    ensures Agrees("threshold", t, CritOf(op), found, ThresholdValues(crit),
                   Condition(None, operator, Some(crit), None, ""))
       <==> Unambiguous(CritOf(op), found)
  {
    OneOperator(ExtractCrit(CritOf(op), found), operator, op);
  }

  lemma AmountExact(t: TriggerVars, op: string, found: Found, operator: string, shift: string, crit: Value)
    requires Sized(found) && KapaOperator(operator) == Some(op)
    ensures Agrees("relative", t, AmountCrit(op), found, RelativeValues(shift, crit),
                   Condition(Some(Amount), operator, Some(crit), None, shift))
       <==> Unambiguous(AmountCrit(op), found)
  {
    assert "relative"[0] != "threshold"[0];
    OneOperator(ExtractCrit(AmountCrit(op), found), operator, op);
  }

  lemma PercentExact(t: TriggerVars, op: string, found: Found, operator: string, shift: string, crit: Value)
    requires Sized(found) && KapaOperator(operator) == Some(op)
    ensures Agrees("relative", t, PercentCrit(op), found, RelativeValues(shift, crit),
                   Condition(Some(Percent), operator, Some(crit), None, shift))
       <==> Unambiguous(PercentCrit(op), found)
  {
    assert "relative"[0] != "threshold"[0];
    OneOperator(ExtractCrit(PercentCrit(op), found), operator, op);
  }

  lemma RangeExact(t: TriggerVars, ops: seq<string>, found: Found, operator: string, lower: Value, upper: Value)
    requires Sized(found) && t.crit.None? && t.lower.Some? && t.upper.Some?
    requires |ops| == 3 && RangeOperators(operator) == Some(ops)
    ensures Agrees("threshold", t, RangeCrit(ops[0], ops[1], ops[2]), found, RangeValues(lower, upper),
                   Condition(None, operator, Some(lower), Some(upper), ""))
       <==> Unambiguous(RangeCrit(ops[0], ops[1], ops[2]), found)
  {
    var read := ExtractCrit(RangeCrit(ops[0], ops[1], ops[2]), found);
    RangeOperatorsInverse(operator, read);
    RangeOperatorsInverse("", read);
    assert ops == [ops[0], ops[1], ops[2]];
  }

  lemma ConditionExact(rule: Rule, alert: AlertNode, found: Found)
    requires PlainValue(rule) && rule.trigger != OtherTrigger && AlertOf(rule) == Some(alert) && Sized(found)
    ensures Agrees(TriggerName(rule.trigger), TriggerOf(rule), alert, found, ExpectedValues(rule),
                   ExpectedCondition(rule))
       <==> Unambiguous(alert, found)
    ensures AlertType(TriggerName(rule.trigger), TriggerOf(rule), alert, found) == Some(DeadmanKind)
       <==> rule.trigger == Deadman
  {
    assert "deadman"[0] != "threshold"[0] && "deadman"[0] != "relative"[0] && "relative"[0] != "threshold"[0];
    var t, v := TriggerOf(rule), rule.values;
    match rule.trigger
    case Deadman =>
    case Relative =>
      if v.change == Percent {
        PercentExact(t, alert.op, found, v.operator, v.shift, v.value);
      } else {
        AmountExact(t, alert.op, found, v.operator, v.shift, v.value);
      }
    case Threshold =>
      if v.rangeValue.None? {
        ThresholdExact(t, alert.op, found, v.operator, v.value);
      } else {
        RangeExact(t, RangeOperators(v.operator).value, found, v.operator, v.value, Token(v.rangeValue.value));
      }
  }

  lemma TimingRead(rule: Rule, kind: Kind, wind: WindowVars)
    requires WindowOf(rule) == Some(wind) && (kind == DeadmanKind <==> rule.trigger == Deadman)
    requires rule.trigger != Deadman ==> OneField(rule.where.fields)
    ensures TimingOf(kind, wind) == ExpectedTiming(rule)
  {
    assert "func" != "field" by { assert "func"[1] != "field"[1]; }
  }

  lemma ReadingExact(rule: Rule, c: CommonVars, wind: WindowVars, t: TriggerVars, value: Option<ValueNode>,
                     alert: AlertNode, found: Found)
    requires c.triggerType == Some(StringText(TriggerName(rule.trigger))) && t == TriggerOf(rule)
    requires ExtractCommon(c) == Some(ExpectedCommon(rule))
    requires ExtractAlert(c.triggerType, t) == Some(ExpectedValues(rule))
    requires rule.trigger != Deadman ==> FieldsOf(value) == rule.where.fields
    requires forall kind :: (kind == DeadmanKind <==> rule.trigger == Deadman) ==>
      TimingOf(kind, wind) == ExpectedTiming(rule)
    requires PlainValue(rule) && rule.trigger != OtherTrigger && AlertOf(rule) == Some(alert) && Sized(found)
    ensures Reading(c, wind, t, value, alert, found) == Some(Expected(rule)) <==> Unambiguous(alert, found)
  {
    ConditionExact(rule, alert, found);
  }

  /** A generated script is read back into its rule exactly when no text of the user is mistaken for a
      part of the script. */
  lemma ReverseExact(rule: Rule, order: seq<string>)
    requires Plain(rule) && Enumerates(order, rule.where) && ScriptOf(rule, Lambda(rule.where, order)).Some?
    ensures var script := ScriptOf(rule, Lambda(rule.where, order)).value;
            Reversed(script) == Some(Expected(rule)) <==> Unambiguous(script.alert, Search(script))
  {
    var where := Lambda(rule.where, order);
    var script := ScriptOf(rule, where).value;
    CommonRead(rule, order);
    ValuesRead(rule);
    if rule.trigger != Deadman { ValueRead(rule); }
    ScriptParts(rule, where);
    forall kind | kind == DeadmanKind <==> rule.trigger == Deadman
      ensures TimingOf(kind, script.vars.wind) == ExpectedTiming(rule)
    {
      TimingRead(rule, kind, script.vars.wind);
    }
    ReadingExact(rule, CommonOf(rule, where), script.vars.wind, TriggerOf(rule), script.value, script.alert,
                 Search(script));
  }

  lemma ScriptParts(rule: Rule, where: string)
    requires ScriptOf(rule, where).Some?
    ensures var script := ScriptOf(rule, where).value;
            && script.vars.common == CommonOf(rule, where) && script.vars.trigger == TriggerOf(rule)
            && WindowOf(rule) == Some(script.vars.wind)
            && VarParses(script.vars.wind.period) && VarParses(script.vars.wind.every)
            && AlertOf(rule) == Some(script.alert) && rule.trigger != OtherTrigger
            && (rule.trigger == Deadman ==> script.value == None)
            && (rule.trigger != Deadman ==>
                  (FieldName(rule.where.fields).Some?
                   && script.value == Some(ValueOf(rule.where.fields[0], FieldName(rule.where.fields).value))))
  {
  }

  lemma {:induction false} EscapeKeeps(s: string)
    requires Lacks(s, '\'')
    ensures Escape(s) == s
  {
    if s != "" {
      forall i | 0 <= i < |s[1..]| ensures s[1..][i] != '\'' { assert s[i + 1] != '\''; }
      EscapeKeeps(s[1..]);
      assert s == [s[0]] + s[1..];
    }
  }

  lemma RangeIsRead(rule: Rule, c: CommonVars)
    requires PlainValue(rule) && rule.trigger == Threshold && rule.values.rangeValue.Some?
    requires c.triggerType == Some(StringText(TriggerName(rule.trigger)))
    ensures TextIn(c.triggerType) == "threshold" && ExpectedValues(rule).RangeValues?
    ensures ExtractAlert(c.triggerType, TriggerOf(rule)) == Some(ExpectedValues(rule))
  {
    ValuesRead(rule);
    TriggerRead(rule.trigger);
  }

  /** So a range rule whose message is "var crit = " is not read back at all. */
  lemma RangeMistaken(rule: Rule, order: seq<string>)
    requires Plain(rule) && Enumerates(order, rule.where) && rule.message == VAR_CRIT
    requires rule.trigger == Threshold && rule.values.rangeValue.Some?
    requires ScriptOf(rule, Lambda(rule.where, order)).Some?
    ensures Reversed(ScriptOf(rule, Lambda(rule.where, order)).value) == None
  {
    var where := Lambda(rule.where, order);
    var script := ScriptOf(rule, where).value;
    CommonRead(rule, order);
    ScriptParts(rule, where);
    RangeIsRead(rule, script.vars.common);
    MessageMentioned(script, rule.message);
    MistakenRange(script.vars.common, script.vars.wind, TriggerOf(rule), script.value, script.alert, Search(script),
                  ExpectedValues(rule));
  }

  /** Inside a range, of the field f, with the message "var crit = ". */
  function MistakenRule(): Rule {
    Rule("n", Threshold, VAR_CRIT, "", "",
         TriggerValues(OtherChange, INSIDE_RANGE, Token("1"), Some("2"), "", ""), "d", "r", "m",
         QueryConfig(map[], true, [Field("f", "field", [])]), [], "")
  }

  lemma MistakenPlain(rule: Rule)
    requires rule == MistakenRule()
    ensures Plain(rule)
  {
    var text := "isPresent(\"" + "f" + "\")";
    assert rule.where.fields[1..] == [] && [text] + [] == [text];
    assert Presence(rule.where.fields) == [text];
    assert OneField(rule.where.fields);
  }

  lemma MistakenAlert(rule: Rule)
    requires rule == MistakenRule()
    ensures NoneEmpty(rule) && AlertOf(rule).Some?
  {
  }

  lemma MistakenFields(rule: Rule)
    requires rule == MistakenRule()
    ensures WindowOf(rule) == Some(WindowVars(None, None)) && FieldName(rule.where.fields) == Some("f")
  {
    assert rule.where.fields[0].kind == "field" && "field"[1] != "func"[1];
  }

  lemma MistakenScript(rule: Rule, where: string)
    requires NoneEmpty(rule) && AlertOf(rule).Some? && WindowOf(rule).Some? && FieldName(rule.where.fields).Some?
    ensures ScriptOf(rule, where).Some?
  {
  }

  /** A plain rule that generates a script which is not read back: its message is "var crit = ". */
  lemma MessageIsMistaken() returns (rule: Rule)
    ensures Plain(rule) && Enumerates([], rule.where)
    ensures ScriptOf(rule, Lambda(rule.where, [])).Some?
    ensures Reversed(ScriptOf(rule, Lambda(rule.where, [])).value) == None
  {
    rule := MistakenRule();
    MistakenPlain(rule);
    MistakenAlert(rule);
    MistakenFields(rule);
    MistakenScript(rule, Lambda(rule.where, []));
    RangeMistaken(rule, []);
  }

  lemma MessageMentioned(script: Script, message: string)
    requires script.vars.common.message == Some(StringText(Escape(message))) && message == VAR_CRIT
    ensures Mentions(script, VAR_CRIT)
  {
    PhraseSafe();
    EscapeKeeps(message);
    MentionsMessage(script, message);
  }

  lemma PhraseSafe()
    ensures Lacks(VAR_CRIT, '\'')
  {
  }

  lemma MentionsMessage(script: Script, phrase: string)
    requires TextIn(script.vars.common.message) == phrase
    ensures Mentions(script, phrase)
  {
    assert Texts(script)[6] == phrase;
    assert Contains(phrase, phrase);
  }

  lemma MistakenRange(c: CommonVars, wind: WindowVars, t: TriggerVars, value: Option<ValueNode>, alert: AlertNode,
                      found: Found, values: AlertValues)
    requires TextIn(c.triggerType) == "threshold" && found.varCrit
    requires ExtractAlert(c.triggerType, t) == Some(values) && values.RangeValues?
    ensures Reading(c, wind, t, value, alert, found) == None
  {
  }

  /** Reverse: the rule is filled in part by part. The script of a plain rule gives back the rule exactly
      when it is unambiguous. */
  method Reverse(script: Script) returns (r: Option<Recovered>)
    ensures r == Reversed(script)
    ensures forall rule, order ::
      Plain(rule) && Enumerates(order, rule.where) && ScriptOf(rule, Lambda(rule.where, order)) == Some(script) ==>
        (r == Some(Expected(rule)) <==> Unambiguous(script.alert, Search(script)))
  {
    forall rule, order | Plain(rule) && Enumerates(order, rule.where)
                         && ScriptOf(rule, Lambda(rule.where, order)) == Some(script)
      ensures Reversed(script) == Some(Expected(rule)) <==> Unambiguous(script.alert, Search(script))
    {
      ReverseExact(rule, order);
    }
    var c, found := script.vars.common, Search(script);
    var kind := AlertType(TextIn(c.triggerType), script.vars.trigger, script.alert, found);
    if kind.None? || !Parses(script) {
      return None;
    }
    var common := ExtractCommon(c);
    if common.None? {
      return None;
    }
    var values := ExtractAlert(c.triggerType, script.vars.trigger);
    if values.None? {
      return None;
    }
    var condition := ReadCondition(kind.value, ExtractCrit(script.alert, found), values.value);
    if condition.None? {
      return None;
    }
    var rule := Recovered(common.value, [], condition.value, Timing("", "", ""));
    var period, every := OrEmpty(VarDuration(script.vars.wind.period)), OrEmpty(VarDuration(script.vars.wind.every));
    if kind.value == DeadmanKind {
      rule := rule.(timing := Timing(period, "", ""));
    } else {
      rule := rule.(timing := Timing("", period, every), fields := FieldsOf(script.value));
    }
    r := Some(rule);
  }
}
