/** The regular expression with which the filter of a script is scanned, as the ways to take a text apart. */
module Patterns {
  import opened Collections
  import opened Wrappers
  import opened Text
  import opened TagLogic
  import opened WhereFilter

  /** \s+ */
  predicate Spaces(w: string) {
    w != "" && forall i :: 0 <= i < |w| ==> w[i] in [' ', '\t', '\n', '\r', '\U{000C}']
  }

  /** \s+(==|!=)\s+', and what follows. */
  function Shape(w1: string, op: Cmp, w2: string, rest: string): string {
    w1 + (OpText(op) + (w2 + ("'" + rest)))
  }

  lemma {:induction false} SkipSpaces(w: string, z: string)
    requires (w == "" || Spaces(w)) && z != "" && !IsSpace(z[0])
    ensures SkipSpace(w + z) == z
  {
    if w == "" {
      assert w + z == z;
    } else {
      assert (w + z)[1..] == w[1..] + z && IsSpace(w[0]);
      forall i | 0 <= i < |w[1..]| ensures IsSpace(w[1..][i]) { assert IsSpace(w[i + 1]); }
      SkipSpaces(w[1..], z);
    }
  }

  lemma {:induction false} SkippedSpaces(s: string) returns (w: string)
    ensures s == w + SkipSpace(s) && (w == "" || Spaces(w))
    ensures s != "" && IsSpace(s[0]) ==> w != ""
  {
    w := "";
    if s != "" && IsSpace(s[0]) {
      var more := SkippedSpaces(s[1..]);
      w := [s[0]] + more;
      assert s == [s[0]] + s[1..];
      forall i | 0 <= i < |w| ensures IsSpace(w[i]) { if i > 0 { assert w[i] == more[i - 1]; } }
    }
  }

  lemma OpeningFinds(w1: string, op: Cmp, w2: string, rest: string)
    requires Spaces(w1) && Spaces(w2)
    ensures Opening(Shape(w1, op, w2, rest)) == Some(Opened(op, rest))
  {
    var quote := "'" + rest;
    var t := OpText(op) + (w2 + quote);
    assert IsSpace(w1[0]) && IsSpace(w2[0]);
    SkipSpaces(w1, t);
    SkipSpaces(w2, quote);
    assert t[2..] == w2 + quote && quote[1..] == rest;
  }

  lemma OpeningFound(s: string) returns (w1: string, w2: string)
    requires Opening(s).Some?
    ensures Spaces(w1) && Spaces(w2) && s == Shape(w1, Opening(s).value.op, w2, Opening(s).value.rest)
  {
    w1 := SkippedSpaces(s);
    var t := SkipSpace(s);
    w2 := SkippedSpaces(t[2..]);
    var u := SkipSpace(t[2..]);
    assert t == t[..2] + t[2..] && t[..2] == OpText(Opening(s).value.op);
    assert u == [u[0]] + u[1..] && "'" == ['\''];
  }

  /** "(.*)"\s+(==|!=)\s+'(.*)'" from behind the first quote, with these groups; the dot is no newline, and
      the value ends at the first quote. */
  ghost predicate Matches(s: string, f: TagFilter, rest: string) {
    Lacks(f.tag, '\n') && ValueSafe(f.value)
    && exists w1, w2 :: Spaces(w1) && Spaces(w2) && s == f.tag + ("\"" + Shape(w1, f.op, w2, f.value + "'" + rest))
  }

  /** A match is found exactly when there is one, and it is one with the shortest tag. */
  lemma {:induction false} MatchTagExact(s: string, f: TagFilter, rest: string)
    ensures MatchTag(s).Some? ==> Matches(s, MatchTag(s).value.filter, MatchTag(s).value.rest)
    ensures Matches(s, f, rest) ==> MatchTag(s).Some? && |MatchTag(s).value.filter.tag| <= |f.tag|
  {
    if MatchTag(s).Some? { MatchFound(s); }
    if Matches(s, f, rest) { MatchFinds(s, f, rest); }
  }

  lemma {:induction false} MatchFound(s: string)
    requires MatchTag(s).Some?
    ensures Matches(s, MatchTag(s).value.filter, MatchTag(s).value.rest)
  {
    var start := if s[0] == '"' then Opening(s[1..]) else None;
    var quoted := if start.Some? then Quoted(start.value.rest) else None;
    if quoted.Some? {
      var w1, w2 := OpeningFound(s[1..]);
      assert s == "" + ("\"" + Shape(w1, start.value.op, w2, quoted.value.0 + "'" + quoted.value.1));
    } else {
      MatchFound(s[1..]);
      var m := MatchTag(s[1..]).value;
      var w1, w2 :| Spaces(w1) && Spaces(w2)
                    && s[1..] == m.filter.tag + ("\"" + Shape(w1, m.filter.op, w2, m.filter.value + "'" + m.rest));
      PrependMatch(s, m, w1, w2);
    }
  }

  lemma PrependMatch(s: string, m: Match, w1: string, w2: string)
    requires s != "" && s[0] != '\n' && Lacks(m.filter.tag, '\n') && ValueSafe(m.filter.value)
    requires Spaces(w1) && Spaces(w2)
    requires s[1..] == m.filter.tag + ("\"" + Shape(w1, m.filter.op, w2, m.filter.value + "'" + m.rest))
    ensures Matches(s, m.filter.(tag := [s[0]] + m.filter.tag), m.rest)
  {
    var tag, tail := m.filter.tag, "\"" + Shape(w1, m.filter.op, w2, m.filter.value + "'" + m.rest);
    assert s == [s[0]] + s[1..] == ([s[0]] + tag) + tail;
    forall i | 0 <= i < |[s[0]] + tag| ensures ([s[0]] + tag)[i] != '\n' { if i > 0 { assert tag[i - 1] != '\n'; } }
  }

  lemma {:induction false} MatchFinds(s: string, f: TagFilter, rest: string)
    requires Matches(s, f, rest)
    ensures MatchTag(s).Some? && |MatchTag(s).value.filter.tag| <= |f.tag|
    decreases |f.tag|
  {
    var w1, w2 :| Spaces(w1) && Spaces(w2) && s == f.tag + ("\"" + Shape(w1, f.op, w2, f.value + "'" + rest));
    if f.tag == "" {
      assert s[1..] == Shape(w1, f.op, w2, f.value + "'" + rest);
      OpeningFinds(w1, f.op, w2, f.value + "'" + rest);
      QuotedReads(f.value, rest);
    } else {
      var g := f.(tag := f.tag[1..]);
      assert s[0] == f.tag[0] && s[1..] == g.tag + ("\"" + Shape(w1, g.op, w2, g.value + "'" + rest));
      forall i | 0 <= i < |g.tag| ensures g.tag[i] != '\n' { assert f.tag[i + 1] != '\n'; }
      MatchFinds(s[1..], g, rest);
    }
  }

  /** Comparisons with safe names, in a row: they are read as the map of their tags if they have one operator,
      and refused if they have two. */
  lemma ComparisonsRead(filters: seq<TagFilter>, sep: string)
    requires filters != [] && Lacks(sep, '"') && forall i :: 0 <= i < |filters| ==> FilterSafe(filters[i])
    ensures ReadFilter(Join(Map(Cond, filters), sep))
         == if OneOp(filters) then Some(Filter(Grouped(filters), Some(filters[0].op))) else None
  {
    var text := Join(Map(Cond, filters), sep);
    FindAllJoin(filters, sep, "");
    assert text + "" == text && filters + [] == filters && FindAll("") == [];
    OperatorsOne(filters);
    assert filters[0] in filters && filters[0].op in Operators(filters);
    FirstIsQuote(filters, sep);
  }

  lemma FirstIsQuote(filters: seq<TagFilter>, sep: string)
    requires filters != []
    ensures var text := Join(Map(Cond, filters), sep);
            text != "" && text[0] == '"' && text != "TRUE" && !("isPresent" <= text)
  {
    var conds := Map(Cond, filters);
    assert conds[0] == Cond(filters[0]) && conds[0][0] == '"';
  }
}
