/** Quoted text in a TICKscript: strings in single quotes, references in double quotes, and lists of
    strings. A backslash before the quote stands for the quote; any other backslash is itself. */
module Literals {
  import opened Wrappers
  import opened Text

  const BACKSLASH: char := '\\'

  function Escape(str: string): string {
    if str == "" then ""
    else (if str[0] == '\'' then [BACKSLASH, '\''] else [str[0]]) + Escape(str[1..])
  }

  /** What stands before the closing quote, and what follows it. */
  function ReadQuoted(quote: char, s: string): (r: Option<(string, string)>)
    ensures r.Some? ==> |r.value.1| < |s|
  {
    if s == "" then None
    else if s[0] == quote then Some(("", s[1..]))
    else
      var escaped := s[0] == BACKSLASH && |s| > 1 && s[1] == quote;
      match ReadQuoted(quote, if escaped then s[2..] else s[1..])
      case None => None
      case Some(r) => Some(([if escaped then quote else s[0]] + r.0, r.1))
  }

  /** A text that is closed by the quote after it, and by no quote before. */
  function Unquote(quote: char, text: string): Option<string> {
    match ReadQuoted(quote, text + [quote])
    case None => None
    case Some(r) => if r.1 == "" then Some(r.0) else None
  }

  /** Can be printed between quotes as it is. */
  predicate RawSafe(quote: char, s: string) {
    Lacks(s, quote) && !EndsInBackslash(s)
  }

  function Prefixed(c: char, r: Option<(string, string)>): Option<(string, string)> {
    match r
    case None => None
    case Some(q) => Some(([c] + q.0, q.1))
  }

  lemma PrefixedIs(c: char, r: Option<(string, string)>, s: string, rest: string)
    requires s != ""
    ensures Prefixed(c, r) == Some((s, rest)) <==> s[0] == c && r == Some((s[1..], rest))
  {
    if r.Some? { assert ([c] + r.value.0)[1..] == r.value.0; }
    assert s == [s[0]] + s[1..];
  }

  lemma ReadsOne(quote: char, c: char, inner: string)
    requires quote != BACKSLASH
    ensures ReadQuoted(quote, [BACKSLASH, quote] + inner) == Prefixed(quote, ReadQuoted(quote, inner))
    ensures c != quote && !(c == BACKSLASH && inner != "" && inner[0] == quote) ==>
            ReadQuoted(quote, [c] + inner) == Prefixed(c, ReadQuoted(quote, inner))
  {
    assert ([BACKSLASH, quote] + inner)[2..] == inner && ([c] + inner)[1..] == inner;
  }

  /** One character of an escaped string; `inner` is the text from the next character on. */
  lemma EscapeStep(s: string, rest: string, text: string, inner: string)
    requires s != "" && inner != "" && (inner[0] == '\'' <==> |s| == 1)
    requires |s| == 1 ==> inner == ['\''] + rest
    requires text == (if s[0] == '\'' then [BACKSLASH, '\''] else [s[0]]) + inner
    requires ReadQuoted('\'', inner) == Some((s[1..], rest)) <==> !EndsInBackslash(s[1..])
    ensures ReadQuoted('\'', text) == Some((s, rest)) <==> !EndsInBackslash(s)
  {
    ReadsOne('\'', s[0], inner);
    PrefixedIs(s[0], ReadQuoted('\'', inner), s, rest);
    if s[0] == BACKSLASH && |s| == 1 {
      assert text == [BACKSLASH, '\''] + rest;
      ReadsOne('\'', s[0], rest);
      PrefixedIs('\'', ReadQuoted('\'', rest), s, rest);
    } else if |s| > 1 {
      assert s[|s| - 1] == s[1..][|s| - 2];
    }
  }

  /** An escaped string reads back exactly when it does not end in a backslash. */
  lemma {:induction false} EscapeRoundTripExact(s: string, rest: string)
    ensures ReadQuoted('\'', Escape(s) + ['\''] + rest) == Some((s, rest)) <==> !EndsInBackslash(s)
  {
    if s == "" {
      assert Escape(s) + ['\''] + rest == ['\''] + rest;
    } else {
      EscapeRoundTripExact(s[1..], rest);
      var front := if s[0] == '\'' then [BACKSLASH, '\''] else [s[0]];
      assert Escape(s) + ['\''] + rest == front + (Escape(s[1..]) + ['\''] + rest);
      EscapeStep(s, rest, Escape(s) + ['\''] + rest, Escape(s[1..]) + ['\''] + rest);
    }
  }

  /** A string printed as it is reads back exactly when it has no quote and does not end in a backslash. */
  lemma {:induction false} RawRoundTripExact(quote: char, s: string, rest: string)
    requires quote != BACKSLASH
    ensures RawSafe(quote, s) ==> ReadQuoted(quote, s + [quote] + rest) == Some((s, rest))
    ensures ReadQuoted(quote, s + [quote] + rest).Some? && ReadQuoted(quote, s + [quote] + rest).value.0 == s
            ==> RawSafe(quote, s)
  {
    if s == "" {
      assert s + [quote] + rest == [quote] + rest;
    } else {
      var text := s + [quote] + rest;
      var inner := s[1..] + [quote] + rest;
      assert s == [s[0]] + s[1..] && text[1..] == inner;
      RawRoundTripExact(quote, s[1..], rest);
      RawTail(quote, s);
    }
  }

  lemma RawTail(quote: char, s: string)
    requires s != ""
    ensures RawSafe(quote, s) <==>
            s[0] != quote && RawSafe(quote, s[1..]) && !(|s| == 1 && s[0] == BACKSLASH)
  {
    forall i | 1 <= i < |s| ensures s[i] == s[1..][i - 1] {}
    if Lacks(s, quote) {
      forall i | 0 <= i < |s[1..]| ensures s[1..][i] != quote { assert s[i + 1] != quote; }
    }
    if Lacks(s[1..], quote) && s[0] != quote {
      forall i | 0 <= i < |s| ensures s[i] != quote { if i > 0 { assert s[1..][i - 1] != quote; } }
    }
  }

  lemma UnquoteEscape(s: string)
    ensures Unquote('\'', Escape(s)) == Some(s) <==> !EndsInBackslash(s)
  {
    EscapeRoundTripExact(s, "");
    assert Escape(s) + ['\''] + "" == Escape(s) + ['\''];
  }

  lemma UnquoteRaw(quote: char, s: string)
    requires quote != BACKSLASH
    ensures Unquote(quote, s) == Some(s) <==> RawSafe(quote, s)
  {
    RawRoundTripExact(quote, s, "");
    assert s + [quote] + "" == s + [quote];
  }

  // ---------- lists ----------

  function Quote(s: string): string {
    "'" + s + "'"
  }

  function ListText(items: seq<string>): string {
    "[" + Join(Map(Quote, items), ",") + "]"
  }

  /** groupBy: every tag in quotes, as it is. */
  method GroupBy(tags: seq<string>) returns (text: string)
    ensures text == ListText(tags)
  {
    var groups: seq<string> := [];
    for i := 0 to |tags|
      invariant groups == Map(Quote, tags)[..i]
    {
      groups := groups + ["'" + tags[i] + "'"];
    }
    assert groups == Map(Quote, tags);
    text := "[" + Join(groups, ",") + "]";
  }

  /** The items of a non-empty list, up to its closing bracket. */
  function ReadItems(s: string): Option<seq<string>>
    decreases |s|
  {
    if s == "" || s[0] != '\'' then None
    else
      match ReadQuoted('\'', s[1..])
      case None => None
      case Some(item) =>
        if item.1 == "]" then Some([item.0])
        else if item.1 == "" || item.1[0] != ',' then None
        else
          match ReadItems(item.1[1..])
          case None => None
          case Some(more) => Some([item.0] + more)
  }

  function ReadList(text: string): Option<seq<string>> {
    if text == "[]" then Some([])
    else if text != "" && text[0] == '[' then ReadItems(text[1..])
    else None
  }

  predicate AllRaw(items: seq<string>) {
    forall i :: 0 <= i < |items| ==> RawSafe('\'', items[i])
  }

  /** One item of a list; `rest` is what follows its closing quote. */
  lemma ItemsStep(items: seq<string>, text: string, rest: string)
    requires items != [] && text != "" && text[0] == '\'' && text[1..] == items[0] + ['\''] + rest
    requires |items| == 1 ==> rest == "]"
    requires |items| > 1 ==> rest != "" && rest[0] == ','
    requires |items| > 1 ==> (ReadItems(rest[1..]) == Some(items[1..]) <==> AllRaw(items[1..]))
    ensures ReadItems(text) == Some(items) <==> AllRaw(items)
  {
    RawRoundTripExact('\'', items[0], rest);
    HeadAndTail(items);
    var item := ReadQuoted('\'', text[1..]);
    if item.Some? {
      if !RawSafe('\'', items[0]) {
        assert item.value.0 != items[0];
        assert ReadItems(text).Some? ==> ReadItems(text).value[0] == item.value.0;
      } else if |items| > 1 {
        var more := ReadItems(rest[1..]);
        assert item.value == (items[0], rest);
        assert ReadItems(text) == if more.None? then None else Some([items[0]] + more.value);
        if more.Some? { assert [items[0]] + more.value == items <==> more.value == items[1..]; }
      } else {
        assert ReadItems(text) == Some([items[0]]) && items == [items[0]];
      }
    }
  }

  lemma {:induction false} ItemsRoundTripExact(items: seq<string>)
    requires items != []
    ensures ReadItems(Join(Map(Quote, items), ",") + "]") == Some(items) <==> AllRaw(items)
  {
    var more := Join(Map(Quote, items[1..]), ",") + "]";
    var rest := if |items| == 1 then "]" else "," + more;
    ItemsText(items);
    if |items| > 1 {
      ItemsRoundTripExact(items[1..]);
      assert ("," + more)[1..] == more;
    }
    ItemsStep(items, Join(Map(Quote, items), ",") + "]", rest);
  }

  lemma HeadAndTail(items: seq<string>)
    requires items != []
    ensures AllRaw(items) <==> RawSafe('\'', items[0]) && AllRaw(items[1..])
    ensures forall item, more :: [item] + more == items <==> item == items[0] && more == items[1..]
  {
    forall item, more ensures [item] + more == items <==> item == items[0] && more == items[1..] {
      assert ([item] + more)[1..] == more && ([item] + more)[0] == item;
      assert items == [items[0]] + items[1..];
    }
    if AllRaw(items[1..]) && RawSafe('\'', items[0]) {
      forall i | 0 <= i < |items| ensures RawSafe('\'', items[i]) { if i > 0 { assert items[1..][i - 1] == items[i]; } }
    }
  }

  lemma ItemsText(items: seq<string>)
    requires items != []
    ensures var text := Join(Map(Quote, items), ",") + "]";
            && text != "" && text[0] == '\''
            && text[1..] == items[0] + ['\'']
                            + if |items| == 1 then "]" else "," + (Join(Map(Quote, items[1..]), ",") + "]")
  {
    assert Map(Quote, items)[1..] == Map(Quote, items[1..]);
    assert Map(Quote, items)[0] == Quote(items[0]);
  }

  /** The list of group-by tags reads back exactly when every tag can be printed as it is. */
  lemma ListRoundTripExact(items: seq<string>)
    ensures ReadList(ListText(items)) == Some(items) <==> AllRaw(items)
  {
    if items == [] {
      assert ListText(items) == "[]";
    } else {
      ItemsRoundTripExact(items);
      ItemsText(items);
      assert ListText(items)[1..] == Join(Map(Quote, items), ",") + "]";
      assert ListText(items)[1] == '\'';
    }
  }
}
