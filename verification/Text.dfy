/** Strings as the source's library sees them: ordering, sorting, joining and decimal numbers. */
module Text {

  // ---------- order ----------

  /** Bytewise order of UTF-8 is the order of code points. */
  predicate AtMost(a: string, b: string) {
    a == "" || (b != "" && (a[0] < b[0] || (a[0] == b[0] && AtMost(a[1..], b[1..]))))
  }

  lemma {:induction false} AtMostTotal(a: string, b: string)
    ensures AtMost(a, b) || AtMost(b, a)
    ensures AtMost(a, b) && AtMost(b, a) ==> a == b
  {
    if a != "" && b != "" && a[0] == b[0] {
      AtMostTotal(a[1..], b[1..]);
      assert a == [a[0]] + a[1..] && b == [b[0]] + b[1..];
    }
  }

  lemma {:induction false} AtMostTransitive(a: string, b: string, c: string)
    requires AtMost(a, b) && AtMost(b, c)
    ensures AtMost(a, c)
  {
    if a != "" && a[0] == b[0] && b[0] == c[0] {
      AtMostTransitive(a[1..], b[1..], c[1..]);
    }
  }

  /** The sorting algorithm sees strings only through their order. */
  type Order = (string, string) -> bool

  ghost predicate TotalOrder(le: Order) {
    && (forall a, b :: le(a, b) || le(b, a))
    && (forall a, b :: le(a, b) && le(b, a) ==> a == b)
    && (forall a, b, c :: le(a, b) && le(b, c) ==> le(a, c))
  }

  predicate Below(le: Order, x: string, s: seq<string>) {
    forall i :: 0 <= i < |s| ==> le(x, s[i])
  }

  predicate SortedBy(le: Order, s: seq<string>) {
    s == [] || (Below(le, s[0], s[1..]) && SortedBy(le, s[1..]))
  }

  function Insert(le: Order, x: string, s: seq<string>): seq<string> {
    if s == [] then [x] else if le(x, s[0]) then [x] + s else [s[0]] + Insert(le, x, s[1..])
  }

  function SortBy(le: Order, s: seq<string>): seq<string> {
    if s == [] then [] else Insert(le, s[0], SortBy(le, s[1..]))
  }

  lemma BelowAll(le: Order, x: string, s: seq<string>)
    requires TotalOrder(le) && SortedBy(le, s) && s != [] && le(x, s[0])
    ensures Below(le, x, s)
  {
    forall i | 0 < i < |s| ensures le(x, s[i]) { assert le(s[0], s[1..][i - 1]); }
  }

  lemma BelowMultiset(le: Order, x: string, s: seq<string>, t: seq<string>, y: string)
    requires Below(le, x, s) && le(x, y) && multiset(t) == multiset(s) + multiset{y}
    ensures Below(le, x, t)
  {
    forall i | 0 <= i < |t| ensures le(x, t[i]) { assert t[i] in multiset(t); }
  }

  lemma {:induction false} InsertSorted(le: Order, x: string, s: seq<string>)
    requires TotalOrder(le) && SortedBy(le, s)
    ensures SortedBy(le, Insert(le, x, s)) && multiset(Insert(le, x, s)) == multiset(s) + multiset{x}
  {
    if s != [] {
      assert s == [s[0]] + s[1..];
      if le(x, s[0]) {
        BelowAll(le, x, s);
      } else {
        InsertSorted(le, x, s[1..]);
        BelowMultiset(le, s[0], s[1..], Insert(le, x, s[1..]), x);
      }
    }
  }

  lemma {:induction false} SortSorted(le: Order, s: seq<string>)
    requires TotalOrder(le)
    ensures SortedBy(le, SortBy(le, s)) && multiset(SortBy(le, s)) == multiset(s)
  {
    if s != [] {
      SortSorted(le, s[1..]);
      InsertSorted(le, s[0], SortBy(le, s[1..]));
      HeadCounted(s);
    }
  }

  lemma HeadCounted(s: seq<string>)
    requires s != []
    ensures multiset(s) == multiset(s[1..]) + multiset{s[0]}
  {
    assert s == [s[0]] + s[1..];
  }

  lemma LeastFirst(le: Order, a: seq<string>, x: string)
    requires TotalOrder(le) && SortedBy(le, a) && a != [] && x in multiset(a)
    ensures le(a[0], x)
  {
    assert a == [a[0]] + a[1..];
  }

  lemma SameHead(le: Order, a: seq<string>, b: seq<string>)
    requires TotalOrder(le) && SortedBy(le, a) && SortedBy(le, b) && multiset(a) == multiset(b) && a != [] && b != []
    ensures a[0] == b[0] && multiset(a[1..]) == multiset(b[1..])
  {
    assert a[0] in multiset(a) && b[0] in multiset(b);
    LeastFirst(le, a, b[0]);
    LeastFirst(le, b, a[0]);
    Cut(a, 0);
    Cut(b, 0);
  }

  /** A sorted sequence is determined by its elements. */
  lemma {:induction false} SortedUnique(le: Order, a: seq<string>, b: seq<string>)
    requires TotalOrder(le) && SortedBy(le, a) && SortedBy(le, b) && multiset(a) == multiset(b)
    ensures a == b
  {
    assert |a| == |multiset(a)| == |multiset(b)| == |b|;
    if a != [] {
      SameHead(le, a, b);
      SortedUnique(le, a[1..], b[1..]);
      SameEnds(a, b);
    }
  }

  lemma SameEnds(a: seq<string>, b: seq<string>)
    requires a != [] && b != [] && a[0] == b[0] && a[1..] == b[1..]
    ensures a == b
  {
    assert a == [a[0]] + a[1..] && b == [b[0]] + b[1..];
  }

  lemma {:induction false} SortedConcat(le: Order, a: seq<string>, b: seq<string>)
    requires SortedBy(le, a) && SortedBy(le, b)
    requires forall i, j :: 0 <= i < |a| && 0 <= j < |b| ==> le(a[i], b[j])
    ensures SortedBy(le, a + b)
  {
    if a == [] {
      assert a + b == b;
    } else {
      assert (a + b)[1..] == a[1..] + b;
      SortedConcat(le, a[1..], b);
    }
  }

  function Alphabetic(): Order {
    (a: string, b: string) => AtMost(a, b)
  }

  lemma AlphabeticIsTotal()
    ensures TotalOrder(Alphabetic())
  {
    forall a, b ensures AtMost(a, b) || AtMost(b, a) { AtMostTotal(a, b); }
    forall a, b | AtMost(a, b) && AtMost(b, a) ensures a == b { AtMostTotal(a, b); }
    forall a, b, c | AtMost(a, b) && AtMost(b, c) ensures AtMost(a, c) { AtMostTransitive(a, b, c); }
  }

  /** sort.Strings. */
  function Sort(s: seq<string>): seq<string> {
    SortBy(Alphabetic(), s)
  }

  /** What sort.Strings returns does not depend on the order it is given. */
  lemma SortPermutes(a: seq<string>, b: seq<string>)
    requires multiset(a) == multiset(b)
    ensures Sort(a) == Sort(b)
  {
    AlphabeticIsTotal();
    SortSorted(Alphabetic(), a);
    SortSorted(Alphabetic(), b);
    SortedUnique(Alphabetic(), Sort(a), Sort(b));
  }

  /** Elements that start with a smaller character come first. */
  lemma SortSplits(a: seq<string>, b: seq<string>, x: char, y: char)
    requires x < y
    requires forall i :: 0 <= i < |a| ==> a[i] != "" && a[i][0] == x
    requires forall i :: 0 <= i < |b| ==> b[i] != "" && b[i][0] == y
    ensures Sort(a + b) == Sort(a) + Sort(b)
  {
    AlphabeticIsTotal();
    SortSorted(Alphabetic(), a);
    SortSorted(Alphabetic(), b);
    SortSorted(Alphabetic(), a + b);
    forall i, j | 0 <= i < |Sort(a)| && 0 <= j < |Sort(b)| ensures Alphabetic()(Sort(a)[i], Sort(b)[j]) {
      assert Sort(a)[i] in multiset(a) && Sort(b)[j] in multiset(b);
    }
    SortedConcat(Alphabetic(), Sort(a), Sort(b));
    assert multiset(Sort(a) + Sort(b)) == multiset(a + b);
    SortedUnique(Alphabetic(), Sort(a + b), Sort(a) + Sort(b));
  }

  lemma Cut<A>(s: seq<A>, k: nat)
    requires k < |s|
    ensures multiset(s[..k] + s[k + 1..]) == multiset(s) - multiset{s[k]}
    ensures k == 0 ==> s[..k] + s[k + 1..] == s[1..]
  {
    assert s == s[..k] + [s[k]] + s[k + 1..];
  }

  // ---------- joining ----------

  /** strings.Join. */
  function Join(parts: seq<string>, sep: string): string {
    if parts == [] then ""
    else if |parts| == 1 then parts[0]
    else parts[0] + sep + Join(parts[1..], sep)
  }

  lemma {:induction false} JoinConcat(a: seq<string>, b: seq<string>, sep: string)
    requires a != [] && b != []
    ensures Join(a + b, sep) == Join(a, sep) + sep + Join(b, sep)
  {
    if |a| == 1 {
      assert (a + b)[1..] == b;
    } else {
      assert (a + b)[1..] == a[1..] + b;
      JoinConcat(a[1..], b, sep);
    }
  }

  predicate Lacks(s: string, c: char) {
    forall i :: 0 <= i < |s| ==> s[i] != c
  }

  predicate EndsInBackslash(s: string) {
    s != "" && s[|s| - 1] == '\\'
  }

  lemma {:induction false} JoinLacks(parts: seq<string>, sep: string, c: char)
    requires Lacks(sep, c) && forall i :: 0 <= i < |parts| ==> Lacks(parts[i], c)
    ensures Lacks(Join(parts, sep), c)
  {
    if |parts| > 1 { JoinLacks(parts[1..], sep, c); }
  }

  // ---------- mapping ----------

  function Map<A, B>(f: A -> B, s: seq<A>): (r: seq<B>)
    ensures |r| == |s| && forall i :: 0 <= i < |s| ==> r[i] == f(s[i])
  {
    seq(|s|, i requires 0 <= i < |s| => f(s[i]))
  }

  lemma {:induction false} MapPermutes<A, B>(f: A -> B, a: seq<A>, b: seq<A>)
    requires multiset(a) == multiset(b)
    ensures multiset(Map(f, a)) == multiset(Map(f, b))
    decreases |a|
  {
    if a == [] {
      assert |b| == |multiset(b)| == 0;
    } else {
      var k, rest := Without(a, b);
      MapPermutes(f, a[1..], rest);
      assert Map(f, a) == [f(a[0])] + Map(f, a[1..]);
      assert Map(f, b) == Map(f, b[..k]) + [f(b[k])] + Map(f, b[k + 1..]);
      assert Map(f, rest) == Map(f, b[..k]) + Map(f, b[k + 1..]);
    }
  }

  /** b without one copy of the first element of a. */
  lemma Without<A>(a: seq<A>, b: seq<A>) returns (k: nat, rest: seq<A>)
    requires a != [] && multiset(a) == multiset(b)
    ensures k < |b| && b[k] == a[0] && rest == b[..k] + b[k + 1..]
    ensures multiset(a[1..]) == multiset(rest)
  {
    assert a[0] in multiset(a);
    assert a[0] in multiset(b);
    k :| 0 <= k < |b| && b[k] == a[0];
    rest := b[..k] + b[k + 1..];
    Cut(a, 0);
    Cut(b, k);
  }

  /** A rearrangement of the images is the image of a rearrangement. */
  lemma {:induction false} Lift<A, B>(f: A -> B, a: seq<A>, images: seq<B>) returns (b: seq<A>)
    requires multiset(Map(f, a)) == multiset(images)
    ensures multiset(b) == multiset(a) && Map(f, b) == images
    decreases |images|
  {
    if images == [] {
      assert |Map(f, a)| == |multiset(Map(f, a))| == 0;
      b := [];
    } else {
      var k, rest := Without(images, Map(f, a));
      var others := a[..k] + a[k + 1..];
      assert Map(f, others) == rest;
      var b' := Lift(f, others, images[1..]);
      b := [a[k]] + b';
      assert a == a[..k] + [a[k]] + a[k + 1..];
      assert Map(f, b) == [f(a[k])] + Map(f, b');
    }
  }

  lemma SortLacks(s: seq<string>, c: char)
    requires forall i :: 0 <= i < |s| ==> Lacks(s[i], c)
    ensures forall i :: 0 <= i < |Sort(s)| ==> Lacks(Sort(s)[i], c)
  {
    AlphabeticIsTotal();
    var sorted := Sort(s);
    SortSorted(Alphabetic(), s);
    assert multiset(sorted) == multiset(s);
    forall i | 0 <= i < |sorted| ensures Lacks(sorted[i], c) { assert sorted[i] in multiset(s); }
  }

  lemma JoinStep(parts: seq<string>, sep: string, rest: string)
    requires |parts| > 1
    ensures Join(parts, sep) + rest == parts[0] + (sep + (Join(parts[1..], sep) + rest))
  {
  }
}
