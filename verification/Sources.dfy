/** The store of data sources: records under big-endian keys, of which one is the default. */
module Sources {
  import opened Collections
  import opened Wrappers

  // ---------- keys ----------

  const INT_MIN: int := -0x8000_0000_0000_0000
  const INT_LIMIT: int := 0x8000_0000_0000_0000
  const UINT_LIMIT: int := 0x1_0000_0000_0000_0000

  type Int = i: int | INT_MIN <= i < INT_LIMIT

  /** The last k bytes of n, most significant first. */
  function BigEndian(n: nat, k: nat): seq<nat>
    decreases k, n
  {
    if k == 0 then [] else BigEndian(n / 256, k - 1) + [n % 256]
  }

  function Value(b: seq<nat>): nat {
    if b == [] then 0 else 256 * Value(b[..|b| - 1]) + b[|b| - 1]
  }

  function Power256(k: nat): nat {
    if k == 0 then 1 else 256 * Power256(k - 1)
  }

  datatype Key = Key(bytes: seq<nat>)

  function Unsigned(v: Int): nat {
    if v < 0 then v + UINT_LIMIT else v
  }

  /** The eight bytes of the value taken as an unsigned integer. */
  function Itob(v: Int): Key {
    Key(BigEndian(Unsigned(v), 8))
  }

  lemma {:induction false} BigEndianValue(n: nat, k: nat)
    requires n < Power256(k)
    ensures |BigEndian(n, k)| == k && Value(BigEndian(n, k)) == n
  {
    if k > 0 {
      BigEndianValue(n / 256, k - 1);
      assert BigEndian(n, k)[..k - 1] == BigEndian(n / 256, k - 1);
    }
  }

  lemma ItobInjective(v: Int, w: Int)
    requires Itob(v) == Itob(w)
    ensures v == w
  {
    assert Power256(2) == 0x1_0000 && Power256(4) == 0x1_0000_0000 && Power256(6) == 0x1_0000_0000_0000;
    assert Power256(8) == UINT_LIMIT;
    BigEndianValue(Unsigned(v), 8);
    BigEndianValue(Unsigned(w), 8);
  }

  lemma {:induction false} LastBytes(n: nat, k: nat)
    ensures |BigEndian(n, k)| == k
    ensures k >= 1 ==> BigEndian(n, k)[k - 1] == n % 256
    ensures k >= 2 ==> BigEndian(n, k)[k - 2] == n / 256 % 256
  {
    if k > 0 { LastBytes(n / 256, k - 1); }
  }

  lemma UnsignedBytes(v: Int)
    ensures Unsigned(v) % 256 == v % 256 && Unsigned(v) / 256 % 256 == v / 256 % 256
  {
    assert UINT_LIMIT == 256 * (256 * 0x1_0000_0000_0000);
  }

  /** Eight bytes, of which the least significant ones come last; negative ids in two's complement. */
  lemma ItobBytes(v: Int)
    ensures |Itob(v).bytes| == 8 && Itob(v).bytes[7] == v % 256 && Itob(v).bytes[6] == v / 256 % 256
  {
    LastBytes(Unsigned(v), 8);
    UnsignedBytes(v);
  }

  // ---------- records ----------

  datatype Source = Source(id: Int, name: string, url: string, organization: string, isDefault: bool)

  type Bucket = map<Key, Source>

  /** Every record is under the key of its own id. */
  predicate KeysMatch(b: Bucket) {
    forall key :: key in b ==> key == Itob(b[key].id)
  }

  predicate AtMostOneDefault(b: Bucket) {
    forall k, l :: k in b && l in b && b[k].isDefault && b[l].isDefault ==> k == l
  }

  /** A non-empty store has exactly one default. */
  ghost predicate OneDefault(b: Bucket) {
    AtMostOneDefault(b) && (b != map[] ==> exists k :: k in b && b[k].isDefault)
  }

  function ClearDefaults(b: Bucket): Bucket {
    map key | key in b :: b[key].(isDefault := false)
  }

  /** The flag is cleared on the given keys only. */
  function ClearIn(b: Bucket, keys: set<Key>): Bucket {
    map key | key in b :: if key in keys then b[key].(isDefault := false) else b[key]
  }

  lemma ClearOne(b: Bucket, keys: set<Key>, key: Key)
    requires key in b
    ensures ClearIn(b, keys + {key}) == ClearIn(b, keys)[key := b[key].(isDefault := false)]
    ensures !b[key].isDefault ==> ClearIn(b, keys + {key}) == ClearIn(b, keys)
  {
    if !b[key].isDefault { assert b[key].(isDefault := false) == b[key]; }
  }

  lemma ClearListed(b: Bucket, srcs: seq<Source>, keys: set<Key>, i: nat)
    requires Listing(b, b.Keys, srcs) && i < |srcs|
    ensures var src, key := srcs[i], Itob(srcs[i].id);
            ClearIn(b, keys + {key})
            == if src.isDefault then ClearIn(b, keys)[key := src.(isDefault := false)] else ClearIn(b, keys)
  {
    ListedAt(KeyOf, b, b.Keys, srcs, i);
    ClearOne(b, keys, Itob(srcs[i].id));
  }

  lemma ClearedAll(b: Bucket, keys: set<Key>, srcs: seq<Source>)
    requires Listing(b, b.Keys, srcs) && forall j :: 0 <= j < |srcs| ==> Itob(srcs[j].id) in keys
    ensures ClearIn(b, keys) == ClearDefaults(b)
  {
    forall key | key in b ensures key in keys {
      var j := IndexOfKey(KeyOf, b, b.Keys, srcs, key);
    }
  }

  /** The record is put under its id; if it is the default, no other is. */
  function Put(b: Bucket, src: Source): Bucket {
    (if src.isDefault then ClearDefaults(b) else b)[Itob(src.id) := src]
  }

  /** The record under the id is exactly the one given; of the others at most the default flag goes, and
      only to a new default. */
  lemma PutIsExact(b: Bucket, src: Source, key: Key)
    ensures var after := Put(b, src);
            && after.Keys == b.Keys + {Itob(src.id)} && after[Itob(src.id)] == src
            && (key in b && key != Itob(src.id) ==>
                  after[key].name == b[key].name && after[key].url == b[key].url && after[key].id == b[key].id
                  && after[key].organization == b[key].organization
                  && (after[key].isDefault <==> b[key].isDefault && !src.isDefault))
  {
  }

  /** The default moves to `other` before a default record is deleted. */
  function Removed(b: Bucket, key: Key, other: Key): Bucket
    requires key in b && other in b
  {
    (if b[key].isDefault then Put(b, b[other].(isDefault := true)) else b) - {key}
  }

  function KeyOf(s: Source): Key {
    Itob(s.id)
  }

  /** The records under the given keys, each once, in some order. */
  ghost predicate Listing(b: Bucket, keys: set<Key>, srcs: seq<Source>) {
    Lists(KeyOf, b, keys, srcs)
  }

  datatype Error = SourceNotFound

  /** Emptiness and default are read in one transaction, the record is written in another: `sawEmpty`
      is what the first one saw, whatever ran in between. */
  function Adding(src: Source, id: Int, sawEmpty: bool): Source {
    src.(id := id, isDefault := src.isDefault || sawEmpty)
  }

  class SourcesStore {
    var bucket: Bucket
    var sequence: nat

    /** Ids come from the sequence, so they are never reused. */
    ghost predicate Valid()
      reads this
    {
      KeysMatch(bucket) && forall key :: key in bucket ==> 1 <= bucket[key].id <= sequence
    }

    constructor ()
      ensures Valid() && bucket == map[] && sequence == 0
    {
      bucket, sequence := map[], 0;
    }

    method All() returns (srcs: seq<Source>)
      requires KeysMatch(bucket)
      ensures Listing(bucket, bucket.Keys, srcs)
    {
      srcs := [];
      var todo := bucket.Keys;
      while todo != {}
        invariant todo <= bucket.Keys
        invariant Listing(bucket, bucket.Keys - todo, srcs)
      {
        var key :| key in todo;
        ListsMore(KeyOf, bucket, bucket.Keys - todo, srcs, key);
        srcs := srcs + [bucket[key]];
        todo := todo - {key};
        assert bucket.Keys - todo == bucket.Keys - (todo + {key}) + {key};
      }
      assert bucket.Keys - todo == bucket.Keys;
    }

    method Get(id: Int) returns (r: Result<Source, Error>)
      ensures r == if Itob(id) in bucket then Ok(bucket[Itob(id)]) else Err(SourceNotFound)
    {
      if Itob(id) !in bucket {
        return Err(SourceNotFound);
      }
      r := Ok(bucket[Itob(id)]);
    }

    method ResetDefaultSource()
      requires KeysMatch(bucket)
      modifies this`bucket
      ensures bucket == ClearDefaults(old(bucket))
    {
      var srcs := All();
      ghost var cleared: set<Key> := {};
      ghost var b := bucket;
      assert ClearIn(b, {}) == b;
      for i := 0 to |srcs|
        invariant bucket == ClearIn(b, cleared)
        invariant forall j :: 0 <= j < i ==> Itob(srcs[j].id) in cleared
      {
        ghost var key := Itob(srcs[i].id);
        ClearListed(b, srcs, cleared, i);
        if srcs[i].isDefault {
          bucket := bucket[Itob(srcs[i].id) := srcs[i].(isDefault := false)];
        }
        cleared := cleared + {key};
      }
      ClearedAll(b, cleared, srcs);
    }

    /** The second transaction of Add. */
    method AddTx(src: Source, sawEmpty: bool) returns (added: Source)
      requires Valid() && sequence + 1 < INT_LIMIT
      modifies this
      ensures Valid() && sequence == old(sequence) + 1
      ensures added == Adding(src, sequence, sawEmpty)
      ensures added == src.(id := sequence, isDefault := src.isDefault || sawEmpty)
      ensures Itob(added.id) !in old(bucket) && bucket == Put(old(bucket), added)
    {
      added := src.(id := sequence + 1, isDefault := src.isDefault || sawEmpty);
      sequence := sequence + 1;
      if Itob(added.id) in bucket { ItobInjective(added.id, bucket[Itob(added.id)].id); }
      if added.isDefault {
        ResetDefaultSource();
      }
      bucket := bucket[Itob(added.id) := added];
    }

    method Add(src: Source) returns (added: Source)
      requires Valid() && sequence + 1 < INT_LIMIT
      modifies this
      ensures Valid() && sequence == old(sequence) + 1
      ensures added == Adding(src, sequence, old(bucket) == map[])
      ensures added == src.(id := sequence, isDefault := src.isDefault || old(bucket) == map[])
      ensures Itob(added.id) !in old(bucket) && bucket == Put(old(bucket), added)
    {
      var srcs := All();
      if |srcs| == 0 {
        forall key ensures key !in bucket {}
      } else {
        ListedAt(KeyOf, bucket, bucket.Keys, srcs, 0);
      }
      added := AddTx(src, |srcs| == 0);
    }

    method Update(src: Source) returns (r: Option<Error>)
      requires Valid()
      modifies this`bucket
      ensures Valid() && bucket.Keys == old(bucket).Keys
      ensures r == if Itob(src.id) in old(bucket) then None else Some(SourceNotFound)
      ensures bucket == if r.None? then Put(old(bucket), src) else old(bucket)
      ensures r.None? ==> bucket[Itob(src.id)] == src
    {
      if Itob(src.id) !in bucket {
        return Some(SourceNotFound);
      }
      ItobInjective(src.id, bucket[Itob(src.id)].id);
      if src.isDefault {
        ResetDefaultSource();
      }
      bucket := bucket[Itob(src.id) := src];
      r := None;
    }

    method SetRandomDefault(id: Int) returns (r: Option<Error>, ghost other: Key)
      requires Valid()
      modifies this`bucket
      ensures r == if Itob(id) in old(bucket) then None else Some(SourceNotFound)
      ensures r.Some? ==> bucket == old(bucket)
      ensures r.None? ==> other in old(bucket) && (other == Itob(id) ==> |old(bucket)| == 1)
      ensures r.None? ==> Valid() && bucket.Keys == old(bucket).Keys
      ensures r.None? ==>
        bucket == if old(bucket)[Itob(id)].isDefault then Put(old(bucket), old(bucket)[other].(isDefault := true))
                  else old(bucket)
    {
      other := Itob(id);
      if Itob(id) !in bucket {
        return Some(SourceNotFound), other;
      }
      var target := bucket[Itob(id)];
      if target.isDefault {
        var srcs := All();
        ItobInjective(target.id, id);
        var i := FirstOther(bucket, srcs, id);
        other := Itob(srcs[i].id);
        var updated := Update(srcs[i].(isDefault := true));
        return updated, other;
      } else {
        other := PickOther(bucket, Itob(id));
        r := None;
      }
    }

    method Delete(id: Int) returns (r: Option<Error>, ghost other: Key)
      requires Valid()
      modifies this`bucket
      ensures Valid()
      ensures r == if Itob(id) in old(bucket) then None else Some(SourceNotFound)
      ensures r.Some? ==> bucket == old(bucket)
      ensures r.None? ==> other in old(bucket) && (other == Itob(id) ==> |old(bucket)| == 1)
      ensures r.None? ==> bucket == Removed(old(bucket), Itob(id), other)
    {
      r, other := SetRandomDefault(id);
      if r.Some? {
        return;
      }
      bucket := bucket - {Itob(id)};
    }
  }

  /** The first source with another id, or else the last of the list. */
  method FirstOther(ghost b: Bucket, srcs: seq<Source>, id: Int) returns (i: nat)
    requires Listing(b, b.Keys, srcs) && Itob(id) in b
    ensures i < |srcs|
    ensures Itob(srcs[i].id) == Itob(id) ==> |b| == 1
  {
    ghost var j := IndexOfKey(KeyOf, b, b.Keys, srcs, Itob(id));
    i := 0;
    while i < |srcs| - 1 && srcs[i].id == id
      invariant 0 <= i < |srcs|
      invariant forall j :: 0 <= j < i ==> srcs[j].id == id
    {
      i := i + 1;
    }
    if srcs[i].id == id {
      OnlyOne(b, srcs, id, i);
    } else if Itob(srcs[i].id) == Itob(id) {
      ItobInjective(srcs[i].id, id);
    }
  }

  lemma PickOther(b: Bucket, key: Key) returns (other: Key)
    requires key in b
    ensures other in b && (other == key ==> |b| == 1)
  {
    if k :| k in b && k != key {
      other := k;
    } else {
      other := key;
      assert b.Keys == {key};
    }
  }

  lemma OnlyOne(b: Bucket, srcs: seq<Source>, id: Int, last: nat)
    requires Listing(b, b.Keys, srcs) && last == |srcs| - 1
    requires forall j :: 0 <= j <= last ==> srcs[j].id == id
    requires Itob(id) in b
    ensures |b| == 1
  {
    assert b.Keys == {Itob(id)};
  }

  // ---------- the default ----------

  lemma PutKeepsAtMostOne(b: Bucket, src: Source)
    requires AtMostOneDefault(b)
    ensures AtMostOneDefault(Put(b, src))
  {
  }

  /** Add keeps exactly one default except when it saw a source that is gone by the time it writes. */
  lemma AddKeepsDefaultExact(b: Bucket, src: Source, id: Int, sawEmpty: bool)
    requires OneDefault(b) && Itob(id) !in b
    ensures OneDefault(Put(b, Adding(src, id, sawEmpty))) <==> b != map[] || sawEmpty || src.isDefault
  {
    var added := Adding(src, id, sawEmpty);
    var after := Put(b, added);
    assert Itob(id) in after && after[Itob(id)] == added;
    if !added.isDefault {
      forall key | key in b ensures key in after && after[key] == b[key] {}
      if k :| k in b && b[k].isDefault { assert k in after && after[k].isDefault; }
    }
  }

  /** Update keeps exactly one default exactly when it does not take the flag from the default. */
  lemma UpdateKeepsDefaultExact(b: Bucket, src: Source)
    requires OneDefault(b) && KeysMatch(b) && Itob(src.id) in b
    ensures OneDefault(Put(b, src)) <==> src.isDefault || !b[Itob(src.id)].isDefault
  {
    var after := Put(b, src);
    var k :| k in b && b[k].isDefault;
    assert Itob(src.id) in after;
    if src.isDefault {
      assert after[Itob(src.id)].isDefault;
    } else if !b[Itob(src.id)].isDefault {
      assert k in after && after[k].isDefault;
    } else {
      assert forall l :: l in after ==> !after[l].isDefault;
    }
  }

  /** Deleting the default moves it to a surviving source and changes nothing else; deleting another
      source leaves the rest as it is. */
  lemma DeleteMovesDefault(b: Bucket, key: Key, other: Key)
    requires OneDefault(b) && KeysMatch(b) && key in b && other in b && (other == key ==> |b| == 1)
    ensures var after := Removed(b, key, other);
            && OneDefault(after)
            && after.Keys == b.Keys - {key}
            && (forall k :: k in after ==> after[k].(isDefault := false) == b[k].(isDefault := false))
            && (b[key].isDefault && after != map[] ==> after[other].isDefault)
            && (!b[key].isDefault ==> after == b - {key})
  {
    var after := Removed(b, key, other);
    assert other == Itob(b[other].id);
    if other == key {
      assert {key} <= b.Keys;
      assert b.Keys == {key} by { OneKey(b, key); }
      assert after == map[];
    } else if b[key].isDefault {
      assert other in after && after[other].isDefault;
    } else {
      var k :| k in b && b[k].isDefault;
      assert k in after && after[k].isDefault;
    }
  }

  lemma OneKey(b: Bucket, key: Key)
    requires key in b && |b| == 1
    ensures b.Keys == {key}
  {
    if k :| k in b && k != key { assert {key, k} <= b.Keys; Smaller({key, k}, b.Keys); }
  }

  // ---------- whole runs ----------

  /** The transactions that change the store. */
  datatype Tx = AddTx(src: Source, id: Int, sawEmpty: bool) | UpdateTx(src: Source) | DeleteTx(key: Key, other: Key)

  predicate Possible(b: Bucket, tx: Tx) {
    match tx
    case AddTx(src, id, _) => Itob(id) !in b
    case UpdateTx(src) => Itob(src.id) in b
    case DeleteTx(key, other) => key in b && other in b && (other == key ==> |b| == 1)
  }

  function Run(b: Bucket, tx: Tx): Bucket
    requires Possible(b, tx)
  {
    match tx
    case AddTx(src, id, sawEmpty) => Put(b, Adding(src, id, sawEmpty))
    case UpdateTx(src) => Put(b, src)
    case DeleteTx(key, other) => Removed(b, key, other)
  }

  ghost predicate IsRun(states: seq<Bucket>, txs: seq<Tx>) {
    && |states| == |txs| + 1 && states[0] == map[]
    && forall i {:trigger txs[i]} :: 0 <= i < |txs| ==>
         Possible(states[i], txs[i]) && states[i + 1] == Run(states[i], txs[i])
  }

  /** Sequential use: what Add saw still holds when it writes, and no update takes the flag away. */
  predicate Sequential(b: Bucket, tx: Tx) {
    match tx
    case AddTx(_, _, sawEmpty) => sawEmpty == (b == map[])
    case UpdateTx(src) => Itob(src.id) in b && b[Itob(src.id)].isDefault ==> src.isDefault
    case DeleteTx(_, _) => true
  }

  /** In every reachable state, however the emptiness reads of Add interleave with other transactions,
      keys match ids and at most one source is the default. */
  lemma {:induction false} RunAtMostOneDefault(states: seq<Bucket>, txs: seq<Tx>, i: nat)
    requires IsRun(states, txs) && i < |states|
    ensures AtMostOneDefault(states[i]) && KeysMatch(states[i])
  {
    if i > 0 {
      RunAtMostOneDefault(states, txs, i - 1);
      TxAtMostOne(states[i - 1], txs[i - 1]);
    }
  }

  lemma TxAtMostOne(b: Bucket, tx: Tx)
    requires AtMostOneDefault(b) && KeysMatch(b) && Possible(b, tx)
    ensures AtMostOneDefault(Run(b, tx)) && KeysMatch(Run(b, tx))
  {
    match tx
    case AddTx(src, id, sawEmpty) => PutKeepsAtMostOne(b, Adding(src, id, sawEmpty));
    case UpdateTx(src) => PutKeepsAtMostOne(b, src);
    case DeleteTx(key, other) => PutKeepsAtMostOne(b, b[other].(isDefault := true));
  }

  /** In sequential runs whose updates never clear the default, a non-empty store has exactly one. */
  lemma {:induction false} RunOneDefault(states: seq<Bucket>, txs: seq<Tx>, i: nat)
    requires IsRun(states, txs) && i < |states|
    requires forall k {:trigger txs[k]} :: 0 <= k < |txs| ==> Sequential(states[k], txs[k])
    ensures OneDefault(states[i])
  {
    if i > 0 {
      RunOneDefault(states, txs, i - 1);
      RunAtMostOneDefault(states, txs, i - 1);
      var b := states[i - 1];
      match txs[i - 1]
      case AddTx(src, id, sawEmpty) => AddKeepsDefaultExact(b, src, id, sawEmpty);
      case UpdateTx(src) => UpdateKeepsDefaultExact(b, src);
      case DeleteTx(key, other) => DeleteMovesDefault(b, key, other);
    }
  }
}
