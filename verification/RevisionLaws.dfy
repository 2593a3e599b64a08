/**
  What the hashed bytes say about a payload and its version: how they are laid out, and which
  changes of a secret always show in them.
 */
module RevisionLaws {
  import opened Options
  import opened Revision

  // ---------------------------------------------------------------- the order

  /** At position n the first comes before the second: it ends there, or has the smaller byte. */
  predicate DiffersAt(a: Bytes, b: Bytes, n: nat) {
    && n <= |a| && n < |b| && a[..n] == b[..n]
    && (n == |a| || a[n] < b[n])
  }

  /** The order is the lexicographic one on bytes. */
  lemma {:induction false} BeforeIsLexicographic(a: Bytes, b: Bytes)
    ensures Before(a, b) <==> exists n: nat :: DiffersAt(a, b, n)
    decreases |a|
  {
    if |a| > 0 && |b| > 0 && a[0] == b[0] {
      BeforeIsLexicographic(a[1..], b[1..]);
      if n: nat :| DiffersAt(a[1..], b[1..], n) {
        assert a[..n + 1] == [a[0]] + a[1..][..n] && b[..n + 1] == [b[0]] + b[1..][..n];
        assert DiffersAt(a, b, n + 1);
      }
      if n: nat :| DiffersAt(a, b, n) {
        assert n > 0;
        assert a[1..][..n - 1] == a[..n][1..] && b[1..][..n - 1] == b[..n][1..];
        assert DiffersAt(a[1..], b[1..], n - 1);
      }
    } else if Before(a, b) {
      assert DiffersAt(a, b, 0);
    } else if n: nat :| DiffersAt(a, b, n) {
      SamePart(a, b, n);
    }
  }

  lemma SamePart(a: Bytes, b: Bytes, n: nat)
    requires DiffersAt(a, b, n)
    ensures n == 0 || (|a| > 0 && |b| > 0 && a[0] == b[0])
  {
    assert n > 0 ==> a[..n][0] == b[..n][0];
  }

  // ---------------------------------------------------------------- the layout

  /** The version ends the bytes, so two versions of one payload never share them. */
  lemma VersionShows(data: Payload, v1: Bytes, v2: Bytes)
    ensures Stream(data, v1) == Stream(data, []) + v1
    ensures Stream(data, v1) == Stream(data, v2) <==> v1 == v2
  {
    hide Concatenated, SortedKeys;
    var body := Stream(data, []);
    assert Stream(data, v1) == body + v1 && Stream(data, v2) == body + v2;
    assert (body + v1)[|body|..] == v1 && (body + v2)[|body|..] == v2;
  }

  /** A value alone is hashed without its key; from two on every key stands before its value. */
  lemma SmallPayloads(k1: Bytes, v1: Bytes, k2: Bytes, v2: Bytes)
    ensures Stream(map[], []) == [] && Stream(map[k1 := v1], []) == v1
    ensures Before(k1, k2) ==> k1 != k2 && Stream(map[k1 := v1, k2 := v2], []) == k1 + v1 + k2 + v2
  {
    hide Before, Concatenated;
    NoKeys();
    var one: Payload := map[k1 := v1];
    assert |one| == 1 && forall k :: k in one ==> k == k1;
    if Before(k1, k2) {
      BeforeTotal(k1, k2);
      var two: Payload := map[k1 := v1, k2 := v2];
      TwoKeys(two, k1, k2);
      assert (k1 + v1) + (k2 + v2) == k1 + v1 + k2 + v2;
    }
  }

  lemma NoKeys()
    ensures Stream(map[], []) == []
  {
    var none: Payload := map[];
    assert none.Keys == {} && SortedKeys({}) == [];
  }

  /** A key behind all others adds itself and its value at the end. */
  lemma GreatestKeyComesLast(data: Payload, k: Bytes, v: Bytes)
    requires |data| >= 2 && k !in data && forall j :: j in data ==> Before(j, k)
    ensures Stream(data[k := v], []) == Stream(data, []) + (k + v)
  {
    hide Before, SortedKeys, Concatenated, Ascending;
    var keys, more := SortedKeys(data.Keys), data[k := v];
    MoreKeys(data, k, v);
    AscendingMore(keys, k);
    AscendingIsUnique(SortedKeys(more.Keys), keys + [k]);
    ConcatenatedNext(more, keys, k);
    SameConcatenation(data, more, keys);
  }

  lemma AscendingMore(keys: seq<Bytes>, k: Bytes)
    requires Ascending(keys) && forall j :: j in keys ==> Before(j, k)
    ensures Ascending(keys + [k])
  {
    hide Before;
    var more := keys + [k];
    forall i, j | 0 <= i < j < |more| ensures Before(more[i], more[j]) {
      assert i < |keys| && keys[i] in keys && more[i] == keys[i];
    }
  }

  lemma MoreKeys(data: Payload, k: Bytes, v: Bytes)
    requires k !in data
    ensures |data[k := v]| == |data| + 1
  {
    assert data[k := v].Keys == data.Keys + {k} && |data.Keys + {k}| == |data.Keys| + 1;
  }

  lemma {:induction false} SameConcatenation(d1: Payload, d2: Payload, keys: seq<Bytes>)
    requires forall k :: k in keys ==> k in d1 && k in d2 && d1[k] == d2[k]
    ensures Concatenated(d1, keys) == Concatenated(d2, keys)
    decreases |keys|
  {
    if |keys| > 0 {
      SameConcatenation(d1, d2, keys[..|keys| - 1]);
    }
  }

  // ---------------------------------------------------------------- changes that always show

  lemma {:induction false} ConcatenatedJoin(data: Payload, a: seq<Bytes>, b: seq<Bytes>)
    requires (forall k :: k in a ==> k in data) && forall k :: k in b ==> k in data
    ensures forall k :: k in a + b ==> k in data
    ensures Concatenated(data, a + b) == Concatenated(data, a) + Concatenated(data, b)
    decreases |b|
  {
    if |b| == 0 {
      assert a + b == a;
      assert Concatenated(data, a) + [] == Concatenated(data, a);
    } else {
      var n := |b| - 1;
      assert (a + b)[..|a| + n] == a + b[..n] && (a + b)[|a| + n] == b[n] && b == b[..n] + [b[n]];
      ConcatenatedJoin(data, a, b[..n]);
      Grouped(Concatenated(data, a), Concatenated(data, b[..n]), b[n] + data[b[n]]);
    }
  }

  lemma Grouped(a: Bytes, b: Bytes, c: Bytes)
    ensures a + b + c == a + (b + c)
  {
  }

  /** The bytes around one key's value do not depend on it. */
  lemma AroundOneValue(data: Payload, k: Bytes) returns (before: Bytes, after: Bytes)
    requires k in data && |data| != 1
    ensures forall v :: Stream(data[k := v], []) == before + v + after
  {
    hide SortedKeys, Concatenated, Stream, Ascending;
    var keys := SortedKeys(data.Keys);
    var i :| 0 <= i < |keys| && keys[i] == k;
    PartsInData(data, keys, i);
    before, after := Concatenated(data, keys[..i]) + k, Concatenated(data, keys[i + 1..]);
    forall v ensures Stream(data[k := v], []) == before + v + after {
      ValueBetween(data, keys, i, v);
    }
  }

  lemma PartsInData(data: Payload, keys: seq<Bytes>, i: nat)
    requires i < |keys| && forall k :: k in keys <==> k in data
    ensures forall k :: k in keys[..i] || k in keys[i + 1..] ==> k in data
    ensures keys == keys[..i] + ([keys[i]] + keys[i + 1..])
  {
  }

  lemma ValueBetween(data: Payload, keys: seq<Bytes>, i: nat, v: Bytes)
    requires |data| != 1 && keys == SortedKeys(data.Keys) && i < |keys|
    ensures keys[i] in data
    ensures forall k :: k in keys[..i] || k in keys[i + 1..] ==> k in data
    ensures Stream(data[keys[i] := v], [])
         == Concatenated(data, keys[..i]) + keys[i] + v + Concatenated(data, keys[i + 1..])
  {
    hide SortedKeys, Concatenated, Ascending, Stream;
    var k, a, b := keys[i], keys[..i], keys[i + 1..];
    assert k in keys;
    PartsInData(data, keys, i);
    var d := data[k := v];
    assert d.Keys == data.Keys;
    OthersUnchanged(data, d, keys, i);
    OneConcatenated(d, k);
    ConcatenatedJoin(d, [k], b);
    ConcatenatedJoin(d, a, [k] + b);
    StreamIsConcatenated(d);
    assert |d| == |d.Keys| == |data.Keys| == |data|;
    Four(Concatenated(data, a), k, v, Concatenated(data, b));
  }

  lemma StreamIsConcatenated(d: Payload)
    requires |d| != 1
    ensures Stream(d, []) == Concatenated(d, SortedKeys(d.Keys))
  {
    hide Concatenated, SortedKeys;
    assert Concatenated(d, SortedKeys(d.Keys)) + [] == Concatenated(d, SortedKeys(d.Keys));
  }

  lemma OneConcatenated(d: Payload, k: Bytes)
    requires k in d
    ensures Concatenated(d, [k]) == k + d[k]
  {
    ConcatenatedNone(d);
    ConcatenatedNext(d, [], k);
    assert [] + [k] == [k];
  }

  lemma Four(a: Bytes, b: Bytes, c: Bytes, d: Bytes)
    ensures a + ((b + c) + d) == a + b + c + d
  {
  }

  lemma OthersUnchanged(data: Payload, d: Payload, keys: seq<Bytes>, i: nat)
    requires i < |keys| && Ascending(keys) && forall k :: k in keys <==> k in data
    requires keys[i] in d && d == data[keys[i] := d[keys[i]]]
    ensures forall k :: k in keys[..i] || k in keys[i + 1..] ==> k in data && k in d
    ensures Concatenated(d, keys[..i]) == Concatenated(data, keys[..i])
    ensures Concatenated(d, keys[i + 1..]) == Concatenated(data, keys[i + 1..])
  {
    hide Concatenated, Before;
    forall k | k in keys[..i] || k in keys[i + 1..] ensures k in keys && k != keys[i] {
      if k in keys[..i] {
        var j :| 0 <= j < i && keys[..i][j] == k;
        assert Before(keys[j], keys[i]);
      } else {
        var j :| 0 <= j < |keys[i + 1..]| && keys[i + 1..][j] == k;
        assert keys[i + 1 + j] == k && Before(keys[i], keys[i + 1 + j]);
      }
      BeforeTotal(keys[i], keys[i]);
    }
    SameConcatenation(d, data, keys[..i]);
    SameConcatenation(d, data, keys[i + 1..]);
  }

  /** A change of one value, of whatever length, always changes the bytes. */
  lemma ChangedValueShows(data: Payload, k: Bytes, v: Bytes, version: Bytes)
    requires k in data
    ensures Stream(data[k := v], version) == Stream(data, version) <==> v == data[k]
  {
    hide SortedKeys, Concatenated;
    assert data[k := data[k]] == data;
    VersionShows(data, version, version);
    VersionShows(data[k := v], version, version);
    if |data| == 1 {
      OnlyKey(data, k);
      assert data[k := v].Keys == data.Keys;
      OnlyKey(data[k := v], k);
      Sandwich([], v, data[k], version);
      assert [] + v + version == v + version && [] + data[k] + version == data[k] + version;
    } else {
      var before, after := AroundOneValue(data, k);
      assert Stream(data[k := data[k]], []) == before + data[k] + after;
      Sandwich(before, v, data[k], after + version);
      assert before + v + after + version == before + v + (after + version);
      assert before + data[k] + after + version == before + data[k] + (after + version);
    }
  }

  lemma Sandwich(before: Bytes, v1: Bytes, v2: Bytes, after: Bytes)
    ensures before + v1 + after == before + v2 + after <==> v1 == v2
  {
    var s1, s2 := before + v1 + after, before + v2 + after;
    if s1 == s2 {
      assert |v1| == |v2|;
      assert s1[|before|..|before| + |v1|] == v1 && s2[|before|..|before| + |v2|] == v2;
    }
  }

  // ---------------------------------------------------------------- what a parsed payload holds

  /** What a key of the source secret gives for a field: one of the fields its value parses to, or itself if it does not parse. */
  function Given(parse: Parser, data: Payload, k: Bytes, f: Bytes): Option<Bytes>
    requires k in data
  {
    match parse(data[k])
    case Some(fields) => if f in fields then Some(fields[f]) else None
    case None => if f == k then Some(data[k]) else None
  }

  predicate GivesNothingFrom(parse: Parser, data: Payload, order: seq<Bytes>, i: nat, f: Bytes)
    requires forall k :: k in order ==> k in data
  {
    forall j :: i <= j < |order| ==> Given(parse, data, order[j], f).None?
  }

  lemma MergedNext(parse: Parser, data: Payload, order: seq<Bytes>, f: Bytes)
    requires forall k :: k in order ==> k in data
    ensures |order| == 0 ==> f !in Merged(parse, data, order)
    ensures |order| > 0 ==>
      var n := |order| - 1; var before, all := Merged(parse, data, order[..n]), Merged(parse, data, order);
      && order[n] in data
      && (match Given(parse, data, order[n], f)
          case Some(v) => f in all && all[f] == v
          case None => (f in all <==> f in before) && (f in before ==> all[f] == before[f]))
  {
    if |order| > 0 {
      assert order[|order| - 1] in order;
    }
  }

  /**
    Whatever the order, the merged payload has for each field what the last key that gives the field
    gives for it, and no field that no key gives; a value that does not parse is kept under its key.
   */
  lemma {:induction false} MergedFieldIs(parse: Parser, data: Payload, order: seq<Bytes>, f: Bytes, i: nat)
    requires forall k :: k in order ==> k in data
    requires i < |order| && Given(parse, data, order[i], f).Some? && GivesNothingFrom(parse, data, order, i + 1, f)
    ensures f in Merged(parse, data, order) && Some(Merged(parse, data, order)[f]) == Given(parse, data, order[i], f)
    decreases |order|
  {
    hide Merged, Given;
    MergedNext(parse, data, order, f);
    var n := |order| - 1;
    assert order[n] in order;
    if i < n {
      assert order[..n][i] == order[i];
      assert forall j :: i + 1 <= j < n ==> order[..n][j] == order[j];
      MergedFieldIs(parse, data, order[..n], f, i);
      assert Given(parse, data, order[n], f).None?;
    }
  }

  lemma {:induction false} UngivenFieldIsAbsent(parse: Parser, data: Payload, order: seq<Bytes>, f: Bytes)
    requires (forall k :: k in order ==> k in data) && GivesNothingFrom(parse, data, order, 0, f)
    ensures f !in Merged(parse, data, order)
    decreases |order|
  {
    hide Merged, Given;
    MergedNext(parse, data, order, f);
    if |order| > 0 {
      var n := |order| - 1;
      assert order[n] in order && Given(parse, data, order[n], f).None?;
      assert forall j :: 0 <= j < n ==> order[..n][j] == order[j];
      UngivenFieldIsAbsent(parse, data, order[..n], f);
    }
  }
}
