/**
  The bytes a revision is hashed from, and the merge of JSON payloads before it. Strings are
  byte strings here, as in Go, and maps are walked in any order.
 */
module Revision {
  import opened Options

  newtype Byte = x: int | 0 <= x < 256

  type Bytes = seq<Byte>

  type Payload = map<Bytes, Bytes>

  // ---------------------------------------------------------------- order

  /** The order of sort.Strings. */
  predicate Before(a: Bytes, b: Bytes) {
    if |b| == 0 then false
    else if |a| == 0 then true
    else a[0] < b[0] || (a[0] == b[0] && Before(a[1..], b[1..]))
  }

  lemma BeforeTotal(a: Bytes, b: Bytes)
    ensures a == b || Before(a, b) || Before(b, a)
    ensures !(Before(a, b) && Before(b, a)) && !Before(a, a)
  {
    if |a| > 0 && |b| > 0 {
      BeforeTotal(a[1..], b[1..]);
      assert a == [a[0]] + a[1..] && b == [b[0]] + b[1..];
    }
    if |a| > 0 {
      BeforeTotal(a[1..], a[1..]);
    }
  }

  lemma BeforeTransitive(a: Bytes, b: Bytes, c: Bytes)
    requires Before(a, b) && Before(b, c)
    ensures Before(a, c)
  {
    if |a| > 0 && a[0] == b[0] && b[0] == c[0] {
      BeforeTransitive(a[1..], b[1..], c[1..]);
    }
  }

  predicate Ascending(keys: seq<Bytes>) {
    forall i, j :: 0 <= i < j < |keys| ==> Before(keys[i], keys[j])
  }

  /** A way of walking the set: every element once. */
  ghost predicate Walks(order: seq<Bytes>, keys: set<Bytes>) {
    (forall k :: k in order <==> k in keys) && forall i, j :: 0 <= i < j < |order| ==> order[i] != order[j]
  }

  function Insert(k: Bytes, keys: seq<Bytes>): seq<Bytes> {
    if |keys| == 0 || Before(k, keys[0]) then [k] + keys else [keys[0]] + Insert(k, keys[1..])
  }

  lemma InsertSorts(k: Bytes, keys: seq<Bytes>)
    requires Ascending(keys) && k !in keys
    ensures Ascending(Insert(k, keys))
    ensures forall x :: x in Insert(k, keys) <==> x == k || x in keys
  {
    if |keys| > 0 {
      var rest := keys[1..];
      assert keys == [keys[0]] + rest;
      if Before(k, keys[0]) {
        forall j | 0 <= j < |keys| ensures Before(k, keys[j]) {
          if j > 0 {
            BeforeTransitive(k, keys[0], keys[j]);
          }
        }
      } else {
        BeforeTotal(k, keys[0]);
        InsertSorts(k, rest);
        var tail := Insert(k, rest);
        forall j | 0 <= j < |tail| ensures Before(keys[0], tail[j]) {
          assert tail[j] in tail;
          if tail[j] != k {
            var i :| 0 <= i < |rest| && rest[i] == tail[j];
            assert keys[i + 1] == tail[j];
          }
        }
      }
    }
  }

  /** Two ascending lists of the same elements are one list. */
  lemma {:induction false} AscendingIsUnique(xs: seq<Bytes>, ys: seq<Bytes>)
    requires Ascending(xs) && Ascending(ys)
    requires forall k :: k in xs <==> k in ys
    ensures xs == ys
    decreases |xs|
  {
    assert |ys| > 0 ==> ys[0] in ys;
    if |xs| > 0 {
      assert xs[0] in xs;
      var i :| 0 <= i < |ys| && ys[i] == xs[0];
      var j :| 0 <= j < |xs| && xs[j] == ys[0];
      BeforeTotal(xs[0], ys[0]);
      assert i == 0;
      TailsAgree(xs, ys);
      AscendingIsUnique(xs[1..], ys[1..]);
      assert xs == [xs[0]] + xs[1..] && ys == [ys[0]] + ys[1..];
    }
  }

  lemma TailsAgree(xs: seq<Bytes>, ys: seq<Bytes>)
    requires Ascending(xs) && Ascending(ys) && |xs| > 0 && |ys| > 0 && xs[0] == ys[0]
    requires forall k :: k in xs <==> k in ys
    ensures forall k :: k in xs[1..] <==> k in ys[1..]
  {
    TailOmitsHead(xs);
    TailOmitsHead(ys);
  }

  lemma TailOmitsHead(xs: seq<Bytes>)
    requires Ascending(xs) && |xs| > 0
    ensures forall k :: k in xs[1..] <==> k in xs && k != xs[0]
  {
    forall k | k in xs[1..] ensures k in xs && k != xs[0] {
      var i :| 0 <= i < |xs[1..]| && xs[1..][i] == k;
      assert Before(xs[0], xs[i + 1]);
      BeforeTotal(xs[0], xs[0]);
    }
    assert xs == [xs[0]] + xs[1..];
  }

  // ---------------------------------------------------------------- the stream

  /** The keys in ascending order. */
  ghost function SortedKeys(keys: set<Bytes>): (r: seq<Bytes>)
    ensures Ascending(r) && forall k :: k in r <==> k in keys
  {
    if keys == {} then []
    else
      var k :| k in keys;
      var rest := SortedKeys(keys - {k});
      InsertSorts(k, rest);
      Insert(k, rest)
  }

  function Concatenated(data: Payload, keys: seq<Bytes>): Bytes
    requires forall k :: k in keys ==> k in data
  {
    if |keys| == 0 then []
    else Concatenated(data, keys[..|keys| - 1]) + (keys[|keys| - 1] + data[keys[|keys| - 1]])
  }

  /** What is hashed: one value alone, or every key and value in key order, and then the version. */
  ghost function Stream(data: Payload, version: Bytes): Bytes {
    (if |data| == 1 then (var k :| k in data; data[k]) else Concatenated(data, SortedKeys(data.Keys))) + version
  }

  method SortStrings(keys: seq<Bytes>) returns (sorted: seq<Bytes>)
    requires forall i, j :: 0 <= i < j < |keys| ==> keys[i] != keys[j]
    ensures Ascending(sorted) && forall k :: k in sorted <==> k in keys
  {
    sorted := [];
    for i := 0 to |keys|
      invariant Ascending(sorted)
      invariant forall k :: k in sorted <==> k in keys[..i]
    {
      InsertSorts(keys[i], sorted);
      sorted := Insert(keys[i], sorted);
      assert keys[..i + 1] == keys[..i] + [keys[i]];
    }
    assert keys[..|keys|] == keys;
  }

  lemma WalkLonger(order: seq<Bytes>, keys: set<Bytes>, k: Bytes)
    requires Walks(order, keys) && k !in keys
    ensures Walks(order + [k], keys + {k})
  {
    assert forall i :: 0 <= i < |order| ==> order[i] in order;
  }

  /** The keys of a map as `range` yields them: in some order. */
  method WalkKeys(keys: set<Bytes>) returns (order: seq<Bytes>)
    ensures Walks(order, keys)
  {
    order := [];
    var rest := keys;
    while rest != {}
      invariant rest <= keys
      invariant Walks(order, keys - rest)
    {
      var k :| k in rest;
      WalkLonger(order, keys - rest, k);
      order := order + [k];
      rest := rest - {k};
      assert keys - rest == keys - (rest + {k}) + {k};
    }
    assert keys - rest == keys;
  }

  lemma OnlyKey(data: Payload, k: Bytes)
    requires |data| == 1 && k in data
    ensures forall j :: j in data ==> j == k
  {
    assert |data.Keys - {k}| == 0;
  }

  /** Whatever order the maps are walked in, the hashed bytes are those of the payload and version. */
  method HashInput(data: Payload, version: Bytes) returns (bytes: Bytes)
    ensures bytes == Stream(data, version)
  {
    bytes := [];
    if |data| == 1 {
      var order := WalkKeys(data.Keys);
      for i := 0 to |order|
        invariant bytes == if i == 0 then [] else data[order[0]]
      {
        assert order[i] in data && order[0] in data;
        OnlyKey(data, order[0]);
        bytes := bytes + data[order[i]];
      }
      assert |order| > 0 by {
        var k :| k in data;
        assert k in order;
      }
      assert order[0] in data;
      OnlyKey(data, order[0]);
    } else {
      var order := WalkKeys(data.Keys);
      var keys := SortStrings(order);
      for i := 0 to |keys|
        invariant forall k :: k in keys ==> k in data
        invariant bytes == Concatenated(data, keys[..i])
      {
        assert keys[i] in keys;
        bytes := bytes + keys[i];
        bytes := bytes + data[keys[i]];
        assert keys[..i + 1][..i] == keys[..i];
      }
      assert keys[..|keys|] == keys;
      AscendingIsUnique(keys, SortedKeys(data.Keys));
    }
    if version != [] {
      bytes := bytes + version;
    }
  }

  /** The stream does not determine the payload: moving the end of a key into its value changes nothing. */
  lemma StreamsCollide(a: Byte, b: Byte, c: Byte, last: Byte, version: Bytes)
    requires a < last
    ensures var one, other := map[[a, b] := [c], [last] := []], map[[a] := [b, c], [last] := []];
      one != other && Stream(one, version) == Stream(other, version)
  {
    var one: Payload, other: Payload := map[[a, b] := [c], [last] := []], map[[a] := [b, c], [last] := []];
    assert Before([a, b], [last]) && Before([a], [last]);
    hide Before, Concatenated, SortedKeys;
    TwoKeys(one, [a, b], [last]);
    TwoKeys(other, [a], [last]);
    assert [a, b] + [c] == [a] + [b, c];
    assert [a, b] in one && [a, b] !in other by {
      assert |[a, b]| == 2 && |[a]| == 1 && |[last]| == 1;
    }
  }

  lemma ConcatenatedNone(data: Payload)
    ensures Concatenated(data, []) == []
  {
  }

  lemma ConcatenatedNext(data: Payload, keys: seq<Bytes>, k: Bytes)
    requires k in data && forall j :: j in keys ==> j in data
    ensures Concatenated(data, keys + [k]) == Concatenated(data, keys) + (k + data[k])
  {
    assert (keys + [k])[..|keys|] == keys;
  }

  lemma TwoSorted(k1: Bytes, k2: Bytes)
    requires Before(k1, k2)
    ensures k1 != k2 && SortedKeys({k1, k2}) == [k1, k2]
  {
    hide Before, SortedKeys;
    BeforeTotal(k1, k2);
    AscendingIsUnique(SortedKeys({k1, k2}), [k1, k2]);
  }

  lemma TwoKeys(data: Payload, k1: Bytes, k2: Bytes)
    requires data.Keys == {k1, k2} && Before(k1, k2)
    ensures |data| != 1 && Concatenated(data, SortedKeys(data.Keys)) == (k1 + data[k1]) + (k2 + data[k2])
  {
    hide Before, Concatenated, SortedKeys;
    TwoSorted(k1, k2);
    if |data| == 1 {
      OnlyKey(data, k1);
    }
    ConcatenatedNext(data, [], k1);
    ConcatenatedNext(data, [k1], k2);
    ConcatenatedNone(data);
    assert [] + [k1] == [k1] && [k1] + [k2] == [k1, k2];
  }

  // ---------------------------------------------------------------- the merge of parsed values

  /** JSON parsing is a partial function: None when the bytes are no JSON object. */
  type Parser = Bytes -> Option<Payload>

  /** What one key of the source secret contributes. */
  function Contribution(parse: Parser, data: Payload, k: Bytes): Payload {
    if k !in data then map[]
    else
      match parse(data[k])
      case None => map[k := data[k]]
      case Some(fields) => fields
  }

  /** Contributions laid over one another in the given order. */
  function Merged(parse: Parser, data: Payload, order: seq<Bytes>): Payload {
    if |order| == 0 then map[]
    else Merged(parse, data, order[..|order| - 1]) + Contribution(parse, data, order[|order| - 1])
  }

  /** The fields of the given names. */
  function Part(parsed: Payload, keys: seq<Bytes>): Payload {
    map k | k in keys && k in parsed :: parsed[k]
  }

  lemma PartNext(before: Payload, parsed: Payload, keys: seq<Bytes>, j: nat)
    requires j < |keys| && keys[j] in parsed
    ensures (before + Part(parsed, keys[..j]))[keys[j] := parsed[keys[j]]] == before + Part(parsed, keys[..j + 1])
  {
    assert keys[..j + 1] == keys[..j] + [keys[j]];
  }

  lemma PartWhole(before: Payload, parsed: Payload, keys: seq<Bytes>)
    requires forall k :: k in keys <==> k in parsed
    ensures before + Part(parsed, keys[..|keys|]) == before + parsed && before + Part(parsed, keys[..0]) == before
  {
    assert keys[..|keys|] == keys;
  }

  /** Copies the parsed fields over what is there, in whatever order. */
  method Overlay(before: Payload, parsed: Payload) returns (merged: Payload)
    ensures merged == before + parsed
  {
    hide Part;
    merged := before;
    var fields := WalkKeys(parsed.Keys);
    PartWhole(before, parsed, fields);
    for j := 0 to |fields|
      invariant merged == before + Part(parsed, fields[..j])
    {
      assert fields[j] in fields;
      PartNext(before, parsed, fields, j);
      merged := merged[fields[j] := parsed[fields[j]]];
    }
  }

  lemma MergedStep(parse: Parser, data: Payload, keys: seq<Bytes>, i: nat)
    requires i < |keys| && forall k :: k in keys ==> k in data
    ensures keys[i] in data
    ensures var before, parsed := Merged(parse, data, keys[..i]), parse(data[keys[i]]);
      Merged(parse, data, keys[..i + 1]) == if parsed.None? then before[keys[i] := data[keys[i]]] else before + parsed.value
  {
    assert keys[i] in keys;
    assert keys[..i + 1][..i] == keys[..i];
  }

  lemma MergedNone(parse: Parser, data: Payload, keys: seq<Bytes>)
    ensures Merged(parse, data, keys[..0]) == map[]
  {
  }

  method FetchParsed(parse: Parser, data: Payload) returns (merged: Payload)
    ensures exists order :: Walks(order, data.Keys) && merged == Merged(parse, data, order)
  {
    hide Merged;
    merged := map[];
    var keys := WalkKeys(data.Keys);
    MergedNone(parse, data, keys);
    for i := 0 to |keys|
      invariant merged == Merged(parse, data, keys[..i])
    {
      MergedStep(parse, data, keys, i);
      var parsed := parse(data[keys[i]]);
      if parsed.None? {
        merged := merged[keys[i] := data[keys[i]]];
      } else {
        merged := Overlay(merged, parsed.value);
      }
    }
    assert keys[..|keys|] == keys;
  }

  predicate AgreeOn(parse: Parser, data: Payload, k1: Bytes, k2: Bytes)
    requires k1 in data && k2 in data
  {
    var c1, c2 := Contribution(parse, data, k1), Contribution(parse, data, k2);
    forall f :: f in c1 && f in c2 ==> c1[f] == c2[f]
  }

  /** Keys that contribute the same field contribute the same value for it. */
  predicate ContributionsAgree(parse: Parser, data: Payload) {
    forall k1, k2 :: k1 in data && k2 in data ==> AgreeOn(parse, data, k1, k2)
  }

  ghost predicate OrderDoesNotMatter(parse: Parser, data: Payload) {
    forall o1, o2 :: Walks(o1, data.Keys) && Walks(o2, data.Keys) ==> Merged(parse, data, o1) == Merged(parse, data, o2)
  }

  predicate Contributes(parse: Parser, data: Payload, k: Bytes, f: Bytes) {
    k in data && f in Contribution(parse, data, k)
  }

  lemma {:induction false} AgreeingMerge(parse: Parser, data: Payload, order: seq<Bytes>, f: Bytes)
    requires ContributionsAgree(parse, data) && forall k :: k in order ==> k in data
    ensures f in Merged(parse, data, order) <==> exists k :: k in order && Contributes(parse, data, k, f)
    ensures forall k :: k in order && Contributes(parse, data, k, f) ==>
      f in Merged(parse, data, order) && Merged(parse, data, order)[f] == Contribution(parse, data, k)[f]
    decreases |order|
  {
    if |order| > 0 {
      var n := |order| - 1;
      var last := order[n];
      AgreeingMerge(parse, data, order[..n], f);
      assert order == order[..n] + [last];
      assert last in data;
      forall k | k in order && Contributes(parse, data, k, f)
        ensures f in Merged(parse, data, order) && Merged(parse, data, order)[f] == Contribution(parse, data, k)[f]
      {
        assert AgreeOn(parse, data, k, last);
      }
      if f in Merged(parse, data, order) {
        if Contributes(parse, data, last, f) {
          assert last in order;
        } else {
          var k :| k in order[..n] && Contributes(parse, data, k, f);
          assert k in order;
        }
      }
    }
  }

  lemma AgreementIsEnough(parse: Parser, data: Payload, o1: seq<Bytes>, o2: seq<Bytes>)
    requires ContributionsAgree(parse, data) && Walks(o1, data.Keys) && Walks(o2, data.Keys)
    ensures Merged(parse, data, o1) == Merged(parse, data, o2)
  {
    var m1, m2 := Merged(parse, data, o1), Merged(parse, data, o2);
    forall f ensures (f in m1 <==> f in m2) && (f in m1 ==> m1[f] == m2[f]) {
      AgreeingMerge(parse, data, o1, f);
      AgreeingMerge(parse, data, o2, f);
      if f in m1 {
        var k :| k in o1 && Contributes(parse, data, k, f);
        assert k in o2;
      }
      if f in m2 {
        var k :| k in o2 && Contributes(parse, data, k, f);
        assert k in o1;
      }
    }
  }

  lemma WalkExists(keys: set<Bytes>) returns (order: seq<Bytes>)
    ensures Walks(order, keys)
  {
    order := SortedKeys(keys);
    forall i, j | 0 <= i < j < |order| ensures order[i] != order[j] {
      BeforeTotal(order[i], order[j]);
    }
  }

  lemma LastWins(parse: Parser, data: Payload, order: seq<Bytes>, last: Bytes, f: Bytes)
    requires Walks(order, data.Keys) && |order| > 0 && order[|order| - 1] == last
    requires last in data && f in Contribution(parse, data, last)
    ensures f in Merged(parse, data, order) && Merged(parse, data, order)[f] == Contribution(parse, data, last)[f]
  {
  }

  /** Two walks that end in either order of two keys. */
  lemma WalksEndingIn(keys: set<Bytes>, k1: Bytes, k2: Bytes) returns (o1: seq<Bytes>, o2: seq<Bytes>)
    requires k1 in keys && k2 in keys && k1 != k2
    ensures Walks(o1, keys) && |o1| > 0 && o1[|o1| - 1] == k1
    ensures Walks(o2, keys) && |o2| > 0 && o2[|o2| - 1] == k2
  {
    hide Walks;
    var init := WalkExists(keys - {k1, k2});
    WalkLonger(init, keys - {k1, k2}, k2);
    WalkLonger(init, keys - {k1, k2}, k1);
    o1, o2 := init + [k2] + [k1], init + [k1] + [k2];
    WalkLonger(init + [k2], keys - {k1, k2} + {k2}, k1);
    WalkLonger(init + [k1], keys - {k1, k2} + {k1}, k2);
    assert keys - {k1, k2} + {k2} + {k1} == keys && keys - {k1, k2} + {k1} + {k2} == keys;
  }

  lemma DisagreementShows(parse: Parser, data: Payload, k1: Bytes, k2: Bytes)
    requires k1 in data && k2 in data && !AgreeOn(parse, data, k1, k2)
    ensures !OrderDoesNotMatter(parse, data)
  {
    hide Merged, Contribution, Walks;
    var c1, c2 := Contribution(parse, data, k1), Contribution(parse, data, k2);
    var f :| f in c1 && f in c2 && c1[f] != c2[f];
    var o1, o2 := WalksEndingIn(data.Keys, k1, k2);
    LastWins(parse, data, o1, k1, f);
    LastWins(parse, data, o2, k2, f);
    assert Merged(parse, data, o1)[f] != Merged(parse, data, o2)[f];
  }

  /**
    The merged payload is the same for every iteration order exactly when no two keys of the
    source secret contribute different values for one field; disjoint contributions are a
    special case.
   */
  lemma MergeIsDeterministicIff(parse: Parser, data: Payload)
    ensures OrderDoesNotMatter(parse, data) <==> ContributionsAgree(parse, data)
  {
    if ContributionsAgree(parse, data) {
      forall o1, o2 | Walks(o1, data.Keys) && Walks(o2, data.Keys) ensures Merged(parse, data, o1) == Merged(parse, data, o2) {
        AgreementIsEnough(parse, data, o1, o2);
      }
    } else {
      var k1, k2 :| k1 in data && k2 in data && !AgreeOn(parse, data, k1, k2);
      DisagreementShows(parse, data, k1, k2);
    }
  }

  /** From the source secret to the hashed bytes, no iteration order shows through when the contributions agree. */
  method HashParsedSecret(parse: Parser, data: Payload, version: Bytes, ghost order: seq<Bytes>) returns (bytes: Bytes)
    requires Walks(order, data.Keys)
    ensures ContributionsAgree(parse, data) ==> bytes == Stream(Merged(parse, data, order), version)
  {
    var merged := FetchParsed(parse, data);
    bytes := HashInput(merged, version);
    if ContributionsAgree(parse, data) {
      ghost var walked :| Walks(walked, data.Keys) && merged == Merged(parse, data, walked);
      AgreementIsEnough(parse, data, walked, order);
    }
  }
}
