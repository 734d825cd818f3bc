/** The canonical exposure body and its reader (gateway/internal/server/server.go,
    agent/internal/gateway/gateway.go). */
module Snapshot {
  import opened Text
  import Base64

  // ---- Key order ----

  /** Byte order of strings, as slices.Sort uses it. */
  predicate Le(a: string, b: string) {
    a == "" || (b != "" && (a[0] < b[0] || (a[0] == b[0] && Le(a[1..], b[1..]))))
  }

  lemma {:induction false} LeTotal(a: string, b: string)
    ensures Le(a, b) || Le(b, a)
  {
    if a != "" && b != "" && a[0] == b[0] {
      LeTotal(a[1..], b[1..]);
    }
  }

  lemma {:induction false} LeAntisymmetric(a: string, b: string)
    requires Le(a, b) && Le(b, a)
    ensures a == b
  {
    if a != "" {
      LeAntisymmetric(a[1..], b[1..]);
      assert a == [a[0]] + a[1..] && b == [b[0]] + b[1..];
    }
  }

  lemma {:induction false} LeTransitive(a: string, b: string, c: string)
    requires Le(a, b) && Le(b, c)
    ensures Le(a, c)
  {
    if a != "" && a[0] == b[0] == c[0] {
      LeTransitive(a[1..], b[1..], c[1..]);
    }
  }

  /** It is the order of the first characters that differ; a text comes after its beginnings. */
  lemma {:induction false} LeIs(a: string, b: string)
    ensures Le(a, b) <==> a <= b || exists i :: SmallerAt(a, b, i)
  {
    if a != "" && b != "" && a[0] == b[0] {
      LeIs(a[1..], b[1..]);
      assert a == [a[0]] + a[1..] && b == [b[0]] + b[1..];
      DifferenceMoves(a, b);
    } else if a != "" && b != "" {
      assert SmallerAt(a, b, 0) <==> a[0] < b[0];
      assert forall i :: SmallerAt(a, b, i) ==> i == 0;
    }
  }

  /** Texts `a` and `b` first differ at `i`, where `a` has the smaller character. */
  predicate SmallerAt(a: string, b: string, i: nat) {
    i < |a| && i < |b| && (forall j :: 0 <= j < i ==> a[j] == b[j]) && a[i] < b[i]
  }

  lemma DifferenceMoves(a: string, b: string)
    requires a != "" && b != "" && a[0] == b[0]
    ensures (exists i :: SmallerAt(a, b, i)) <==> exists i :: SmallerAt(a[1..], b[1..], i)
  {
    if i: nat :| SmallerAt(a, b, i) {
      assert SmallerAt(a[1..], b[1..], i - 1);
    }
    if i: nat :| SmallerAt(a[1..], b[1..], i) {
      forall j | 0 <= j < i + 1 ensures a[j] == b[j] {
        assert j > 0 ==> a[1..][j - 1] == b[1..][j - 1];
      }
      assert a[i + 1] == a[1..][i] && b[i + 1] == b[1..][i];
      assert SmallerAt(a, b, i + 1);
    }
  }

  ghost predicate Sorted(keys: seq<string>) {
    forall i, j :: 0 <= i < j < |keys| ==> Le(keys[i], keys[j])
  }

  function Insert(k: string, sorted: seq<string>): seq<string> {
    if sorted == [] || Le(k, sorted[0]) then [k] + sorted
    else [sorted[0]] + Insert(k, sorted[1..])
  }

  function Sort(keys: seq<string>): seq<string> {
    if keys == [] then [] else Insert(keys[0], Sort(keys[1..]))
  }

  lemma {:induction false} InsertPermutes(k: string, sorted: seq<string>)
    ensures multiset(Insert(k, sorted)) == multiset{k} + multiset(sorted)
  {
    if sorted != [] && !Le(k, sorted[0]) {
      InsertPermutes(k, sorted[1..]);
      assert sorted == [sorted[0]] + sorted[1..];
    }
  }

  lemma {:induction false} InsertSorts(k: string, sorted: seq<string>)
    requires Sorted(sorted)
    ensures Sorted(Insert(k, sorted))
  {
    if sorted == [] {
    } else if Le(k, sorted[0]) {
      forall j | 0 <= j < |sorted| ensures Le(k, sorted[j]) {
        if j > 0 { LeTransitive(k, sorted[0], sorted[j]); }
      }
    } else {
      InsertSorts(k, sorted[1..]);
      InsertPermutes(k, sorted[1..]);
      var rest := Insert(k, sorted[1..]);
      forall j | 0 <= j < |rest| ensures Le(sorted[0], rest[j]) {
        assert rest[j] in multiset(rest);
        if rest[j] == k {
          LeTotal(k, sorted[0]);
        } else {
          assert rest[j] in sorted[1..];
          var m :| 0 <= m < |sorted[1..]| && sorted[1..][m] == rest[j];
          assert Le(sorted[0], sorted[m + 1]);
        }
      }
    }
  }

  lemma {:induction false} SortIsSorting(keys: seq<string>)
    ensures Sorted(Sort(keys)) && multiset(Sort(keys)) == multiset(keys)
    ensures |Sort(keys)| == |keys| && forall k :: k in Sort(keys) <==> k in keys
  {
    if keys != [] {
      SortIsSorting(keys[1..]);
      InsertSorts(keys[0], Sort(keys[1..]));
      InsertPermutes(keys[0], Sort(keys[1..]));
      assert keys == [keys[0]] + keys[1..];
    }
    assert |multiset(Sort(keys))| == |Sort(keys)| && |multiset(keys)| == |keys|;
    forall k ensures k in Sort(keys) <==> k in keys {
      assert k in multiset(Sort(keys)) <==> k in multiset(keys);
    }
  }

  lemma SameHead(a: seq<string>, b: seq<string>)
    requires Sorted(a) && Sorted(b) && multiset(a) == multiset(b) && a != [] && b != []
    ensures a[0] == b[0]
  {
    assert a[0] in multiset(b) && b[0] in multiset(a);
    var i :| 0 <= i < |b| && b[i] == a[0];
    var j :| 0 <= j < |a| && a[j] == b[0];
    if i > 0 && j > 0 {
      LeAntisymmetric(a[0], b[0]);
    }
  }

  /** A sorted list is determined by its elements. */
  lemma {:induction false} SortedUnique(a: seq<string>, b: seq<string>)
    requires Sorted(a) && Sorted(b) && multiset(a) == multiset(b)
    ensures a == b
    decreases |a|
  {
    assert |multiset(a)| == |a| && |multiset(b)| == |b|;
    if a != [] {
      SameHead(a, b);
      assert a == [a[0]] + a[1..] && b == [b[0]] + b[1..];
      assert multiset(a[1..]) == multiset(a) - multiset{a[0]};
      assert multiset(b[1..]) == multiset(b) - multiset{b[0]};
      SortedUnique(a[1..], b[1..]);
    }
  }

  lemma SortIgnoresOrder(a: seq<string>, b: seq<string>)
    requires multiset(a) == multiset(b)
    ensures Sort(a) == Sort(b)
  {
    SortIsSorting(a);
    SortIsSorting(b);
    SortedUnique(Sort(a), Sort(b));
  }

  // ---- The body ----

  type Data = map<string, Bytes>

  predicate HasAll(data: Data, keys: seq<string>) {
    forall k :: k in keys ==> k in data
  }

  function Member(k: string, v: Bytes): string {
    "\"" + k + "\":\"" + Base64.Encode(v) + "\""
  }

  function Join(members: seq<string>): string {
    if members == [] then ""
    else if |members| == 1 then members[0]
    else members[0] + "," + Join(members[1..])
  }

  function MemberList(data: Data, keys: seq<string>): seq<string>
    requires HasAll(data, keys)
  {
    seq(|keys|, i requires 0 <= i < |keys| => Member(keys[i], data[keys[i]]))
  }

  /** The canonical body: the configured keys in order, each with its value in base64. */
  function Body(data: Data, keys: seq<string>): string
    requires HasAll(data, keys)
  {
    SortIsSorting(keys);
    "{" + Join(MemberList(data, Sort(keys))) + "}"
  }

  /** The text of the `i`-th key, with what separates it from what is before it. */
  function Part(data: Data, keys: seq<string>, i: nat): string
    requires i < |keys| && keys[i] in data
  {
    (if i == 0 then "{" else ",") + "\"" + keys[i] + "\":\"" + Base64.Encode(data[keys[i]]) + "\""
  }

  /** The texts of the first `n` keys. */
  function Parts(data: Data, keys: seq<string>, n: nat): string
    requires HasAll(data, keys) && n <= |keys|
  {
    if n == 0 then "" else Parts(data, keys, n - 1) + Part(data, keys, n - 1)
  }

  /** The body as text: an object of JSON (section 4 of RFC 8259) without spaces, its members in byte order of the keys,
      its values strings of base64. */
  lemma BodyIs(data: Data, keys: seq<string>, sorted: seq<string>)
    requires HasAll(data, keys) && multiset(sorted) == multiset(keys) && Sorted(sorted)
    ensures HasAll(data, sorted)
    ensures Body(data, keys) == if keys == [] then "{}" else Parts(data, sorted, |sorted|) + "}"
  {
    SortIsSorting(keys);
    SortedUnique(sorted, Sort(keys));
    assert |multiset(keys)| == |keys| && |multiset(sorted)| == |sorted|;
    if sorted != [] {
      PartsJoin(data, sorted, |sorted|);
      assert sorted[..|sorted|] == sorted;
    }
  }

  lemma {:induction false} PartsJoin(data: Data, keys: seq<string>, n: nat)
    requires HasAll(data, keys) && 0 < n <= |keys|
    ensures HasAll(data, keys[..n])
    ensures Parts(data, keys, n) == "{" + Join(MemberList(data, keys[..n]))
  {
    JoinedSoFar(data, keys, n - 1);
    if n > 1 {
      PartsJoin(data, keys, n - 1);
      PartAppends(Join(MemberList(data, keys[..n - 1])), data, keys, n - 1);
    } else {
      assert MemberList(data, keys[..0]) == [];
      PartAppends("", data, keys, 0);
    }
  }

  lemma PartAppends(joined: string, data: Data, keys: seq<string>, i: nat)
    requires i < |keys| && keys[i] in data && (i == 0 ==> joined == "")
    ensures (if i == 0 then "" else "{" + joined) + Part(data, keys, i) ==
      "{" + (joined + (if i > 0 then "," else "") + Member(keys[i], data[keys[i]]))
  {
    var k, e := keys[i], Base64.Encode(data[keys[i]]);
    Regroup(if i == 0 then "{" else ",", k, e);
  }

  /** The capacity exposureBody reserves. */
  function Size(data: Data, keys: seq<string>): nat
    requires HasAll(data, keys)
  {
    if keys == [] then 2
    else |keys[0]| + Base64.EncodedLen(|data[keys[0]]|) + 6 + Size(data, keys[1..])
  }

  lemma {:induction false} JoinSnoc(members: seq<string>, m: string)
    ensures Join(members + [m]) == Join(members) + (if members == [] then "" else ",") + m
  {
    if members == [] {
      assert members + [m] == [m];
    } else {
      assert (members + [m])[1..] == members[1..] + [m];
      JoinSnoc(members[1..], m);
      if |members| == 1 {
        assert members[1..] + [m] == [m];
      }
    }
  }

  lemma {:induction false} SizeSnoc(data: Data, keys: seq<string>, k: string)
    requires HasAll(data, keys) && k in data && HasAll(data, keys + [k])
    ensures Size(data, keys + [k]) == Size(data, keys) + |k| + Base64.EncodedLen(|data[k]|) + 6
  {
    if keys == [] {
      assert (keys + [k])[1..] == [];
    } else {
      assert (keys + [k])[1..] == keys[1..] + [k];
      SizeSnoc(data, keys[1..], k);
    }
  }

  lemma MemberLength(k: string, v: Bytes)
    ensures |Member(k, v)| == |k| + Base64.EncodedLen(|v|) + 5
  {
    Base64.EncodeLength(v);
  }

  /** The body fills the reserved capacity but for one byte, the comma the last member does without. */
  lemma {:induction false} BodyLength(data: Data, keys: seq<string>)
    requires HasAll(data, keys) && keys != []
    ensures |Join(MemberList(data, keys))| + 2 == Size(data, keys) - 1
  {
    MemberLength(keys[0], data[keys[0]]);
    var ms := MemberList(data, keys);
    if |keys| > 1 {
      assert ms[1..] == MemberList(data, keys[1..]);
      BodyLength(data, keys[1..]);
    } else {
      assert keys[1..] == [];
    }
  }

  /** The first configured key that the Secret does not have. */
  method FirstMissing(data: Data, keys: seq<string>) returns (r: Option<string>)
    ensures r.None? <==> HasAll(data, keys)
    ensures r.Some? ==>
      exists i :: 0 <= i < |keys| && keys[i] == r.value && r.value !in data && HasAll(data, keys[..i])
  {
    for i := 0 to |keys|
      invariant HasAll(data, keys[..i])
    {
      if keys[i] !in data {
        return Some(keys[i]);
      }
      assert keys[..i + 1] == keys[..i] + [keys[i]];
    }
    assert keys[..|keys|] == keys;
    return None;
  }

  method Capacity(data: Data, keys: seq<string>) returns (size: nat)
    requires HasAll(data, keys)
    ensures size == Size(data, keys)
  {
    size := 2;
    for i := 0 to |keys|
      invariant HasAll(data, keys[..i]) && size == Size(data, keys[..i])
    {
      assert keys[..i + 1] == keys[..i] + [keys[i]];
      SizeSnoc(data, keys[..i], keys[i]);
      size := size + |keys[i]| + Base64.EncodedLen(|data[keys[i]]|) + 6;
    }
    assert keys[..|keys|] == keys;
  }

  lemma JoinedSoFar(data: Data, keys: seq<string>, i: nat)
    requires HasAll(data, keys) && i < |keys|
    ensures HasAll(data, keys[..i]) && HasAll(data, keys[..i + 1])
    ensures Join(MemberList(data, keys[..i + 1])) ==
      Join(MemberList(data, keys[..i])) + (if i > 0 then "," else "") + Member(keys[i], data[keys[i]])
  {
    assert keys[..i + 1] == keys[..i] + [keys[i]];
    var before, m := MemberList(data, keys[..i]), Member(keys[i], data[keys[i]]);
    assert MemberList(data, keys[..i + 1]) == before + [m];
    JoinSnoc(before, m);
  }

  /** What is written for one key, in parts, appends one member. */
  lemma WrittenInParts(joined: string, comma: bool, k: string, v: Bytes)
    ensures var b := "{" + joined;
      (if comma then b + "," else b) + "\"" + k + "\":\"" + Base64.Encode(v) + "\"" ==
      "{" + (joined + (if comma then "," else "") + Member(k, v))
  {
    Regroup((if comma then "{" + joined + "," else "{" + joined), k, Base64.Encode(v));
    assert joined + "" == joined;
  }

  lemma Regroup(b: string, k: string, e: string)
    ensures b + "\"" + k + "\":\"" + e + "\"" == b + ("\"" + k + "\":\"" + e + "\"")
  {
  }

  method Print(data: Data, keys: seq<string>) returns (b: string)
    requires HasAll(data, keys)
    ensures b == "{" + Join(MemberList(data, keys)) + "}"
  {
    b := "{";
    for i := 0 to |keys|
      invariant HasAll(data, keys[..i]) && b == "{" + Join(MemberList(data, keys[..i]))
    {
      JoinedSoFar(data, keys, i);
      WrittenInParts(Join(MemberList(data, keys[..i])), i > 0, keys[i], data[keys[i]]);
      if i > 0 {
        b := b + ",";
      }
      b := b + "\"" + keys[i] + "\":\"" + Base64.Encode(data[keys[i]]) + "\"";
    }
    assert keys[..|keys|] == keys;
    b := b + "}";
  }

  /** exposureBody: the first configured key that is missing, or the canonical body and the capacity reserved for
      it. The missing key "" cannot be told from success: see Serving.GaugeAgreesIffNoEmptyKey. */
  method ExposureBody(data: Data, configured: seq<string>) returns (missing: string, body: string, size: nat)
    ensures HasAll(data, configured) ==> missing == "" && body == Body(data, configured)
    ensures HasAll(data, configured) && configured != [] ==> |body| == size - 1
    ensures !HasAll(data, configured) ==> body == "" && size == 0
    ensures !HasAll(data, configured) ==>
      exists i :: 0 <= i < |configured| && configured[i] == missing && missing !in data && HasAll(data, configured[..i])
  {
    var absent := FirstMissing(data, configured);
    if absent.Some? {
      return absent.value, "", 0;
    }
    var keys := Sort(configured);
    SortIsSorting(configured);
    size := Capacity(data, keys);
    body := Print(data, keys);
    missing := "";
    if keys != [] {
      BodyLength(data, keys);
    }
  }

  /** The body depends only on which keys are configured, not on their order, and only on their values. */
  lemma BodyIsCanonical(data: Data, data': Data, keys: seq<string>, keys': seq<string>)
    requires HasAll(data, keys) && HasAll(data', keys') && multiset(keys) == multiset(keys')
    requires forall k :: k in keys && k in keys' ==> data[k] == data'[k]
    ensures Body(data, keys) == Body(data', keys')
  {
    SortIgnoresOrder(keys, keys');
    SortIsSorting(keys);
    SortIsSorting(keys');
    assert MemberList(data, Sort(keys)) == MemberList(data', Sort(keys));
  }
}
