/** The agent's reading of a response (agent/internal/gateway/gateway.go): one JSON object of base64 strings
    (sections 4 and 7 of RFC 8259), and nothing after it. */
module SnapshotReader {
  import opened Text
  import Base64
  import opened Snapshot

  const MAX_EXPOSURE_BYTES: nat := 8388608

  predicate JsonSpace(c: char) {
    c == ' ' || c == '\t' || c == '\n' || c == '\r'
  }

  function SkipSpace(s: string): (r: string)
    ensures |r| <= |s|
  {
    if s != "" && JsonSpace(s[0]) then SkipSpace(s[1..]) else s
  }

  /** A parsed part and the text after it. */
  datatype Parsed<T> = Bad | Good(value: T, rest: string)

  /** The characters of a string up to its closing quote. Escapes are not read: see README. */
  function Quoted(s: string): (r: Parsed<string>)
    ensures r.Good? ==> |r.rest| < |s|
  {
    if s == "" then Bad
    else if s[0] == '"' then Good("", s[1..])
    else if !Base64.Plain(s[0]) then Bad
    else
      match Quoted(s[1..])
      case Bad => Bad
      case Good(t, rest) => Good([s[0]] + t, rest)
  }

  predicate Starts(s: string, c: char) {
    s != "" && s[0] == c
  }

  /** A value: a base64 string, or null, which leaves an empty value. */
  function Value(s: string): (r: Parsed<Bytes>)
    ensures r.Good? ==> |r.rest| < |s|
  {
    if Starts(s, '"') then
      match Quoted(s[1..])
      case Bad => Bad
      case Good(t, rest) =>
        var v := Base64.Decode(t);
        if v.None? then Bad else Good(v.value, rest)
    else if |s| >= 4 && s[..4] == "null" then Good([], s[4..])
    else Bad
  }

  /** One member, from its key's opening quote. */
  function OneMember(s: string): (r: Parsed<(string, Bytes)>)
    ensures r.Good? ==> |r.rest| < |s|
  {
    if !Starts(s, '"') then Bad
    else
      match Quoted(s[1..])
      case Bad => Bad
      case Good(k, afterKey) =>
        var colon := SkipSpace(afterKey);
        if !Starts(colon, ':') then Bad
        else
          match Value(SkipSpace(colon[1..]))
          case Bad => Bad
          case Good(v, rest) => Good((k, v), rest)
  }

  /** The members of an object up to its closing brace; a repeated key keeps its last value. */
  function ObjectTail(s: string, acc: Data): Parsed<Data>
    decreases |s|
  {
    match OneMember(SkipSpace(s))
    case Bad => Bad
    case Good(kv, rest) =>
      var next := SkipSpace(rest);
      var acc' := acc[kv.0 := kv.1];
      if Starts(next, '}') then Good(acc', next[1..])
      else if Starts(next, ',') then ObjectTail(next[1..], acc')
      else Bad
  }

  function Object(s: string): Parsed<Data> {
    var start := SkipSpace(s);
    if Starts(start, '{') then AfterBrace(start[1..]) else Bad
  }

  function AfterBrace(s: string): Parsed<Data> {
    var next := SkipSpace(s);
    if Starts(next, '}') then Good(map[], next[1..]) else ObjectTail(s, map[])
  }

  datatype Response = Response(status: nat, etag: string, body: string)
  datatype Fetched = NotModified | Failed | Result(values: Data, etag: string)

  /** Client.Fetch as a decision over the response. */
  function Fetch(resp: Response): Fetched {
    if resp.status == 304 then NotModified
    else if resp.status != 200 then Failed
    else if resp.etag == "" then Failed
    else
      var limited := if |resp.body| <= MAX_EXPOSURE_BYTES then resp.body else resp.body[..MAX_EXPOSURE_BYTES];
      match Object(limited)
      case Bad => Failed
      case Good(values, rest) => if SkipSpace(rest) == "" then Result(values, resp.etag) else Failed
  }

  // ---- Round trip ----

  predicate PlainText(s: string) {
    forall i :: 0 <= i < |s| ==> Base64.Plain(s[i])
  }

  /** Keys of [-._a-zA-Z0-9], as exposure.ValidateKey admits them. */
  predicate KeyChar(c: char) {
    c == '-' || c == '.' || c == '_' || 'a' <= c <= 'z' || 'A' <= c <= 'Z' || '0' <= c <= '9'
  }

  predicate KeyLike(k: string) {
    k != "" && forall i :: 0 <= i < |k| ==> KeyChar(k[i])
  }

  lemma {:induction false} QuotedRoundTrip(t: string, rest: string)
    requires PlainText(t)
    ensures Quoted(t + "\"" + rest) == Good(t, rest)
  {
    var s := t + "\"" + rest;
    if t == "" {
      assert s[1..] == rest;
    } else {
      assert s[1..] == t[1..] + "\"" + rest;
      QuotedRoundTrip(t[1..], rest);
      assert [t[0]] + t[1..] == t;
    }
  }

  lemma MemberRoundTrip(k: string, v: Bytes, rest: string)
    requires KeyLike(k)
    ensures OneMember(Member(k, v) + rest) == Good((k, v), rest)
  {
    var e := Base64.Encode(v);
    Base64.EncodeIsPlain(v);
    Base64.RoundTrip(v);
    EncodedMember(k, e, v, rest);
  }

  lemma EncodedMember(k: string, e: string, v: Bytes, rest: string)
    requires KeyLike(k) && PlainText(e) && Base64.Decode(e) == Some(v)
    ensures OneMember("\"" + k + "\":\"" + e + "\"" + rest) == Good((k, v), rest)
  {
    var s := "\"" + k + "\":\"" + e + "\"" + rest;
    var value := "\"" + (e + "\"" + rest);
    MemberText(k, e, rest, s, value);
    QuotedRoundTrip(k, ":" + value);
    QuotedRoundTrip(e, rest);
    KeyThenValue(s, k, ":" + value, value, v, rest);
  }

  lemma MemberText(k: string, e: string, rest: string, s: string, value: string)
    requires s == "\"" + k + "\":\"" + e + "\"" + rest && value == "\"" + (e + "\"" + rest)
    ensures Starts(s, '"') && s[1..] == k + "\"" + (":" + value)
    ensures Starts(value, '"') && value[1..] == e + "\"" + rest && (":" + value)[1..] == value
  {
  }

  lemma KeyThenValue(s: string, k: string, colon: string, value: string, v: Bytes, rest: string)
    requires Starts(s, '"') && Quoted(s[1..]) == Good(k, colon)
    requires Starts(colon, ':') && colon[1..] == value && Starts(value, '"') && Value(value) == Good(v, rest)
    ensures OneMember(s) == Good((k, v), rest)
  {
    assert SkipSpace(colon) == colon && SkipSpace(value) == value;
  }

  /** What the members of `keys` add to an accumulated object. */
  function Restricted(data: Data, keys: seq<string>): (r: Data)
    requires HasAll(data, keys)
    ensures r.Keys == set k | k in keys
    ensures forall k :: k in r ==> k in data && r[k] == data[k]
  {
    map k | k in keys :: data[k]
  }

  /** Reading on after one member. */
  lemma TailStep(s: string, kv: (string, Bytes), tail: string, acc: Data)
    requires Starts(s, '"') && OneMember(s) == Good(kv, tail) && (Starts(tail, '}') || Starts(tail, ','))
    ensures ObjectTail(s, acc) ==
      if tail[0] == '}' then Good(acc[kv.0 := kv.1], tail[1..]) else ObjectTail(tail[1..], acc[kv.0 := kv.1])
  {
    assert SkipSpace(s) == s && SkipSpace(tail) == tail;
  }

  lemma ReadMember(k: string, v: Bytes, tail: string, acc: Data)
    requires KeyLike(k) && (Starts(tail, '}') || Starts(tail, ','))
    ensures ObjectTail(Member(k, v) + tail, acc) ==
      if tail[0] == '}' then Good(acc[k := v], tail[1..]) else ObjectTail(tail[1..], acc[k := v])
  {
    MemberRoundTrip(k, v, tail);
    MemberStarts(k, v);
    TailStep(Member(k, v) + tail, (k, v), tail, acc);
  }

  /** Reading the first of the joined members. */
  lemma JoinStep(data: Data, keys: seq<string>, acc: Data, rest: string)
    requires HasAll(data, keys) && keys != [] && KeyLike(keys[0])
    ensures HasAll(data, keys[1..])
    ensures ObjectTail(Join(MemberList(data, keys)) + "}" + rest, acc) ==
      var acc' := acc[keys[0] := data[keys[0]]];
      if |keys| == 1 then Good(acc', rest) else ObjectTail(Join(MemberList(data, keys[1..])) + "}" + rest, acc')
  {
    var ms := MemberList(data, keys);
    var inner := if |keys| == 1 then "" else Join(ms[1..]);
    var tail := if |keys| == 1 then "}" + rest else "," + (inner + "}" + rest);
    SplitHead(ms, rest, tail);
    TailText(rest, inner);
    ReadMember(keys[0], data[keys[0]], tail, acc);
    assert ms[1..] == MemberList(data, keys[1..]);
  }

  lemma {:induction false} JoinRoundTrip(data: Data, keys: seq<string>, acc: Data, rest: string)
    requires HasAll(data, keys) && keys != [] && forall k :: k in keys ==> KeyLike(k)
    ensures ObjectTail(Join(MemberList(data, keys)) + "}" + rest, acc) == Good(acc + Restricted(data, keys), rest)
    decreases |keys|
  {
    JoinStep(data, keys, acc, rest);
    RestrictedCons(data, keys, acc);
    if |keys| > 1 {
      JoinRoundTrip(data, keys[1..], acc[keys[0] := data[keys[0]]], rest);
    }
  }

  lemma TailText(rest: string, inner: string)
    ensures ("}" + rest)[0] == '}' && ("}" + rest)[1..] == rest
    ensures ("," + (inner + "}" + rest))[0] == ',' && ("," + (inner + "}" + rest))[1..] == inner + "}" + rest
  {
  }

  lemma SplitHead(ms: seq<string>, rest: string, tail: string)
    requires ms != [] && tail == if |ms| == 1 then "}" + rest else "," + (Join(ms[1..]) + "}" + rest)
    ensures Join(ms) + "}" + rest == ms[0] + tail
  {
  }

  lemma RestrictedCons(data: Data, keys: seq<string>, acc: Data)
    requires HasAll(data, keys) && keys != []
    ensures acc + Restricted(data, keys) == acc[keys[0] := data[keys[0]]] + Restricted(data, keys[1..])
    ensures |keys| == 1 ==> acc + Restricted(data, keys) == acc[keys[0] := data[keys[0]]]
  {
    assert keys == [keys[0]] + keys[1..];
  }

  lemma MemberStarts(k: string, v: Bytes)
    ensures Member(k, v) != "" && Member(k, v)[0] == '"'
  {
  }

  lemma JoinStarts(data: Data, keys: seq<string>)
    requires HasAll(data, keys) && keys != []
    ensures var j := Join(MemberList(data, keys)); j != "" && j[0] == '"'
  {
    MemberStarts(keys[0], data[keys[0]]);
    assert MemberList(data, keys)[0] == Member(keys[0], data[keys[0]]);
  }

  lemma QuoteAfterBrace(s: string)
    requires Starts(s, '"')
    ensures AfterBrace(s) == ObjectTail(s, map[])
  {
    assert SkipSpace(s) == s;
  }

  lemma ObjectAt(b: string)
    requires Starts(b, '{')
    ensures Object(b) == AfterBrace(b[1..])
  {
    assert SkipSpace(b) == b;
  }

  lemma ObjectOf(b: string, t: string)
    requires Starts(b, '{') && b[1..] == t && Starts(t, '"')
    ensures Object(b) == ObjectTail(t, map[])
  {
    ObjectAt(b);
    QuoteAfterBrace(t);
  }

  /** Reading the canonical body gives exactly the configured part of the Secret. */
  lemma BodyRoundTrip(data: Data, keys: seq<string>)
    requires HasAll(data, keys) && forall k :: k in keys ==> KeyLike(k)
    ensures Object(Body(data, keys)) == Good(Restricted(data, keys), "")
  {
    SortIsSorting(keys);
    if keys == [] {
      EmptyObject();
      assert Restricted(data, keys) == map[];
    } else {
      SortedBody(data, keys, Sort(keys));
    }
  }

  lemma SortedBody(data: Data, keys: seq<string>, sorted: seq<string>)
    requires HasAll(data, keys) && HasAll(data, sorted) && sorted != []
    requires forall k :: k in keys <==> k in sorted
    requires forall k :: k in keys ==> KeyLike(k)
    ensures Object("{" + Join(MemberList(data, sorted)) + "}") == Good(Restricted(data, keys), "")
  {
    var inner := Join(MemberList(data, sorted));
    JoinStarts(data, sorted);
    ObjectOf("{" + inner + "}", inner + "}");
    assert inner + "}" + "" == inner + "}";
    JoinRoundTrip(data, sorted, map[], "");
    assert map[] + Restricted(data, sorted) == Restricted(data, keys);
  }

  lemma EmptyObject()
    ensures Object("{}") == Good(map[], "")
  {
    assert "{}"[1..] == "}" && "}"[1..] == "";
  }

  /** So the body is injective in what it shows. */
  lemma BodyIsInjective(data: Data, data': Data, keys: seq<string>, keys': seq<string>)
    requires HasAll(data, keys) && HasAll(data', keys')
    requires (forall k :: k in keys ==> KeyLike(k)) && (forall k :: k in keys' ==> KeyLike(k))
    requires Body(data, keys) == Body(data', keys')
    ensures Restricted(data, keys) == Restricted(data', keys')
  {
    BodyRoundTrip(data, keys);
    BodyRoundTrip(data', keys');
  }

  // ---- Text after a value does not change how the value reads ----

  lemma {:induction false} QuotedExtends(s: string, more: string)
    requires Quoted(s).Good?
    ensures Quoted(s + more) == Good(Quoted(s).value, Quoted(s).rest + more)
  {
    assert (s + more)[1..] == s[1..] + more;
    if s[0] != '"' {
      QuotedExtends(s[1..], more);
    }
  }

  lemma {:induction false} SkipExtends(s: string, more: string)
    requires SkipSpace(s) != ""
    ensures SkipSpace(s + more) == SkipSpace(s) + more
  {
    if JsonSpace(s[0]) {
      assert (s + more)[1..] == s[1..] + more;
      SkipExtends(s[1..], more);
    }
  }

  lemma ValueExtends(s: string, more: string)
    requires Value(s).Good?
    ensures Value(s + more) == Good(Value(s).value, Value(s).rest + more)
  {
    if Starts(s, '"') {
      assert (s + more)[1..] == s[1..] + more;
      QuotedExtends(s[1..], more);
    } else {
      assert (s + more)[..4] == s[..4] && (s + more)[4..] == s[4..] + more;
    }
  }

  lemma MemberExtends(s: string, more: string)
    requires OneMember(s).Good?
    ensures OneMember(s + more) == Good(OneMember(s).value, OneMember(s).rest + more)
  {
    assert (s + more)[1..] == s[1..] + more;
    QuotedExtends(s[1..], more);
    var afterKey := Quoted(s[1..]).rest;
    SkipExtends(afterKey, more);
    var colon := SkipSpace(afterKey);
    assert (colon + more)[1..] == colon[1..] + more;
    SkipExtends(colon[1..], more);
    ValueExtends(SkipSpace(colon[1..]), more);
  }

  lemma {:induction false} ObjectTailExtends(s: string, more: string, acc: Data)
    requires ObjectTail(s, acc).Good?
    ensures ObjectTail(s + more, acc) == Good(ObjectTail(s, acc).value, ObjectTail(s, acc).rest + more)
    decreases |s|
  {
    NextMemberExtends(s, more);
    var Good(kv, rest) := OneMember(SkipSpace(s));
    var next := SkipSpace(rest);
    assert Starts(next, '}') || Starts(next, ',');
    SkipExtends(rest, more);
    assert (next + more)[1..] == next[1..] + more;
    if !Starts(next, '}') {
      ObjectTailExtends(next[1..], more, acc[kv.0 := kv.1]);
    }
  }

  lemma NextMemberExtends(s: string, more: string)
    requires OneMember(SkipSpace(s)).Good?
    ensures OneMember(SkipSpace(s + more)) ==
      Good(OneMember(SkipSpace(s)).value, OneMember(SkipSpace(s)).rest + more)
  {
    SkipExtends(s, more);
    MemberExtends(SkipSpace(s), more);
  }

  lemma ObjectExtends(s: string, more: string)
    requires Object(s).Good?
    ensures Object(s + more) == Good(Object(s).value, Object(s).rest + more)
  {
    SkipExtends(s, more);
    var start := SkipSpace(s);
    assert (start + more)[1..] == start[1..] + more;
    AfterBraceExtends(start[1..], more);
  }

  lemma AfterBraceExtends(s: string, more: string)
    requires AfterBrace(s).Good?
    ensures AfterBrace(s + more) == Good(AfterBrace(s).value, AfterBrace(s).rest + more)
  {
    var next := SkipSpace(s);
    assert next != "";
    SkipExtends(s, more);
    if Starts(next, '}') {
      assert (next + more)[1..] == next[1..] + more;
    } else {
      ObjectTailExtends(s, more, map[]);
    }
  }

  /** No proper prefix of a canonical body reads as an object. */
  lemma TruncatedBodyIsBad(data: Data, keys: seq<string>, n: nat)
    requires HasAll(data, keys) && forall k :: k in keys ==> KeyLike(k)
    requires n < |Body(data, keys)|
    ensures Object(Body(data, keys)[..n]).Bad?
  {
    var b := Body(data, keys);
    if Object(b[..n]).Good? {
      assert b == b[..n] + b[n..];
      ObjectExtends(b[..n], b[n..]);
      BodyRoundTrip(data, keys);
    }
  }

  /** The agent accepts what the gateway serves if and only if it fits the agent's limit, and then it holds exactly
      the configured part of the Secret under the gateway's tag. */
  lemma FetchAcceptsIffItFits(data: Data, keys: seq<string>, etag: string)
    requires HasAll(data, keys) && etag != "" && forall k :: k in keys ==> KeyLike(k)
    ensures var r := Fetch(Response(200, etag, Body(data, keys)));
      if |Body(data, keys)| <= MAX_EXPOSURE_BYTES then r == Result(Restricted(data, keys), etag) else r == Failed
  {
    if |Body(data, keys)| <= MAX_EXPOSURE_BYTES {
      BodyRoundTrip(data, keys);
    } else {
      TruncatedBodyIsBad(data, keys, MAX_EXPOSURE_BYTES);
    }
  }

  predicate AllSpace(s: string) {
    forall i :: 0 <= i < |s| ==> s[i] in [' ', '\t', '\n', '\r']
  }

  lemma {:induction false} SkipAllIff(s: string)
    ensures SkipSpace(s) == "" <==> AllSpace(s)
  {
    if s != "" && JsonSpace(s[0]) {
      SkipAllIff(s[1..]);
      assert s == [s[0]] + s[1..];
    }
  }

  /** Exactly one object: of a response that fits, nothing but white space may follow the body. */
  lemma TrailingDataIff(data: Data, keys: seq<string>, etag: string, more: string)
    requires HasAll(data, keys) && etag != "" && forall k :: k in keys ==> KeyLike(k)
    requires |Body(data, keys) + more| <= 8 * 1024 * 1024
    ensures Fetch(Response(200, etag, Body(data, keys) + more)) ==
      if AllSpace(more) then Result(Restricted(data, keys), etag) else Failed
  {
    BodyRoundTrip(data, keys);
    ObjectExtends(Body(data, keys), more);
    SkipAllIff(more);
    assert "" + more == more;
  }

  /** No other status than 200 brings values, and none without a tag; 304 alone says that nothing has changed. */
  lemma FetchByStatus(resp: Response)
    ensures Fetch(resp).NotModified? <==> resp.status == 304
    ensures Fetch(resp).Result? ==> resp.status == 200 && resp.etag != "" && Fetch(resp).etag == resp.etag
    ensures resp.status == 200 && !Starts(SkipSpace(resp.body), '{') ==> Fetch(resp) == Failed
  {
    if resp.status == 200 && |resp.body| > MAX_EXPOSURE_BYTES {
      var head, tail := resp.body[..MAX_EXPOSURE_BYTES], resp.body[MAX_EXPOSURE_BYTES..];
      assert resp.body == head + tail;
      if SkipSpace(head) != "" {
        SkipExtends(head, tail);
      }
    }
  }
}
