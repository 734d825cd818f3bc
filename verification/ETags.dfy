/** Entity tags of the gateway and the If-None-Match comparison (gateway/internal/server/server.go). */
module ETags {
  import opened Text

  /** HMAC-SHA256 as a function of the key (the Secret's UID) and the message (the body). */
  type Mac = (string, string) -> Bytes

  /** The one fact assumed of HMAC: different inputs never share a digest. */
  ghost predicate Injective(mac: Mac) {
    forall u1, b1, u2, b2 :: mac(u1, b1) == mac(u2, b2) ==> u1 == u2 && b1 == b2
  }

  function HexDigit(n: nat): char
    requires n < 16
  {
    "0123456789abcdef"[n]
  }

  function Hex(b: Bytes): string {
    if b == [] then "" else [HexDigit(b[0] as int / 16), HexDigit(b[0] as int % 16)] + Hex(b[1..])
  }

  function ETag(mac: Mac, uid: string, body: string): string {
    "\"hmac-sha256:" + Hex(mac(uid, body)) + "\""
  }

  lemma HexDigitInjective(x: nat, y: nat)
    requires x < 16 && y < 16 && HexDigit(x) == HexDigit(y)
    ensures x == y
  {
    var digits := "0123456789abcdef";
    assert forall i, j :: 0 <= i < j < 16 ==> digits[i] < digits[j];
  }

  lemma HexPairInjective(x: nat, y: nat)
    requires x < 256 && y < 256
    requires HexDigit(x / 16) == HexDigit(y / 16) && HexDigit(x % 16) == HexDigit(y % 16)
    ensures x == y
  {
    HexDigitInjective(x / 16, y / 16);
    HexDigitInjective(x % 16, y % 16);
  }

  lemma {:induction false} HexInjective(a: Bytes, b: Bytes)
    requires Hex(a) == Hex(b)
    ensures a == b
  {
    if a == [] || b == [] {
    } else {
      assert Hex(a)[0] == Hex(b)[0] && Hex(a)[1] == Hex(b)[1];
      HexPairInjective(a[0] as int, b[0] as int);
      assert Hex(a)[2..] == Hex(a[1..]) && Hex(b)[2..] == Hex(b[1..]);
      HexInjective(a[1..], b[1..]);
      assert a == [a[0]] + a[1..] && b == [b[0]] + b[1..];
    }
  }

  lemma {:induction false} HexIsPlain(b: Bytes)
    ensures forall i :: 0 <= i < |Hex(b)| ==> Hex(b)[i] != ',' && Hex(b)[i] != '"' && !IsSpace(Hex(b)[i])
  {
    if b != [] {
      HexIsPlain(b[1..]);
    }
  }

  /** The shape every gateway tag has: quoted, and free of commas and white space. */
  predicate TagLike(t: string) {
    && |t| >= 2 && t[0] == '"' && t[|t| - 1] == '"'
    && forall i :: 0 <= i < |t| ==> t[i] != ',' && !IsSpace(t[i])
  }

  lemma ETagIsTagLike(mac: Mac, uid: string, body: string)
    ensures TagLike(ETag(mac, uid, body))
  {
    HexIsPlain(mac(uid, body));
  }

  /** "The tag changes exactly when the value changes", and with it when the UID does. */
  lemma ETagIdentifies(mac: Mac, u1: string, b1: string, u2: string, b2: string)
    requires Injective(mac)
    ensures ETag(mac, u1, b1) == ETag(mac, u2, b2) <==> u1 == u2 && b1 == b2
  {
    if ETag(mac, u1, b1) == ETag(mac, u2, b2) {
      var p := "\"hmac-sha256:";
      var h1, h2 := Hex(mac(u1, b1)), Hex(mac(u2, b2));
      assert |h1| == |h2|;
      assert ETag(mac, u1, b1)[|p|..|p| + |h1|] == h1;
      assert ETag(mac, u2, b2)[|p|..|p| + |h2|] == h2;
      HexInjective(mac(u1, b1), mac(u2, b2));
    }
  }

  /** One candidate of an If-None-Match list against a tag: `*`, or equal once a weakness mark is dropped. */
  predicate CandidateMatches(candidate: string, etag: string) {
    var c := TrimSpace(candidate);
    c == "*" || (if |c| >= 2 && c[..2] == "W/" then c[2..] else c) == etag
  }

  /** If-None-Match with weak comparison, over every candidate of every header line
      (sections 13.1.2 and 8.8.3.2 of RFC 9110). */
  predicate WeakMatch(values: seq<string>, etag: string) {
    exists i, j :: 0 <= i < |values| && 0 <= j < |SplitComma(values[i])| &&
      CandidateMatches(SplitComma(values[i])[j], etag)
  }

  method EtagMatches(values: seq<string>, etag: string) returns (r: bool)
    ensures r == WeakMatch(values, etag)
  {
    for i := 0 to |values|
      invariant forall k, j :: 0 <= k < i && 0 <= j < |SplitComma(values[k])| ==>
        !CandidateMatches(SplitComma(values[k])[j], etag)
    {
      var candidates := SplitComma(values[i]);
      for j := 0 to |candidates|
        invariant forall k :: 0 <= k < j ==> !CandidateMatches(candidates[k], etag)
      {
        var c := TrimSpace(candidates[j]);
        if c == "*" || (if |c| >= 2 && c[..2] == "W/" then c[2..] else c) == etag {
          assert CandidateMatches(SplitComma(values[i])[j], etag);
          return true;
        }
      }
    }
    return false;
  }

  /** A single stored gateway tag is matched by exactly one tag: itself. */
  lemma SingleTagMatch(stored: string, current: string)
    requires TagLike(stored) && TagLike(current)
    ensures WeakMatch([stored], current) <==> stored == current
  {
    SplitCommaWithoutComma(stored);
    TrimOfTrimmed(stored);
    assert SplitComma([stored][0]) == [stored];
    assert CandidateMatches(stored, current) <==> stored == current;
    if stored == current {
      assert CandidateMatches(SplitComma([stored][0])[0], current);
    }
  }

  /** A weak form of the current tag and `*` both match; so a stored tag that a proxy weakened still gets 304. */
  lemma WeakenedTagMatches(current: string)
    requires TagLike(current)
    ensures WeakMatch(["W/" + current], current) && WeakMatch(["*"], current)
  {
    var weak := "W/" + current;
    assert ',' !in weak;
    SplitCommaWithoutComma(weak);
    TrimOfTrimmed(weak);
    assert weak[2..] == current && weak[..2] == "W/";
    assert CandidateMatches(SplitComma([weak][0])[0], current);
    SplitCommaWithoutComma("*");
    TrimOfTrimmed("*");
    assert CandidateMatches(SplitComma(["*"][0])[0], current);
  }

  /** The gateway answers 304 to a stored tag of its own if and only if UID and body are unchanged. */
  lemma NotModifiedIffUnchanged(mac: Mac, u1: string, b1: string, u2: string, b2: string)
    requires Injective(mac)
    ensures WeakMatch([ETag(mac, u1, b1)], ETag(mac, u2, b2)) <==> u1 == u2 && b1 == b2
  {
    ETagIsTagLike(mac, u1, b1);
    ETagIsTagLike(mac, u2, b2);
    SingleTagMatch(ETag(mac, u1, b1), ETag(mac, u2, b2));
    ETagIdentifies(mac, u1, b1, u2, b2);
  }

  // ---- The digest in text, and lists of tags ----

  /** Byte `i` of the digest is characters 2i and 2i + 1 of its text: two lower-case hexadecimal digits, the high one
      first. */
  lemma {:induction false} HexIs(b: Bytes, i: nat)
    requires i < |b|
    ensures |Hex(b)| == 2 * |b|
    ensures Hex(b)[2 * i] == "0123456789abcdef"[b[i] as int / 16]
    ensures Hex(b)[2 * i + 1] == "0123456789abcdef"[b[i] as int % 16]
    decreases |b|
  {
    HexLength(b);
    if i > 0 {
      HexIs(b[1..], i - 1);
      assert Hex(b)[2 * i] == Hex(b[1..])[2 * (i - 1)] && Hex(b)[2 * i + 1] == Hex(b[1..])[2 * (i - 1) + 1];
    }
  }

  /** A tag is the digest's text between "hmac-sha256: and a closing quote, and nothing else. */
  lemma TagIs(mac: Mac, uid: string, body: string)
    ensures var tag, digest := ETag(mac, uid, body), mac(uid, body);
      && |tag| == 2 * |digest| + 14 && "\"hmac-sha256:" <= tag && tag[|tag| - 1] == '"'
      && forall i :: 0 <= i < |digest| ==>
           tag[13 + 2 * i] == "0123456789abcdef"[digest[i] as int / 16] &&
           tag[14 + 2 * i] == "0123456789abcdef"[digest[i] as int % 16]
  {
    var digest := mac(uid, body);
    HexLength(digest);
    forall i | 0 <= i < |digest|
      ensures Hex(digest)[2 * i] == "0123456789abcdef"[digest[i] as int / 16]
      ensures Hex(digest)[2 * i + 1] == "0123456789abcdef"[digest[i] as int % 16]
    {
      HexIs(digest, i);
    }
  }

  lemma {:induction false} HexLength(b: Bytes)
    ensures |Hex(b)| == 2 * |b|
  {
    if b != [] {
      HexLength(b[1..]);
    }
  }

  /** A tag, written as it is or marked weak, with white space around it. */
  ghost predicate Writes(entry: string, tag: string) {
    exists left, core, right ::
      Blank(left) && Blank(right) && entry == left + core + right && (core == tag || core == "W/" + tag)
  }

  /** A list of gateway tags over any number of header lines and entries, each plain or weak and spaced in any way, is
      matched by exactly the tags in it. */
  lemma ListMatchesIff(lines: seq<seq<string>>, tags: seq<seq<string>>, current: string)
    requires TagLike(current) && |lines| == |tags|
    requires forall i :: 0 <= i < |lines| ==> lines[i] != [] && |lines[i]| == |tags[i]|
    requires forall i, j :: 0 <= i < |lines| && 0 <= j < |lines[i]| ==>
      TagLike(tags[i][j]) && Writes(lines[i][j], tags[i][j])
    ensures WeakMatch(seq(|lines|, i requires 0 <= i < |lines| => JoinComma(lines[i])), current) <==>
      exists i, j :: 0 <= i < |tags| && 0 <= j < |tags[i]| && tags[i][j] == current
  {
    var values := seq(|lines|, i requires 0 <= i < |lines| => JoinComma(lines[i]));
    forall i | 0 <= i < |lines| ensures SplitComma(values[i]) == lines[i] {
      forall j | 0 <= j < |lines[i]| ensures ',' !in lines[i][j] {
        WrittenEntry(lines[i][j], tags[i][j], current);
      }
      SplitOfJoin(lines[i]);
    }
    forall i, j | 0 <= i < |lines| && 0 <= j < |lines[i]|
      ensures CandidateMatches(lines[i][j], current) <==> tags[i][j] == current
    {
      WrittenEntry(lines[i][j], tags[i][j], current);
    }
    if i, j :| 0 <= i < |tags| && 0 <= j < |tags[i]| && tags[i][j] == current {
      assert CandidateMatches(SplitComma(values[i])[j], current);
    }
  }

  lemma WrittenEntry(entry: string, tag: string, current: string)
    requires TagLike(tag) && TagLike(current) && Writes(entry, tag)
    ensures ',' !in entry && (CandidateMatches(entry, current) <==> tag == current)
  {
    var left, core, right :|
      Blank(left) && Blank(right) && entry == left + core + right && (core == tag || core == "W/" + tag);
    PaddedEntry(left, core, right, tag, current);
  }

  lemma PaddedEntry(left: string, core: string, right: string, tag: string, current: string)
    requires TagLike(tag) && TagLike(current) && Blank(left) && Blank(right) && (core == tag || core == "W/" + tag)
    ensures ',' !in left + core + right && (CandidateMatches(left + core + right, current) <==> tag == current)
  {
    NoComma(left, core, right);
    TrimOfPadded(left, core, right);
    if core != tag {
      assert core[2..] == tag && core[..2] == "W/";
    }
  }

  lemma NoComma(left: string, core: string, right: string)
    requires Blank(left) && Blank(right) && ',' !in core
    ensures ',' !in left + core + right
  {
  }
}
