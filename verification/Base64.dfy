/** Base64 with padding (section 4 of RFC 4648), as encoding/base64.StdEncoding reads and writes it. */
module Base64 {
  import opened Text

  /** The alphabet A-Z a-z 0-9 + /. */
  function Digit(n: nat): char
    requires n < 64
  {
    if n < 26 then ('A' as int + n) as char
    else if n < 52 then ('a' as int + n - 26) as char
    else if n < 62 then ('0' as int + n - 52) as char
    else if n == 62 then '+'
    else '/'
  }

  /** The value of a digit; 64 for any other character. */
  function DigitValue(c: char): (n: nat)
    ensures n <= 64
  {
    if 'A' <= c <= 'Z' then c as int - 'A' as int
    else if 'a' <= c <= 'z' then c as int - 'a' as int + 26
    else if '0' <= c <= '9' then c as int - '0' as int + 52
    else if c == '+' then 62
    else if c == '/' then 63
    else 64
  }

  predicate Plain(c: char) {
    c != '"' && c != '\\' && c >= ' '
  }

  lemma DigitRoundTrip(n: nat)
    requires n < 64
    ensures DigitValue(Digit(n)) == n && Digit(n) != '=' && Plain(Digit(n))
  {
  }

  // The four digits of three bytes.
  function D0(x: nat): nat { x / 4 }
  function D1(x: nat, y: nat): nat { x % 4 * 16 + y / 16 }
  function D2(y: nat, z: nat): nat { y % 16 * 4 + z / 64 }
  function D3(z: nat): nat { z % 64 }

  // The three bytes of four digits.
  function B0(p: nat, q: nat): nat { p * 4 + q / 16 }
  function B1(q: nat, r: nat): nat { q % 16 * 16 + r / 4 }
  function B2(r: nat, t: nat): nat { r % 4 * 64 + t }

  lemma GroupRoundTrip(x: nat, y: nat, z: nat)
    requires x < 256 && y < 256 && z < 256
    ensures D0(x) < 64 && D1(x, y) < 64 && D2(y, z) < 64 && D3(z) < 64
    ensures B0(D0(x), D1(x, y)) == x && B1(D1(x, y), D2(y, z)) == y && B2(D2(y, z), D3(z)) == z
  {
  }

  function EncodeGroup(x: byte, y: byte, z: byte): (r: string)
    ensures |r| == 4
  {
    GroupRoundTrip(x as int, y as int, z as int);
    [Digit(D0(x as int)), Digit(D1(x as int, y as int)), Digit(D2(y as int, z as int)), Digit(D3(z as int))]
  }

  function Encode(b: Bytes): string {
    if |b| == 0 then ""
    else if |b| == 1 then EncodeGroup(b[0], '\0', '\0')[..2] + "=="
    else if |b| == 2 then EncodeGroup(b[0], b[1], '\0')[..3] + "="
    else EncodeGroup(b[0], b[1], b[2]) + Encode(b[3..])
  }

  function EncodedLen(n: nat): nat {
    (n + 2) / 3 * 4
  }

  /** The bytes of one group of four characters: three, or fewer if it ends in padding. Like the Go reader it
      ignores the unused low bits of the last digit. */
  function DecodeGroup(a: char, b: char, c: char, d: char): Option<Bytes> {
    var p, q, r, t := DigitValue(a), DigitValue(b), DigitValue(c), DigitValue(d);
    if p == 64 || q == 64 then None
    else if c == '=' then
      if d == '=' then Some([B0(p, q) as char]) else None
    else if r == 64 then None
    else if d == '=' then Some([B0(p, q) as char, B1(q, r) as char])
    else if t == 64 then None
    else Some([B0(p, q) as char, B1(q, r) as char, B2(r, t) as char])
  }

  /** Padding may only stand at the very end. */
  function Decode(s: string): Option<Bytes>
    decreases |s|
  {
    if s == "" then Some([])
    else if |s| < 4 then None
    else
      var group, rest := DecodeGroup(s[0], s[1], s[2], s[3]), Decode(s[4..]);
      if group.None? || rest.None? || (|group.value| < 3 && |s| > 4) then None
      else Some(group.value + rest.value)
  }

  lemma EncodeGroupRoundTrip(x: byte, y: byte, z: byte)
    ensures var g := EncodeGroup(x, y, z);
      && DecodeGroup(g[0], g[1], g[2], g[3]) == Some([x, y, z])
      && (z == '\0' ==> DecodeGroup(g[0], g[1], g[2], '=') == Some([x, y]))
      && (y == '\0' && z == '\0' ==> DecodeGroup(g[0], g[1], '=', '=') == Some([x]))
      && forall i :: 0 <= i < 4 ==> Plain(g[i])
  {
    var a, b, c := x as int, y as int, z as int;
    GroupRoundTrip(a, b, c);
    DigitRoundTrip(D0(a));
    DigitRoundTrip(D1(a, b));
    DigitRoundTrip(D2(b, c));
    DigitRoundTrip(D3(c));
  }

  lemma DecodeLastGroup(s: string, g: Bytes)
    requires |s| == 4 && DecodeGroup(s[0], s[1], s[2], s[3]) == Some(g)
    ensures Decode(s) == Some(g)
  {
    assert s[4..] == "";
    assert Decode("") == Some([]);
    assert g + [] == g;
  }

  lemma OneByte(x: byte)
    ensures Decode(Encode([x])) == Some([x])
  {
    EncodeGroupRoundTrip(x, '\0', '\0');
    var g := EncodeGroup(x, '\0', '\0');
    assert Encode([x]) == [g[0], g[1], '=', '='];
    DecodeLastGroup([g[0], g[1], '=', '='], [x]);
  }

  lemma TwoBytes(x: byte, y: byte)
    ensures Decode(Encode([x, y])) == Some([x, y])
  {
    EncodeGroupRoundTrip(x, y, '\0');
    var g := EncodeGroup(x, y, '\0');
    assert Encode([x, y]) == [g[0], g[1], g[2], '='];
    DecodeLastGroup([g[0], g[1], g[2], '='], [x, y]);
  }

  lemma {:induction false} RoundTrip(b: Bytes)
    ensures Decode(Encode(b)) == Some(b)
  {
    if |b| == 1 {
      assert b == [b[0]];
      OneByte(b[0]);
    } else if |b| == 2 {
      assert b == [b[0], b[1]];
      TwoBytes(b[0], b[1]);
    } else if |b| > 2 {
      EncodeGroupRoundTrip(b[0], b[1], b[2]);
      RoundTrip(b[3..]);
      var s := Encode(b);
      assert s[4..] == Encode(b[3..]);
      assert b == [b[0], b[1], b[2]] + b[3..];
      assert DecodeGroup(s[0], s[1], s[2], s[3]) == Some([b[0], b[1], b[2]]);
    }
  }

  lemma {:induction false} EncodeLength(b: Bytes)
    ensures |Encode(b)| == EncodedLen(|b|)
  {
    if |b| > 2 {
      EncodeLength(b[3..]);
      assert EncodedLen(|b|) == 4 + EncodedLen(|b| - 3);
    }
  }

  /** Encoded text needs no escaping inside a JSON string. */
  lemma {:induction false} EncodeIsPlain(b: Bytes)
    ensures forall i :: 0 <= i < |Encode(b)| ==> Plain(Encode(b)[i])
  {
    if |b| == 1 {
      EncodeGroupRoundTrip(b[0], '\0', '\0');
    } else if |b| == 2 {
      EncodeGroupRoundTrip(b[0], b[1], '\0');
    } else if |b| > 2 {
      EncodeGroupRoundTrip(b[0], b[1], b[2]);
      EncodeIsPlain(b[3..]);
    }
  }

  // ---- The encoding as the standard states it ----

  const UPPER := "ABCDEFGHIJKLMNOPQRSTUVWXYZ"
  const LOWER := "abcdefghijklmnopqrstuvwxyz"
  const DIGITS := "0123456789"
  const ALPHABET: string := UPPER + LOWER + DIGITS + "+/"

  lemma UpperIs(n: nat)
    requires n < 26
    ensures |UPPER| == 26 && UPPER[n] as int == 'A' as int + n
  {
  }

  lemma LowerIs(n: nat)
    requires n < 26
    ensures |LOWER| == 26 && LOWER[n] as int == 'a' as int + n
  {
  }

  lemma DigitsAre(n: nat)
    requires n < 10
    ensures |DIGITS| == 10 && DIGITS[n] as int == '0' as int + n
  {
  }

  lemma AlphabetIs(n: nat)
    requires n < 64
    ensures |ALPHABET| == 64 && Digit(n) == ALPHABET[n]
  {
    UpperIs(0);
    LowerIs(0);
    DigitsAre(0);
    if n < 26 {
      UpperIs(n);
    } else if n < 52 {
      LowerIs(n - 26);
    } else if n < 62 {
      DigitsAre(n - 52);
    }
  }

  /** Byte `k` of the input, or zero bits past its end. */
  function ByteAt(b: Bytes, k: nat): (n: nat)
    ensures n < 256
  {
    if k < |b| then b[k] as int else 0
  }

  /** The 24 bits of group `g`. */
  function GroupBits(b: Bytes, g: nat): nat {
    ByteAt(b, 3 * g) * 65536 + ByteAt(b, 3 * g + 1) * 256 + ByteAt(b, 3 * g + 2)
  }

  /** The six bits at place `i` of a group, counted from the left. */
  function SixBits(v: nat, i: nat): (n: nat)
    requires i < 4
    ensures n < 64
  {
    if i == 0 then v / 262144 % 64 else if i == 1 then v / 4096 % 64 else if i == 2 then v / 64 % 64 else v % 64
  }

  lemma Over64(n: nat, r: nat)
    requires r < 64
    ensures (n * 64 + r) / 64 == n && (n * 64 + r) % 64 == r
  {
  }

  lemma Over4096(n: nat, r: nat)
    requires r < 4096
    ensures (n * 4096 + r) / 4096 == n
  {
  }

  lemma Over262144(n: nat, r: nat)
    requires r < 262144
    ensures (n * 262144 + r) / 262144 == n
  {
  }

  lemma FirstSix(a: nat, b: nat, c: nat)
    requires a < 256 && b < 256 && c < 256
    ensures SixBits(a * 65536 + b * 256 + c, 0) == D0(a) < 64
  {
    var q, r := a / 4, a % 4;
    Over262144(q, r * 65536 + b * 256 + c);
    assert a * 65536 + b * 256 + c == q * 262144 + (r * 65536 + b * 256 + c);
  }

  lemma SecondSix(a: nat, b: nat, c: nat)
    requires a < 256 && b < 256 && c < 256
    ensures SixBits(a * 65536 + b * 256 + c, 1) == D1(a, b) < 64
  {
    var n, r := a * 16 + b / 16, b % 16 * 256 + c;
    Over4096(n, r);
    assert a * 65536 + b * 256 + c == n * 4096 + r;
    Over64(a / 4, a % 4 * 16 + b / 16);
    assert n == a / 4 * 64 + (a % 4 * 16 + b / 16);
  }

  lemma ThirdSix(a: nat, b: nat, c: nat)
    requires a < 256 && b < 256 && c < 256
    ensures SixBits(a * 65536 + b * 256 + c, 2) == D2(b, c) < 64
  {
    var n := a * 1024 + b * 4 + c / 64;
    Over64(n, c % 64);
    assert a * 65536 + b * 256 + c == n * 64 + c % 64;
    Over64(a * 16 + b / 16, b % 16 * 4 + c / 64);
    assert n == (a * 16 + b / 16) * 64 + (b % 16 * 4 + c / 64);
  }

  lemma FourthSix(a: nat, b: nat, c: nat)
    requires a < 256 && b < 256 && c < 256
    ensures SixBits(a * 65536 + b * 256 + c, 3) == D3(c) < 64
  {
    var n := a * 1024 + b * 4 + c / 64;
    Over64(n, c % 64);
    assert a * 65536 + b * 256 + c == n * 64 + c % 64;
  }

  lemma GroupDigits(x: byte, y: byte, z: byte, i: nat)
    requires i < 4
    ensures EncodeGroup(x, y, z)[i] == Digit(SixBits(x as int * 65536 + y as int * 256 + z as int, i))
  {
    var a, b, c := x as int, y as int, z as int;
    if i == 0 {
      FirstSix(a, b, c);
    } else if i == 1 {
      SecondSix(a, b, c);
    } else if i == 2 {
      ThirdSix(a, b, c);
    } else {
      FourthSix(a, b, c);
    }
  }

  /** Group `g` has no byte for its character `i`. */
  predicate Padded(b: Bytes, g: nat, i: nat) {
    i > 1 && 3 * g + i > |b|
  }

  /** The bytes of the first group, zero where there are none. */
  function First(b: Bytes): string {
    EncodeGroup(ByteAt(b, 0) as char, ByteAt(b, 1) as char, ByteAt(b, 2) as char)
  }

  /** Character `i` of group `g`, as the standard has it. */
  function Standard(b: Bytes, g: nat, i: nat): char
    requires i < 4
  {
    if Padded(b, g, i) then '=' else Digit(SixBits(GroupBits(b, g), i))
  }

  lemma {:induction false} EncodeDigits(b: Bytes, g: nat, i: nat)
    requires i < 4 && 4 * g + i < |Encode(b)|
    ensures Encode(b)[4 * g + i] == Standard(b, g, i)
    decreases |b|
  {
    if g == 0 {
      FirstStandard(b, i);
    } else {
      LaterGroup(b, 4 * g + i);
      EncodeDigits(b[3..], g - 1, i);
      StandardShifts(b, g, i);
    }
  }

  lemma FirstStandard(b: Bytes, i: nat)
    requires i < |Encode(b)| && i < 4
    ensures Encode(b)[i] == Standard(b, 0, i)
  {
    FirstGroup(b, i);
    GroupDigits(ByteAt(b, 0) as char, ByteAt(b, 1) as char, ByteAt(b, 2) as char, i);
  }

  lemma FirstGroup(b: Bytes, i: nat)
    requires i < |Encode(b)| && i < 4
    ensures Encode(b)[i] == if Padded(b, 0, i) then '=' else First(b)[i]
  {
    var f := First(b);
    if |b| == 1 {
      assert Encode(b) == f[..2] + "==";
    } else if |b| == 2 {
      assert Encode(b) == f[..3] + "=";
    } else {
      assert Encode(b) == f + Encode(b[3..]);
    }
  }

  lemma LaterGroup(b: Bytes, k: nat)
    requires 4 <= k < |Encode(b)|
    ensures |b| >= 3 && k - 4 < |Encode(b[3..])| && Encode(b)[k] == Encode(b[3..])[k - 4]
  {
    ShortIsOneGroup(b);
    var f, rest := EncodeGroup(b[0], b[1], b[2]), Encode(b[3..]);
    assert Encode(b) == f + rest;
  }

  lemma ShortIsOneGroup(b: Bytes)
    ensures |b| < 3 ==> |Encode(b)| <= 4
  {
  }

  lemma StandardShifts(b: Bytes, g: nat, i: nat)
    requires |b| >= 3 && 0 < g && i < 4
    ensures Standard(b[3..], g - 1, i) == Standard(b, g, i)
  {
    GroupsShift(b, g - 1);
    assert Padded(b[3..], g - 1, i) <==> Padded(b, g, i);
  }

  lemma GroupsShift(b: Bytes, g: nat)
    requires |b| >= 3
    ensures GroupBits(b[3..], g) == GroupBits(b, g + 1)
  {
    ByteShift(b, 3 * g);
    ByteShift(b, 3 * g + 1);
    ByteShift(b, 3 * g + 2);
  }

  lemma ByteShift(b: Bytes, k: nat)
    requires |b| >= 3
    ensures ByteAt(b[3..], k) == ByteAt(b, k + 3)
  {
  }

  /** Section 4 of RFC 4648: character `i` of group `g` is the letter of the alphabet for its six of the 24 bits,
      or padding where the group has no byte for it. */
  lemma EncodeIsStandard(b: Bytes, g: nat, i: nat)
    requires i < 4 && 4 * g + i < |Encode(b)|
    ensures |ALPHABET| == 64
    ensures Encode(b)[4 * g + i] == if Padded(b, g, i) then '=' else ALPHABET[SixBits(GroupBits(b, g), i)]
  {
    EncodeDigits(b, g, i);
    assert Encode(b)[4 * g + i] == Standard(b, g, i);
    AlphabetIs(SixBits(GroupBits(b, g), i));
  }

  // ---- What can be decoded ----

  predicate IsDigit(c: char) {
    'A' <= c <= 'Z' || 'a' <= c <= 'z' || '0' <= c <= '9' || c == '+' || c == '/'
  }

  /** The letters of the alphabet, each at its value. */
  lemma DigitIsLetter(c: char)
    ensures |ALPHABET| == 64 && (IsDigit(c) <==> c in ALPHABET)
    ensures IsDigit(c) ==> DigitValue(c) < 64 && ALPHABET[DigitValue(c)] == c
  {
    if IsDigit(c) {
      AlphabetIs(DigitValue(c));
    } else {
      forall k | 0 <= k < 64 ensures |ALPHABET| == 64 && ALPHABET[k] != c {
        AlphabetIs(k);
        LetterIsDigit(k);
      }
      AlphabetIs(0);
    }
  }

  lemma LetterIsDigit(n: nat)
    requires n < 64
    ensures IsDigit(Digit(n))
  {
  }

  lemma DigitValueIs(c: char)
    ensures DigitValue(c) < 64 <==> IsDigit(c)
  {
  }

  /** Whole groups of letters of the alphabet, but for one or two padding characters at the very end. */
  predicate WellPadded(s: string) {
    var n := |s|;
    n % 4 == 0 && forall i :: 0 <= i < n ==> IsDigit(s[i]) || PaddingAt(s, i)
  }

  /** Padding at place `i` of a text. */
  predicate PaddingAt(s: string, i: nat)
    requires i < |s|
  {
    s[i] == '=' && (i == |s| - 1 || (i == |s| - 2 && s[|s| - 1] == '='))
  }

  lemma GroupIff(a: char, b: char, c: char, d: char)
    ensures var g := DecodeGroup(a, b, c, d);
      && (g.Some? <==> IsDigit(a) && IsDigit(b) && ((c == '=' && d == '=') || (IsDigit(c) && (d == '=' || IsDigit(d)))))
      && (g.Some? ==> (|g.value| == 3 <==> IsDigit(c) && IsDigit(d)))
  {
    DigitValueIs(a);
    DigitValueIs(b);
    DigitValueIs(c);
    DigitValueIs(d);
    PaddingIsNoDigit();
  }

  lemma PaddingIsNoDigit()
    ensures !IsDigit('=')
  {
    DigitValueIs('=');
  }

  /** A text is well padded if its first group is of letters and the rest is well padded, or it is one last group. */
  lemma PaddedCons(s: string)
    requires |s| >= 4
    ensures WellPadded(s) <==>
      if |s| == 4 then
        && IsDigit(s[0]) && IsDigit(s[1])
        && ((s[2] == '=' && s[3] == '=') || (IsDigit(s[2]) && (s[3] == '=' || IsDigit(s[3]))))
      else IsDigit(s[0]) && IsDigit(s[1]) && IsDigit(s[2]) && IsDigit(s[3]) && WellPadded(s[4..])
  {
    PaddingIsNoDigit();
    var rest := s[4..];
    if |s| > 4 {
      if WellPadded(s) {
        forall i | 0 <= i < |rest| ensures IsDigit(rest[i]) || PaddingAt(rest, i) {
          assert rest[i] == s[i + 4] && (IsDigit(s[i + 4]) || PaddingAt(s, i + 4));
        }
        assert forall i :: 0 <= i < 4 ==> !PaddingAt(s, i);
      }
      if WellPadded(rest) && IsDigit(s[0]) && IsDigit(s[1]) && IsDigit(s[2]) && IsDigit(s[3]) {
        forall i | 0 <= i < |s| ensures IsDigit(s[i]) || PaddingAt(s, i) {
          if i >= 4 { assert s[i] == rest[i - 4] && (IsDigit(rest[i - 4]) || PaddingAt(rest, i - 4)); }
        }
      }
    } else {
      assert WellPadded(s) <==> forall i :: 0 <= i < 4 ==> IsDigit(s[i]) || PaddingAt(s, i);
    }
  }

  /** Exactly the well-padded texts are accepted. */
  lemma {:induction false} DecodeIff(s: string)
    ensures Decode(s).Some? <==> WellPadded(s)
    decreases |s|
  {
    if |s| >= 4 {
      DecodeIff(s[4..]);
      GroupIff(s[0], s[1], s[2], s[3]);
      PaddedCons(s);
    }
  }
}
