/** Byte strings. A Go `string` or `[]byte` is a sequence of characters below 256; `byte` makes that
    bound part of the type where it matters (base64), and plain `string` is used elsewhere. */
module Text {
  datatype Option<+T> = None | Some(value: T)

  type byte = c: char | c < '\U{0100}' witness 'a'
  type Bytes = seq<byte>

  /** The ASCII white space that strings.TrimSpace removes. */
  predicate IsSpace(c: char) {
    c == ' ' || '\t' <= c <= '\r'
  }

  function TrimLeft(s: string): string {
    if s != "" && IsSpace(s[0]) then TrimLeft(s[1..]) else s
  }

  function TrimRight(s: string): string {
    if s != "" && IsSpace(s[|s| - 1]) then TrimRight(s[..|s| - 1]) else s
  }

  function TrimSpace(s: string): string {
    TrimRight(TrimLeft(s))
  }

  predicate Blank(s: string) {
    forall i :: 0 <= i < |s| ==> IsSpace(s[i])
  }

  /** Nonempty, and no white space at either end. */
  predicate Trimmed(s: string) {
    s != "" && !IsSpace(s[0]) && !IsSpace(s[|s| - 1])
  }

  lemma TrimOfTrimmed(s: string)
    requires Trimmed(s)
    ensures TrimSpace(s) == s
    ensures TrimSpace(s + "\n") == s
  {
    assert TrimLeft(s + "\n") == s + "\n";
    assert (s + "\n")[..|s|] == s;
    assert TrimRight(s + "\n") == TrimRight(s);
  }

  /** The test the walk uses for a blank header line. */
  lemma {:induction false} TrimIsEmptyIffBlank(s: string)
    ensures TrimSpace(s) == "" <==> Blank(s)
  {
    TrimLeftOfBlank(s);
    if TrimLeft(s) != "" {
      TrimLeftStarts(s);
      TrimRightKeepsStart(TrimLeft(s));
    }
  }

  lemma {:induction false} TrimLeftOfBlank(s: string)
    ensures TrimLeft(s) == "" <==> Blank(s)
  {
    if s != "" && IsSpace(s[0]) {
      TrimLeftOfBlank(s[1..]);
      assert forall i :: 0 < i < |s| ==> s[i] == s[1..][i - 1];
    }
  }

  lemma {:induction false} TrimLeftStarts(s: string)
    requires TrimLeft(s) != ""
    ensures !IsSpace(TrimLeft(s)[0])
  {
    if s != "" && IsSpace(s[0]) {
      TrimLeftStarts(s[1..]);
    }
  }

  lemma {:induction false} TrimRightKeepsStart(s: string)
    requires s != "" && !IsSpace(s[0])
    ensures TrimRight(s) != ""
  {
    if IsSpace(s[|s| - 1]) {
      TrimRightKeepsStart(s[..|s| - 1]);
    }
  }

  /** The comma-separated entries of one header line, left to right (strings.SplitSeq). */
  function SplitComma(s: string): (r: seq<string>)
    ensures |r| >= 1
  {
    if s == "" then [""]
    else if s[0] == ',' then [""] + SplitComma(s[1..])
    else
      var rest := SplitComma(s[1..]);
      [[s[0]] + rest[0]] + rest[1..]
  }

  lemma {:induction false} SplitCommaWithoutComma(s: string)
    requires ',' !in s
    ensures SplitComma(s) == [s]
  {
    if s != "" {
      SplitCommaWithoutComma(s[1..]);
      assert [s[0]] + s[1..] == s;
    }
  }

  /** Splitting a line at one of its commas splits its entries there too. */
  lemma {:induction false} SplitCommaAt(a: string, b: string)
    ensures SplitComma(a + "," + b) == SplitComma(a) + SplitComma(b)
  {
    var s := a + "," + b;
    if a == "" {
      assert s[1..] == b;
    } else {
      assert s[1..] == a[1..] + "," + b;
      SplitCommaAt(a[1..], b);
      HeadOfConcat(s[0], SplitComma(a[1..]), SplitComma(b));
      assert s[0] == a[0];
    }
  }

  lemma HeadOfConcat(c: char, x: seq<string>, y: seq<string>)
    requires |x| >= 1
    ensures (x + y)[0] == x[0] && (x + y)[1..] == x[1..] + y
    ensures [[c] + (x + y)[0]] + (x + y)[1..] == [[c] + x[0]] + x[1..] + y
    ensures [""] + (x + y) == [""] + x + y
  {
    assert (x + y)[1..] == x[1..] + y;
  }

  // ---- What trimming and splitting mean ----

  /** Trimming takes white space off both ends, all of it and nothing else. */
  lemma TrimSpaceIs(s: string) returns (left: string, right: string)
    ensures s == left + TrimSpace(s) + right && Blank(left) && Blank(right)
    ensures TrimSpace(s) == "" || Trimmed(TrimSpace(s))
  {
    left := TrimLeftIs(s);
    right := TrimRightIs(TrimLeft(s));
    assert s == left + (TrimSpace(s) + right);
  }

  lemma {:induction false} TrimLeftIs(s: string) returns (left: string)
    ensures s == left + TrimLeft(s) && Blank(left) && (TrimLeft(s) == "" || !IsSpace(TrimLeft(s)[0]))
  {
    if s != "" && IsSpace(s[0]) {
      var rest := TrimLeftIs(s[1..]);
      left := [s[0]] + rest;
      assert s == [s[0]] + (rest + TrimLeft(s[1..]));
    } else {
      left := "";
    }
  }

  lemma {:induction false} TrimRightIs(s: string) returns (right: string)
    ensures s == TrimRight(s) + right && Blank(right)
    ensures TrimRight(s) == "" || !IsSpace(TrimRight(s)[|TrimRight(s)| - 1])
  {
    if s != "" && IsSpace(s[|s| - 1]) {
      var n := |s| - 1;
      var rest := TrimRightIs(s[..n]);
      right := rest + [s[n]];
      assert s == s[..n] + [s[n]];
      assert s == TrimRight(s) + right;
    } else {
      right := "";
    }
  }

  function JoinComma(entries: seq<string>): string {
    if entries == [] then "" else if |entries| == 1 then entries[0] else entries[0] + "," + JoinComma(entries[1..])
  }

  /** Splitting cuts at every comma and nowhere else: the entries have none, and joined they are the line. */
  lemma {:induction false} SplitCommaIs(s: string)
    ensures JoinComma(SplitComma(s)) == s && forall i :: 0 <= i < |SplitComma(s)| ==> ',' !in SplitComma(s)[i]
  {
    if s != "" {
      SplitCommaIs(s[1..]);
      var rest := SplitComma(s[1..]);
      assert s == [s[0]] + s[1..];
      if s[0] == ',' {
        assert ([""] + rest)[1..] == rest;
      } else {
        var all := [[s[0]] + rest[0]] + rest[1..];
        assert all[1..] == rest[1..];
        if |rest| > 1 {
          assert JoinComma(all) == ([s[0]] + rest[0]) + "," + JoinComma(rest[1..]);
          assert JoinComma(all) == [s[0]] + JoinComma(rest);
        }
      }
    }
  }

  /** And joining undoes splitting in the other direction. */
  lemma {:induction false} SplitOfJoin(entries: seq<string>)
    requires entries != [] && forall i :: 0 <= i < |entries| ==> ',' !in entries[i]
    ensures SplitComma(JoinComma(entries)) == entries
    decreases |entries|
  {
    SplitCommaWithoutComma(entries[0]);
    if |entries| > 1 {
      SplitOfJoin(entries[1..]);
      SplitCommaAt(entries[0], JoinComma(entries[1..]));
      assert entries == [entries[0]] + entries[1..];
    }
  }

  /** What stands between white space is what trimming leaves. */
  lemma TrimOfPadded(left: string, core: string, right: string)
    requires Blank(left) && Blank(right) && Trimmed(core)
    ensures TrimSpace(left + core + right) == core
  {
    TrimLeftOfPadded(left, core + right);
    assert left + core + right == left + (core + right);
    TrimRightOfPadded(core, right);
  }

  lemma {:induction false} TrimLeftOfPadded(left: string, s: string)
    requires Blank(left) && s != "" && !IsSpace(s[0])
    ensures TrimLeft(left + s) == s
  {
    if left == "" {
      assert left + s == s;
    } else {
      assert (left + s)[1..] == left[1..] + s;
      TrimLeftOfPadded(left[1..], s);
    }
  }

  lemma {:induction false} TrimRightOfPadded(s: string, right: string)
    requires Blank(right) && s != "" && !IsSpace(s[|s| - 1])
    ensures TrimRight(s + right) == s
  {
    if right == "" {
      assert s + right == s;
    } else {
      var n := |right| - 1;
      assert (s + right)[..|s| + n] == s + right[..n];
      TrimRightOfPadded(s, right[..n]);
    }
  }
}
