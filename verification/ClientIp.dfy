/** The originating client of a request behind trusted proxies (gateway/internal/clientip/clientip.go). */
module ClientIp {
  import opened Text

  /** netip, as far as it is used: parsing, normalization (Unmap and WithZone("")) and CIDR membership. */
  datatype Net<!Addr, !Prefix> = Net(
    parseAddr: string -> Option<Addr>,
    parseAddrPort: string -> Option<Addr>,
    normalize: Addr -> Addr,
    contains: (Prefix, Addr) -> bool)

  datatype Resolution<Addr> =
    | Client(client: Addr, peer: Addr)
    | InvalidRemoteAddr
    | MalformedForwardedFor(peer: Addr)

  // ---- The flat reading of the header ----

  /** Every entry of every non-blank line, in the order the proxies appended them. */
  function Entries(lines: seq<string>): seq<string> {
    if lines == [] then []
    else if Blank(lines[0]) then Entries(lines[1..])
    else SplitComma(lines[0]) + Entries(lines[1..])
  }

  /** Scan from the right for the first address that is not a trusted proxy. `seen` is the hop to the right of
      the list: if every entry is trusted, the leftmost one is the client. */
  function Scan<Addr, Prefix>(net: Net<Addr, Prefix>, trusted: seq<Prefix>, entries: seq<string>, peer: Addr,
      seen: Addr)
    : Resolution<Addr>
    decreases |entries|
  {
    if entries == [] then Client(seen, peer)
    else
      var n := |entries| - 1;
      var parsed := net.parseAddr(TrimSpace(entries[n]));
      if parsed.None? then MalformedForwardedFor(peer)
      else
        var addr := net.normalize(parsed.value);
        if !IsTrustedBy(net, trusted, addr) then Client(addr, peer)
        else Scan(net, trusted, entries[..n], peer, addr)
  }

  predicate IsTrustedBy<Addr, Prefix>(net: Net<Addr, Prefix>, trusted: seq<Prefix>, addr: Addr) {
    exists i :: 0 <= i < |trusted| && net.contains(trusted[i], addr)
  }

  /** The whole resolution, read off the flat list. */
  function Resolved<Addr, Prefix>(net: Net<Addr, Prefix>, trusted: seq<Prefix>, remote: string, lines: seq<string>)
    : Resolution<Addr>
  {
    var ap := net.parseAddrPort(remote);
    if ap.None? then InvalidRemoteAddr
    else
      var peer := net.normalize(ap.value);
      if !IsTrustedBy(net, trusted, peer) then Client(peer, peer)
      else Scan(net, trusted, Entries(lines), peer, peer)
  }

  // ---- The walk ----

  method IsTrusted<Addr, Prefix>(net: Net<Addr, Prefix>, trusted: seq<Prefix>, addr: Addr) returns (r: bool)
    ensures r == IsTrustedBy(net, trusted, addr)
  {
    for i := 0 to |trusted|
      invariant forall k :: 0 <= k < i ==> !net.contains(trusted[k], addr)
    {
      if net.contains(trusted[i], addr) {
        return true;
      }
    }
    return false;
  }

  /** strings.LastIndexByte(line, ','), or -1. */
  method LastComma(line: string) returns (idx: int)
    ensures -1 <= idx < |line|
    ensures idx >= 0 ==> line[idx] == ','
    ensures ',' !in line[idx + 1..]
  {
    idx := |line| - 1;
    while idx >= 0
      invariant -1 <= idx < |line|
      invariant ',' !in line[idx + 1..]
    {
      if line[idx] == ',' {
        return;
      }
      assert line[idx..] == [line[idx]] + line[idx + 1..];
      idx := idx - 1;
    }
  }

  /** Cutting a line at its last comma takes its last entry off. */
  lemma CutLast(line: string, idx: int)
    requires -1 <= idx < |line| && (idx >= 0 ==> line[idx] == ',') && ',' !in line[idx + 1..]
    ensures idx < 0 ==> SplitComma(line) == [line]
    ensures idx >= 0 ==> SplitComma(line) == SplitComma(line[..idx]) + [line[idx + 1..]]
  {
    if idx < 0 {
      assert line[idx + 1..] == line;
      SplitCommaWithoutComma(line);
    } else {
      LineAt(line, idx);
      CutAt(line[..idx], line[idx + 1..]);
    }
  }

  lemma LineAt(line: string, idx: nat)
    requires idx < |line| && line[idx] == ','
    ensures line == line[..idx] + "," + line[idx + 1..]
  {
  }

  lemma CutAt(init: string, last: string)
    requires ',' !in last
    ensures SplitComma(init + "," + last) == SplitComma(init) + [last]
  {
    SplitCommaWithoutComma(last);
    SplitCommaAt(init, last);
  }

  lemma {:induction false} EntriesSnoc(lines: seq<string>)
    requires lines != []
    ensures var n := |lines| - 1;
      Entries(lines) == Entries(lines[..n]) + if Blank(lines[n]) then [] else SplitComma(lines[n])
  {
    if |lines| > 1 {
      EntriesSnoc(lines[1..]);
      assert lines[1..][..|lines| - 2] == lines[..|lines| - 1][1..];
    }
  }

  lemma ScanSnoc<Addr, Prefix>(net: Net<Addr, Prefix>, trusted: seq<Prefix>, init: seq<string>, last: string,
      peer: Addr, seen: Addr)
    ensures Scan(net, trusted, init + [last], peer, seen) ==
      match net.parseAddr(TrimSpace(last))
      case None => MalformedForwardedFor(peer)
      case Some(a) =>
        if !IsTrustedBy(net, trusted, net.normalize(a)) then Client(net.normalize(a), peer)
        else Scan(net, trusted, init, peer, net.normalize(a))
  {
    assert (init + [last])[..|init|] == init;
  }

  /** Cut the last entry off a line; `more` says whether anything is left of it. */
  method CutEntry(line: string) returns (entry: string, rest: string, more: bool)
    ensures more ==> |rest| < |line| && SplitComma(line) == SplitComma(rest) + [entry]
    ensures !more ==> rest == line && SplitComma(line) == [entry]
  {
    var idx := LastComma(line);
    CutLast(line, idx);
    if idx < 0 {
      return line, line, false;
    }
    return line[idx + 1..], line[..idx], true;
  }

  /** The inner walk, over one line: it ends with an answer, or goes on to the entries `left` of the line. */
  method WalkLine<Addr, Prefix>(net: Net<Addr, Prefix>, trusted: seq<Prefix>, start: string, peer: Addr, seen: Addr,
      ghost left: seq<string>)
    returns (answer: Option<Resolution<Addr>>, client: Addr)
    ensures answer.Some? ==> Scan(net, trusted, left + SplitComma(start), peer, seen) == answer.value
    ensures answer.None? ==>
      Scan(net, trusted, left + SplitComma(start), peer, seen) == Scan(net, trusted, left, peer, client)
  {
    var line := start;
    client := seen;
    ghost var goal := Scan(net, trusted, left + SplitComma(start), peer, seen);
    while true
      invariant goal == Scan(net, trusted, left + SplitComma(line), peer, client)
      decreases |line|
    {
      var entry, rest, more := CutEntry(line);
      ghost var init := if more then left + SplitComma(rest) else left;
      assert left + SplitComma(line) == init + [entry];
      ScanSnoc(net, trusted, init, entry, peer, client);
      var addr := net.parseAddr(TrimSpace(entry));
      if addr.None? {
        return Some(MalformedForwardedFor(peer)), client;
      }
      client := net.normalize(addr.value);
      var ok := IsTrusted(net, trusted, client);
      if !ok {
        return Some(Client(client, peer)), client;
      }
      if !more {
        return None, client;
      }
      line := rest;
    }
  }

  /** The entries of the lines up to `i` are those before it and those of the line. */
  lemma EntriesUpTo(values: seq<string>, i: nat)
    requires i < |values|
    ensures Blank(values[i]) ==> Entries(values[..i + 1]) == Entries(values[..i])
    ensures !Blank(values[i]) ==> Entries(values[..i + 1]) == Entries(values[..i]) + SplitComma(values[i])
  {
    EntriesSnoc(values[..i + 1]);
    assert values[..i + 1][..i] == values[..i];
  }

  /** Resolve: the nested right-to-left walk terminates and returns what the flat reading says. */
  method Resolve<Addr, Prefix>(net: Net<Addr, Prefix>, trusted: seq<Prefix>, remote: string, values: seq<string>)
    returns (r: Resolution<Addr>)
    ensures r == Resolved(net, trusted, remote, values)
  {
    var ap := net.parseAddrPort(remote);
    if ap.None? {
      return InvalidRemoteAddr;
    }
    var peer := net.normalize(ap.value);
    var peerTrusted := IsTrusted(net, trusted, peer);
    if !peerTrusted {
      return Client(peer, peer);
    }
    var client := peer;
    ghost var goal := Scan(net, trusted, Entries(values), peer, peer);
    assert values[..|values|] == values;
    var i := |values| - 1;
    while i >= 0
      invariant -1 <= i < |values|
      invariant goal == Scan(net, trusted, Entries(values[..i + 1]), peer, client)
    {
      var line := values[i];
      TrimIsEmptyIffBlank(line);
      EntriesUpTo(values, i);
      if TrimSpace(line) != "" {
        var answer;
        answer, client := WalkLine(net, trusted, line, peer, client, Entries(values[..i]));
        if answer.Some? {
          return answer.value;
        }
      }
      i := i - 1;
    }
    assert values[..i + 1] == [];
    return Client(client, peer);
  }

  // ---- What a caller relies on ----

  /** Nothing to the left of the first untrusted entry matters, so a client cannot spoof its address. */
  lemma {:induction false} LeftIsIgnored<Addr, Prefix>(
    net: Net<Addr, Prefix>, trusted: seq<Prefix>, forged: seq<string>, hop: string, proxies: seq<string>, peer: Addr,
    seen: Addr)
    requires net.parseAddr(TrimSpace(hop)).Some? && !IsProxy(net, trusted, hop) && AllProxies(net, trusted, proxies)
    ensures Scan(net, trusted, forged + [hop] + proxies, peer, seen) ==
      Client(net.normalize(net.parseAddr(TrimSpace(hop)).value), peer)
    decreases |proxies|
  {
    if proxies == [] {
      assert forged + [hop] + proxies == forged + [hop];
      ScanSnoc(net, trusted, forged, hop, peer, seen);
    } else {
      var n := |proxies| - 1;
      var init := forged + [hop] + proxies[..n];
      assert forged + [hop] + proxies == init + [proxies[n]];
      assert IsProxy(net, trusted, proxies[n]);
      ScanSnoc(net, trusted, init, proxies[n], peer, seen);
      var next := net.normalize(net.parseAddr(TrimSpace(proxies[n])).value);
      LeftIsIgnored(net, trusted, forged, hop, proxies[..n], peer, next);
    }
  }

  lemma {:induction false} EntriesConcat(a: seq<string>, b: seq<string>)
    ensures Entries(a + b) == Entries(a) + Entries(b)
  {
    if a == [] {
      assert a + b == b;
    } else {
      assert (a + b)[1..] == a[1..] + b;
      EntriesConcat(a[1..], b);
    }
  }

  /** Joining two adjacent lines with a comma changes nothing (section 5.3 of RFC 9110). */
  lemma JoiningLinesIsNeutral<Addr, Prefix>(
    net: Net<Addr, Prefix>, trusted: seq<Prefix>, remote: string, before: seq<string>, x: string, y: string,
    after: seq<string>)
    requires !Blank(x) && !Blank(y)
    ensures Resolved(net, trusted, remote, before + [x, y] + after) ==
      Resolved(net, trusted, remote, before + [x + "," + y] + after)
  {
    var joined := x + "," + y;
    assert !IsSpace(joined[|x|]);
    SplitCommaAt(x, y);
    EntriesConcat(before + [x, y], after);
    EntriesConcat(before, [x, y]);
    EntriesConcat(before + [joined], after);
    EntriesConcat(before, [joined]);
    assert [x, y][1..] == [y];
    assert Entries([y]) == SplitComma(y) && Entries([joined]) == SplitComma(joined);
    assert Entries([x, y]) == Entries([joined]);
    assert Entries(before + [x, y] + after) == Entries(before + [joined] + after);
  }

  /** Blank lines are as good as absent. */
  lemma BlankLinesAreIgnored<Addr, Prefix>(
    net: Net<Addr, Prefix>, trusted: seq<Prefix>, remote: string, before: seq<string>, blank: string,
    after: seq<string>)
    requires Blank(blank)
    ensures Resolved(net, trusted, remote, before + [blank] + after) == Resolved(net, trusted, remote, before + after)
  {
    EntriesConcat(before + [blank], after);
    EntriesConcat(before, [blank]);
    EntriesConcat(before, after);
    assert Entries([blank]) == [];
    assert Entries(before + [blank] + after) == Entries(before + after);
  }

  /** Exactly when the chain cannot be resolved: some entry is not an address and every entry to its right is a
      trusted proxy, so that a trusted proxy must have written it. */
  lemma {:induction false} MalformedIff<Addr, Prefix>(net: Net<Addr, Prefix>, trusted: seq<Prefix>,
      entries: seq<string>, peer: Addr, seen: Addr)
    ensures Scan(net, trusted, entries, peer, seen).MalformedForwardedFor? <==>
      exists k :: 0 <= k < |entries| && BrokenAt(net, trusted, entries, k)
    decreases |entries|
  {
    if entries != [] {
      var n := |entries| - 1;
      var parsed := net.parseAddr(TrimSpace(entries[n]));
      if parsed.None? {
        assert BrokenAt(net, trusted, entries, n);
      } else {
        MalformedIff(net, trusted, entries[..n], peer, net.normalize(parsed.value));
        forall k | 0 <= k < n
          ensures BrokenAt(net, trusted, entries, k) <==>
            BrokenAt(net, trusted, entries[..n], k) && IsProxy(net, trusted, entries[n])
        {
          assert entries[k + 1..] == entries[..n][k + 1..] + [entries[n]];
          AllProxiesSnoc(net, trusted, entries[..n][k + 1..], entries[n]);
        }
      }
    }
  }

  /** Entry `k` is not an address, and only trusted proxies stand to its right. */
  predicate BrokenAt<Addr, Prefix>(net: Net<Addr, Prefix>, trusted: seq<Prefix>, entries: seq<string>, k: nat)
    requires k < |entries|
  {
    net.parseAddr(TrimSpace(entries[k])).None? && AllProxies(net, trusted, entries[k + 1..])
  }

  predicate IsProxy<Addr, Prefix>(net: Net<Addr, Prefix>, trusted: seq<Prefix>, entry: string) {
    var a := net.parseAddr(TrimSpace(entry));
    a.Some? && IsTrustedBy(net, trusted, net.normalize(a.value))
  }

  predicate AllProxies<Addr, Prefix>(net: Net<Addr, Prefix>, trusted: seq<Prefix>, entries: seq<string>) {
    forall i :: 0 <= i < |entries| ==> IsProxy(net, trusted, entries[i])
  }

  lemma AllProxiesSnoc<Addr, Prefix>(net: Net<Addr, Prefix>, trusted: seq<Prefix>, a: seq<string>, x: string)
    ensures AllProxies(net, trusted, a + [x]) <==> AllProxies(net, trusted, a) && IsProxy(net, trusted, x)
  {
    if AllProxies(net, trusted, a + [x]) {
      forall i | 0 <= i < |a| ensures IsProxy(net, trusted, a[i]) {
        assert (a + [x])[i] == a[i];
      }
      assert (a + [x])[|a|] == x;
    }
  }

  // ---- The whole resolution ----

  /** Resolution fails for the remote address alone exactly when that is no address with a port. */
  lemma InvalidRemoteIff<Addr, Prefix>(
    net: Net<Addr, Prefix>, trusted: seq<Prefix>, remote: string, lines: seq<string>)
    ensures Resolved(net, trusted, remote, lines) == InvalidRemoteAddr <==> net.parseAddrPort(remote).None?
  {
    if net.parseAddrPort(remote).Some? {
      var peer := net.normalize(net.parseAddrPort(remote).value);
      MalformedKeepsPeer(net, trusted, Entries(lines), peer, peer);
    }
  }

  /** A peer that is no trusted proxy is the client itself: whatever it claims in the header is ignored entirely. */
  lemma UntrustedPeerIsTheClient<Addr, Prefix>(
    net: Net<Addr, Prefix>, trusted: seq<Prefix>, remote: string, lines: seq<string>)
    requires net.parseAddrPort(remote).Some?
    requires var peer := net.normalize(net.parseAddrPort(remote).value);
      forall i :: 0 <= i < |trusted| ==> !net.contains(trusted[i], peer)
    ensures var peer := net.normalize(net.parseAddrPort(remote).value);
      Resolved(net, trusted, remote, lines) == Client(peer, peer)
  {
  }

  /** Behind a trusted peer, the client is the rightmost entry that is no trusted proxy; the leftmost entry if all are
      proxies; the peer if there are none. An entry that only proxies stand right of and that is no address fails the
      request. These are all the cases there are. */
  lemma TrustedPeerNamesTheClient<Addr, Prefix>(
    net: Net<Addr, Prefix>, trusted: seq<Prefix>, remote: string, lines: seq<string>, i: nat, k: nat)
    requires net.parseAddrPort(remote).Some? && i < |trusted|
    requires net.contains(trusted[i], net.normalize(net.parseAddrPort(remote).value))
    ensures var peer := net.normalize(net.parseAddrPort(remote).value); var es := Entries(lines);
      var r := Resolved(net, trusted, remote, lines);
      && (k < |es| && AllProxies(net, trusted, es[k + 1..]) && !IsProxy(net, trusted, es[k]) ==>
            match net.parseAddr(TrimSpace(es[k]))
            case Some(a) => r == Client(net.normalize(a), peer)
            case None => r == MalformedForwardedFor(peer))
      && (AllProxies(net, trusted, es) && es != [] ==>
            net.parseAddr(TrimSpace(es[0])).Some? &&
            r == Client(net.normalize(net.parseAddr(TrimSpace(es[0])).value), peer))
      && (es == [] ==> r == Client(peer, peer))
      && (AllProxies(net, trusted, es) || exists h ::
            0 <= h < |es| && AllProxies(net, trusted, es[h + 1..]) && !IsProxy(net, trusted, es[h]))
  {
    var peer := net.normalize(net.parseAddrPort(remote).value);
    var es := Entries(lines);
    if k < |es| && AllProxies(net, trusted, es[k + 1..]) && !IsProxy(net, trusted, es[k]) {
      assert es == es[..k] + [es[k]] + es[k + 1..];
      if net.parseAddr(TrimSpace(es[k])).Some? {
        LeftIsIgnored(net, trusted, es[..k], es[k], es[k + 1..], peer, peer);
      } else {
        assert BrokenAt(net, trusted, es, k);
        MalformedIff(net, trusted, es, peer, peer);
        MalformedKeepsPeer(net, trusted, es, peer, peer);
      }
    }
    if AllProxies(net, trusted, es) && es != [] {
      AllProxiesGiveLeftmost(net, trusted, es, peer, peer);
    }
    RightmostOrNone(net, trusted, es);
  }

  lemma {:induction false} MalformedKeepsPeer<Addr, Prefix>(
    net: Net<Addr, Prefix>, trusted: seq<Prefix>, entries: seq<string>, peer: Addr, seen: Addr)
    ensures var r := Scan(net, trusted, entries, peer, seen); !r.InvalidRemoteAddr? && r.peer == peer
    decreases |entries|
  {
    if entries != [] {
      var n := |entries| - 1;
      var parsed := net.parseAddr(TrimSpace(entries[n]));
      if parsed.Some? {
        MalformedKeepsPeer(net, trusted, entries[..n], peer, net.normalize(parsed.value));
      }
    }
  }

  lemma {:induction false} AllProxiesGiveLeftmost<Addr, Prefix>(
    net: Net<Addr, Prefix>, trusted: seq<Prefix>, entries: seq<string>, peer: Addr, seen: Addr)
    requires entries != [] && AllProxies(net, trusted, entries)
    ensures net.parseAddr(TrimSpace(entries[0])).Some?
    ensures Scan(net, trusted, entries, peer, seen) ==
      Client(net.normalize(net.parseAddr(TrimSpace(entries[0])).value), peer)
    decreases |entries|
  {
    var n := |entries| - 1;
    assert IsProxy(net, trusted, entries[n]) && IsProxy(net, trusted, entries[0]);
    if n > 0 {
      var next := net.normalize(net.parseAddr(TrimSpace(entries[n])).value);
      AllProxiesGiveLeftmost(net, trusted, entries[..n], peer, next);
    }
  }

  lemma {:induction false} RightmostOrNone<Addr, Prefix>(
    net: Net<Addr, Prefix>, trusted: seq<Prefix>, entries: seq<string>)
    ensures AllProxies(net, trusted, entries) || exists h ::
      0 <= h < |entries| && AllProxies(net, trusted, entries[h + 1..]) && !IsProxy(net, trusted, entries[h])
    decreases |entries|
  {
    if entries != [] {
      var n := |entries| - 1;
      var init := entries[..n];
      if !IsProxy(net, trusted, entries[n]) {
        assert AllProxies(net, trusted, entries[n + 1..]);
      } else {
        RightmostOrNone(net, trusted, init);
        if !AllProxies(net, trusted, init) {
          var h :| 0 <= h < n && AllProxies(net, trusted, init[h + 1..]) && !IsProxy(net, trusted, init[h]);
          assert entries[h + 1..] == init[h + 1..] + [entries[n]];
          AllProxiesSnoc(net, trusted, init[h + 1..], entries[n]);
          assert AllProxies(net, trusted, entries[h + 1..]) && !IsProxy(net, trusted, entries[h]);
        }
      }
    }
  }
}
