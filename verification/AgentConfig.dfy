/** Validation of the agent's configuration (agent/internal/config/config.go), and what it establishes for the
    synchronization of the exposures. */
module AgentConfig {
  import opened Text
  import opened Disk
  import opened SyncProtocol
  import SyncInvariant
  import SyncIsolation

  // ---- The document ----

  datatype TargetDoc = TargetDoc(key: string, path: string, mode: string)
  datatype AuthDoc = AuthDoc(username: string, passwordFile: string)
  datatype ExposureDoc = ExposureDoc(
    name: string, auth: Option<AuthDoc>, interval: string, targets: seq<TargetDoc>, command: Option<seq<string>>)
  datatype Document = Document(
    url: string, caFile: string, timeout: string, listen: Option<string>, exposures: seq<ExposureDoc>)

  /** What url.Parse finds. */
  datatype Url = Url(scheme: string, host: string, path: string, rawQuery: string, fragment: string, user: bool)

  /** Library functions, as parameters: regular expressions, URL, duration, address and path parsing. `clean` is
      filepath.Clean, split at its last separator. */
  datatype Lib = Lib(
    parseUrl: string -> Option<Url>,
    parseDuration: string -> Option<int>,
    listenAddressOk: string -> bool,
    nameMatches: string -> bool,
    keyMatches: string -> bool,
    isAbs: string -> bool,
    clean: string -> Path)

  const SECOND: int := 1_000_000_000
  const DEFAULT_TIMEOUT := 30 * SECOND
  const MIN_TIMEOUT := SECOND
  const MAX_TIMEOUT := 600 * SECOND
  const DEFAULT_INTERVAL := 300 * SECOND
  const MIN_INTERVAL := 10 * SECOND
  const MAX_INTERVAL := 604_800 * SECOND
  const DEFAULT_MODE: nat := 0x180

  datatype Accepted = Accepted(exposure: Exposure, auth: AuthDoc, interval: int)
  datatype Config = Config(url: Url, caFile: string, timeout: int, listen: string, exposures: seq<Accepted>)

  // ---- Modes ----

  /** strconv.ParseUint(s, 8, 32). */
  function Octal(s: string): Option<nat> {
    if s == "" || exists i :: 0 <= i < |s| && !('0' <= s[i] <= '7') then None
    else if OctalValue(s) >= 0x1_0000_0000 then None
    else Some(OctalValue(s))
  }

  function OctalValue(s: string): nat
    requires forall i :: 0 <= i < |s| ==> '0' <= s[i] <= '7'
  {
    if s == "" then 0 else 8 * OctalValue(s[..|s| - 1]) + (s[|s| - 1] as int - '0' as int)
  }

  /** The mode a target asks for: octal, written with a leading 0, and permission bits only. */
  function Mode(s: string): (r: Option<nat>)
    ensures r.Some? ==> r.value <= 0x1ff
  {
    if s == "" then Some(DEFAULT_MODE)
    else if Octal(s).None? || s[0] != '0' then None
    else if Octal(s).value / 0x200 != 0 then None
    else Some(Octal(s).value)
  }

  // ---- Valid documents ----

  predicate KeyOk(lib: Lib, key: string) {
    key != "" && lib.keyMatches(key)
  }

  predicate PathOk(lib: Lib, path: string) {
    path != "" && lib.isAbs(path) && path[|path| - 1] != '/'
  }

  predicate TargetOk(lib: Lib, t: TargetDoc) {
    KeyOk(lib, t.key) && PathOk(lib, t.path) && Mode(t.mode).Some?
  }

  /** Every target is valid, no two have a key or a cleaned path in common, and none has a path of `taken`. */
  ghost predicate TargetsOk(lib: Lib, ts: seq<TargetDoc>, taken: set<Path>) {
    && (forall i :: 0 <= i < |ts| ==> TargetOk(lib, ts[i]) && lib.clean(ts[i].path) !in taken)
    && (forall i, j :: 0 <= i < j < |ts| ==> ts[i].key != ts[j].key && lib.clean(ts[i].path) != lib.clean(ts[j].path))
  }

  predicate NameOk(lib: Lib, name: string) {
    name != "" && lib.nameMatches(name) && |name| <= 253
  }

  predicate AuthOk(lib: Lib, a: Option<AuthDoc>) {
    a.Some? && a.value.username != "" && a.value.passwordFile != "" && lib.isAbs(a.value.passwordFile)
  }

  /** A duration of the document: absent, or within its bounds. */
  predicate DurationOk(lib: Lib, s: string, min: int, max: int) {
    s == "" || (lib.parseDuration(s).Some? && min <= lib.parseDuration(s).value <= max)
  }

  predicate CommandOk(c: Option<seq<string>>) {
    c.Some? ==> |c.value| > 0 && c.value[0] != ""
  }

  ghost predicate ExposureOk(lib: Lib, e: ExposureDoc, taken: set<Path>) {
    && NameOk(lib, e.name) && AuthOk(lib, e.auth) && DurationOk(lib, e.interval, MIN_INTERVAL, MAX_INTERVAL)
    && CommandOk(e.command) && |e.targets| > 0 && TargetsOk(lib, e.targets, taken)
  }

  ghost function Paths(lib: Lib, ts: seq<TargetDoc>): set<Path> {
    set t | t in ts :: lib.clean(t.path)
  }

  ghost function AllPaths(lib: Lib, es: seq<ExposureDoc>): set<Path> {
    set e, t | e in es && t in e.targets :: lib.clean(t.path)
  }

  /** Names are unique, and a path is used by one target of one exposure. */
  ghost predicate ExposuresOk(lib: Lib, es: seq<ExposureDoc>) {
    forall i :: 0 <= i < |es| ==> ExposureOk(lib, es[i], AllPaths(lib, es[..i])) && !NameUsed(es[..i], es[i].name)
  }

  predicate NameUsed(es: seq<ExposureDoc>, name: string) {
    exists j :: 0 <= j < |es| && es[j].name == name
  }

  predicate UrlOk(lib: Lib, url: string) {
    url != "" && lib.parseUrl(url).Some? &&
    var u := lib.parseUrl(url).value;
    (u.scheme == "http" || u.scheme == "https") && u.host != "" && u.rawQuery == "" && u.fragment == "" && !u.user
  }

  function Listen(d: Document): string {
    if d.listen.Some? then d.listen.value else "0.0.0.0:9091"
  }

  ghost predicate DocumentOk(lib: Lib, d: Document) {
    && UrlOk(lib, d.url) && DurationOk(lib, d.timeout, MIN_TIMEOUT, MAX_TIMEOUT) && lib.listenAddressOk(Listen(d))
    && |d.exposures| > 0 && ExposuresOk(lib, d.exposures)
  }

  // ---- What a valid document resolves to ----

  function TargetOf(lib: Lib, t: TargetDoc): Target
    requires TargetOk(lib, t)
  {
    Target(t.key, lib.clean(t.path), Mode(t.mode).value)
  }

  function TargetsOf(lib: Lib, ts: seq<TargetDoc>): seq<Target>
    requires forall i :: 0 <= i < |ts| ==> TargetOk(lib, ts[i])
  {
    seq(|ts|, i requires 0 <= i < |ts| => TargetOf(lib, ts[i]))
  }

  function DurationOr(lib: Lib, s: string, default: int): int
    requires s == "" || lib.parseDuration(s).Some?
  {
    if s == "" then default else lib.parseDuration(s).value
  }

  ghost function AcceptedOf(lib: Lib, e: ExposureDoc): Accepted
    requires ExposureOk(lib, e, {})
  {
    Accepted(Exposure(e.name, if e.command.Some? then e.command.value else [], TargetsOf(lib, e.targets)),
          e.auth.value, DurationOr(lib, e.interval, DEFAULT_INTERVAL))
  }

  lemma TakenNone(lib: Lib, e: ExposureDoc, taken: set<Path>)
    requires ExposureOk(lib, e, taken)
    ensures ExposureOk(lib, e, {})
  {
  }

  // ---- The validation loops ----

  lemma PathsSnoc(lib: Lib, ts: seq<TargetDoc>, t: TargetDoc)
    ensures Paths(lib, ts + [t]) == Paths(lib, ts) + {lib.clean(t.path)}
  {
  }

  lemma AllPathsSnoc(lib: Lib, es: seq<ExposureDoc>, e: ExposureDoc)
    ensures AllPaths(lib, es + [e]) == AllPaths(lib, es) + Paths(lib, e.targets)
  {
    var l, r := AllPaths(lib, es + [e]), AllPaths(lib, es) + Paths(lib, e.targets);
    forall p | p in r ensures p in l {
      if p in AllPaths(lib, es) {
        var f, t :| f in es && t in f.targets && p == lib.clean(t.path);
        assert f in es + [e];
      } else {
        var t :| t in e.targets && p == lib.clean(t.path);
        assert e in es + [e];
      }
    }
  }

  predicate KeyUsed(ts: seq<TargetDoc>, k: string) {
    exists t :: t in ts && t.key == k
  }

  lemma TargetsSnoc(lib: Lib, ts: seq<TargetDoc>, t: TargetDoc, taken: set<Path>)
    ensures TargetsOk(lib, ts + [t], taken) <==>
      TargetsOk(lib, ts, taken) && TargetOk(lib, t) && lib.clean(t.path) !in taken + Paths(lib, ts) &&
      !KeyUsed(ts, t.key)
    ensures forall k :: KeyUsed(ts + [t], k) <==> KeyUsed(ts, k) || k == t.key
  {
    var all := ts + [t];
    if TargetsOk(lib, all, taken) {
      forall i | 0 <= i < |ts| ensures TargetOk(lib, ts[i]) && lib.clean(ts[i].path) !in taken {
        assert all[i] == ts[i];
      }
      forall i, j | 0 <= i < j < |ts|
        ensures ts[i].key != ts[j].key && lib.clean(ts[i].path) != lib.clean(ts[j].path)
      {
        assert all[i] == ts[i] && all[j] == ts[j];
      }
      assert all[|ts|] == t;
      forall u | u in ts ensures u.key != t.key && lib.clean(u.path) != lib.clean(t.path) {
        var i :| 0 <= i < |ts| && ts[i] == u;
        assert all[i] == u;
      }
    }
  }

  /** One target: the key against those seen in the exposure, the path against those taken anywhere, the mode. */
  method ResolveTarget(lib: Lib, t: TargetDoc, seenKey: set<string>, taken: set<Path>)
    returns (out: Target, problems: nat)
    ensures problems == 0 <==> TargetOk(lib, t) && t.key !in seenKey && lib.clean(t.path) !in taken
    ensures problems == 0 ==> out == TargetOf(lib, t)
  {
    problems := 0;
    var path, mode := Path("", ""), DEFAULT_MODE;
    if t.key == "" {
      problems := problems + 1;
    } else if !lib.keyMatches(t.key) {
      problems := problems + 1;
    } else if t.key in seenKey {
      problems := problems + 1;
    }
    if t.path == "" {
      problems := problems + 1;
    } else if !lib.isAbs(t.path) {
      problems := problems + 1;
    } else if t.path[|t.path| - 1] == '/' {
      problems := problems + 1;
    } else {
      path := lib.clean(t.path);
      if path in taken {
        problems := problems + 1;
      }
    }
    if t.mode != "" {
      var m := Octal(t.mode);
      if m.None? || t.mode[0] != '0' {
        problems := problems + 1;
      } else if m.value / 0x200 != 0 {
        problems := problems + 1;
      } else {
        mode := m.value;
      }
    }
    out := Target(t.key, path, mode);
  }

  /** The targets of one exposure. `problems` counts what is wrong with them, and is zero exactly when they are valid
      beside the paths already taken. */
  method ResolveTargets(lib: Lib, ts: seq<TargetDoc>, taken: set<Path>)
    returns (out: seq<Target>, problems: nat, taken': set<Path>)
    ensures problems == 0 <==> TargetsOk(lib, ts, taken)
    ensures problems == 0 ==> out == TargetsOf(lib, ts) && taken' == taken + Paths(lib, ts)
  {
    out, problems, taken' := [], 0, taken;
    var seenKey: set<string> := {};
    for i := 0 to |ts|
      invariant problems == 0 <==> TargetsOk(lib, ts[..i], taken)
      invariant problems == 0 ==> out == TargetsOf(lib, ts[..i]) && taken' == taken + Paths(lib, ts[..i])
      invariant problems == 0 ==> forall k :: k in seenKey <==> KeyUsed(ts[..i], k)
    {
      var t := ts[i];
      assert ts[..i + 1] == ts[..i] + [t];
      TargetsSnoc(lib, ts[..i], t, taken);
      PathsSnoc(lib, ts[..i], t);
      var target, bad := ResolveTarget(lib, t, seenKey, taken');
      // After a problem the outcome is settled, whatever is recorded here.
      seenKey, taken' := seenKey + {t.key}, taken' + {lib.clean(t.path)};
      out := out + [target];
      problems := problems + bad;
    }
    assert ts[..|ts|] == ts;
  }

  /** The part of an exposure before its targets. */
  method ResolveHead(lib: Lib, raw: ExposureDoc, seenName: set<string>)
    returns (problems: nat, interval: int, command: seq<string>)
    ensures problems == 0 <==>
      NameOk(lib, raw.name) && raw.name !in seenName && AuthOk(lib, raw.auth) && CommandOk(raw.command) &&
      DurationOk(lib, raw.interval, MIN_INTERVAL, MAX_INTERVAL)
    ensures problems == 0 ==>
      interval == DurationOr(lib, raw.interval, DEFAULT_INTERVAL) &&
      command == if raw.command.Some? then raw.command.value else []
  {
    problems, interval, command := 0, DEFAULT_INTERVAL, [];
    if raw.name == "" || !lib.nameMatches(raw.name) || |raw.name| > 253 || raw.name in seenName {
      problems := problems + 1;
    }
    if raw.auth.None? {
      problems := problems + 1;
    } else {
      if raw.auth.value.username == "" {
        problems := problems + 1;
      }
      if raw.auth.value.passwordFile == "" || !lib.isAbs(raw.auth.value.passwordFile) {
        problems := problems + 1;
      }
    }
    if raw.interval != "" {
      var d := lib.parseDuration(raw.interval);
      if d.None? || d.value < MIN_INTERVAL || d.value > MAX_INTERVAL {
        problems := problems + 1;
      } else {
        interval := d.value;
      }
    }
    if raw.command.Some? {
      if |raw.command.value| == 0 || raw.command.value[0] == "" {
        problems := problems + 1;
      } else {
        command := raw.command.value;
      }
    }
  }

  lemma ExposuresSnoc(lib: Lib, es: seq<ExposureDoc>, e: ExposureDoc)
    ensures ExposuresOk(lib, es + [e]) <==>
      ExposuresOk(lib, es) && ExposureOk(lib, e, AllPaths(lib, es)) && !NameUsed(es, e.name)
  {
    var all := es + [e];
    assert forall i :: 0 <= i < |es| ==> all[i] == es[i] && all[..i] == es[..i];
    assert all[|es|] == e && all[..|es|] == es;
  }

  ghost function AcceptedAll(lib: Lib, es: seq<ExposureDoc>): seq<Accepted>
    requires ExposuresOk(lib, es)
  {
    EachOk(lib, es);
    seq(|es|, i requires 0 <= i < |es| => AcceptedOf(lib, es[i]))
  }

  lemma EachOk(lib: Lib, es: seq<ExposureDoc>)
    requires ExposuresOk(lib, es)
    ensures forall i :: 0 <= i < |es| ==> ExposureOk(lib, es[i], {})
  {
    forall i | 0 <= i < |es| ensures ExposureOk(lib, es[i], {}) {
      TakenNone(lib, es[i], AllPaths(lib, es[..i]));
    }
  }

  /** One exposure, beside the names and paths seen before it. */
  method ResolveExposure(lib: Lib, raw: ExposureDoc, seenName: set<string>, seenPath: set<Path>)
    returns (out: Accepted, problems: nat, taken: set<Path>)
    ensures problems == 0 <==> ExposureOk(lib, raw, seenPath) && raw.name !in seenName
    ensures problems == 0 ==>
      ExposureOk(lib, raw, {}) && out == AcceptedOf(lib, raw) && taken == seenPath + Paths(lib, raw.targets)
  {
    var interval, command, targets, badTargets;
    problems, interval, command := ResolveHead(lib, raw, seenName);
    if |raw.targets| == 0 {
      problems := problems + 1;
    }
    targets, badTargets, taken := ResolveTargets(lib, raw.targets, seenPath);
    problems := problems + badTargets;
    if problems == 0 {
      TakenNone(lib, raw, seenPath);
    }
    var auth := if raw.auth.Some? then raw.auth.value else AuthDoc("", "");
    out := Accepted(Exposure(raw.name, command, targets), auth, interval);
  }

  /** The exposures of a document, with the names and paths seen so far. */
  method ResolveExposures(lib: Lib, es: seq<ExposureDoc>) returns (out: seq<Accepted>, problems: nat)
    ensures problems == 0 <==> ExposuresOk(lib, es)
    ensures problems == 0 ==> out == AcceptedAll(lib, es)
  {
    out, problems := [], 0;
    var seenName: set<string>, seenPath: set<Path> := {}, {};
    for i := 0 to |es|
      invariant problems == 0 <==> ExposuresOk(lib, es[..i])
      invariant problems == 0 ==> Resolves(lib, es[..i], out) && seenPath == AllPaths(lib, es[..i])
      invariant problems == 0 ==> forall n :: n in seenName <==> NameUsed(es[..i], n)
    {
      var raw := es[i];
      assert es[..i + 1] == es[..i] + [raw];
      ExposuresSnoc(lib, es[..i], raw);
      AllPathsSnoc(lib, es[..i], raw);
      UsedSnoc(es[..i], raw);
      var accepted, bad, taken := ResolveExposure(lib, raw, seenName, seenPath);
      problems := problems + bad;
      if problems == 0 {
        ResolvesSnoc(lib, es[..i], out, raw, accepted);
      }
      seenName, seenPath := seenName + {raw.name}, taken;
      out := out + [accepted];
    }
    assert es[..|es|] == es;
  }

  /** Exposure by exposure, what is accepted is what the document describes. */
  ghost predicate Resolves(lib: Lib, es: seq<ExposureDoc>, out: seq<Accepted>) {
    |out| == |es| && forall j :: 0 <= j < |es| ==> ExposureOk(lib, es[j], {}) && out[j] == AcceptedOf(lib, es[j])
  }

  lemma ResolvesSnoc(lib: Lib, es: seq<ExposureDoc>, out: seq<Accepted>, e: ExposureDoc, a: Accepted)
    requires Resolves(lib, es, out) && ExposureOk(lib, e, {}) && a == AcceptedOf(lib, e)
    ensures Resolves(lib, es + [e], out + [a])
  {
  }

  lemma UsedSnoc(es: seq<ExposureDoc>, e: ExposureDoc)
    ensures forall n :: NameUsed(es + [e], n) <==> NameUsed(es, n) || n == e.name
  {
    var all := es + [e];
    forall n ensures NameUsed(all, n) <==> NameUsed(es, n) || n == e.name {
      if NameUsed(es, n) {
        var j :| 0 <= j < |es| && es[j].name == n;
        assert all[j].name == n;
      }
      assert all[|es|].name == e.name;
    }
  }

  ghost function Resolution(lib: Lib, d: Document): Config
    requires DocumentOk(lib, d)
  {
    Config(WithoutSlash(lib.parseUrl(d.url).value), d.caFile, DurationOr(lib, d.timeout, DEFAULT_TIMEOUT), Listen(d),
           AcceptedAll(lib, d.exposures))
  }

  /** The base URL, with one trailing slash removed. */
  function WithoutSlash(u: Url): Url {
    u.(path := if u.path != "" && u.path[|u.path| - 1] == '/' then u.path[..|u.path| - 1] else u.path)
  }

  /** resolve: a configuration exactly for the valid documents, and then the one they describe. */
  method Resolve(lib: Lib, d: Document) returns (cfg: Option<Config>)
    ensures cfg.Some? <==> DocumentOk(lib, d)
    ensures cfg.Some? ==> cfg.value == Resolution(lib, d)
  {
    var problems: nat, timeout := 0, DEFAULT_TIMEOUT;
    var url := Url("", "", "", "", "", false);
    if d.url == "" {
      problems := problems + 1;
    } else {
      var u := lib.parseUrl(d.url);
      if u.None? {
        problems := problems + 1;
      } else if u.value.scheme != "http" && u.value.scheme != "https" {
        problems := problems + 1;
      } else if u.value.host == "" {
        problems := problems + 1;
      } else if u.value.rawQuery != "" || u.value.fragment != "" || u.value.user {
        problems := problems + 1;
      } else {
        url := WithoutSlash(u.value);
      }
    }
    if d.timeout != "" {
      var t := lib.parseDuration(d.timeout);
      if t.None? || t.value < MIN_TIMEOUT || t.value > MAX_TIMEOUT {
        problems := problems + 1;
      } else {
        timeout := t.value;
      }
    }
    var listen := if d.listen.Some? then d.listen.value else "0.0.0.0:9091";
    if !lib.listenAddressOk(listen) {
      problems := problems + 1;
    }
    if |d.exposures| == 0 {
      problems := problems + 1;
    }
    var exposures, bad := ResolveExposures(lib, d.exposures);
    if problems + bad > 0 {
      return None;
    }
    return Some(Config(url, d.caFile, timeout, listen, exposures));
  }

  // ---- Modes, digit by digit ----

  /** Digit `k` from the right of a number in octal. */
  function OctalDigit(n: nat, k: nat): nat {
    if k == 0 then n % 8 else OctalDigit(n / 8, k - 1)
  }

  /** The digits of the value are the characters of the text, and there are no others. */
  lemma {:induction false} OctalDigits(s: string, k: nat)
    requires forall i :: 0 <= i < |s| ==> '0' <= s[i] <= '7'
    ensures OctalDigit(OctalValue(s), k) == if k < |s| then s[|s| - 1 - k] as int - '0' as int else 0
    decreases k
  {
    if k > 0 {
      OctalDigits(if s == "" then "" else s[..|s| - 1], k - 1);
    }
  }

  /** A mode is accepted exactly if it is left out, and then it is rw-------, or is written in octal digits, the first
      of them 0, and names permission bits only. */
  lemma ModeIff(s: string, m: nat)
    ensures Mode(s) == Some(m) <==>
      if s == "" then m == 0x180
      else s[0] == '0' && (forall i :: 0 <= i < |s| ==> '0' <= s[i] <= '7') && m == OctalValue(s) && m < 0x200
  {
  }

  /** The usual way to write one: 0 and a digit for the owner, the group and everyone else. */
  lemma ModeOfDigits(owner: nat, group: nat, other: nat)
    requires owner < 8 && group < 8 && other < 8
    ensures Mode(['0', Octet(owner), Octet(group), Octet(other)]) == Some(owner * 64 + group * 8 + other)
  {
    var s := ['0', Octet(owner), Octet(group), Octet(other)];
    assert s[..3][..2][..1][..0] == "";
    assert s[..3][..2][..1] == s[..1] && s[..3][..2] == s[..2];
    assert OctalValue(s[..1]) == 0 && OctalValue(s[..2]) == owner && OctalValue(s[..3]) == owner * 8 + group;
    ModeIff(s, owner * 64 + group * 8 + other);
  }

  function Octet(n: nat): char
    requires n < 8
  {
    ('0' as int + n) as char
  }

  // ---- What is wrong with a document, problem by problem ----

  datatype Fault =
    | BadUrl
    | Timeout
    | ListenAddress
    | NoExposures
    | Name(i: nat)
    | NameTwice(i: nat, j: nat)
    | Auth(i: nat)
    | Interval(i: nat)
    | Command(i: nat)
    | NoTargets(i: nat)
    | TargetFault(i: nat, k: nat)
    | KeyTwice(i: nat, k: nat, l: nat)
    | PathTwice(i: nat, k: nat, j: nat, l: nat)

  /** Durations: left out, or one from `min` to `max` seconds. */
  predicate OutOfRange(lib: Lib, s: string, min: int, max: int) {
    s != "" &&
    match lib.parseDuration(s)
    case None => true
    case Some(n) => n < min * 1_000_000_000 || n > max * 1_000_000_000
  }

  predicate BadTarget(lib: Lib, t: TargetDoc) {
    || t.key == "" || !lib.keyMatches(t.key)
    || t.path == "" || !lib.isAbs(t.path) || t.path[|t.path| - 1] == '/'
    || Mode(t.mode).None?
  }

  predicate HasFault(lib: Lib, d: Document, f: Fault) {
    match f
    case BadUrl => (d.url == "" ||
      match lib.parseUrl(d.url)
      case None => true
      case Some(u) =>
        u.scheme !in ["http", "https"] || u.host == "" || u.rawQuery != "" || u.fragment != "" || u.user)
    case Timeout => OutOfRange(lib, d.timeout, 1, 600)
    case ListenAddress => !lib.listenAddressOk(if d.listen.Some? then d.listen.value else "0.0.0.0:9091")
    case NoExposures => d.exposures == []
    case Name(i) =>
      i < |d.exposures| &&
      (d.exposures[i].name == "" || !lib.nameMatches(d.exposures[i].name) || |d.exposures[i].name| > 253)
    case NameTwice(i, j) => i < j < |d.exposures| && d.exposures[i].name == d.exposures[j].name
    case Auth(i) => i < |d.exposures| &&
      (match d.exposures[i].auth
       case None => true
       case Some(a) => a.username == "" || a.passwordFile == "" || !lib.isAbs(a.passwordFile))
    case Interval(i) => i < |d.exposures| && OutOfRange(lib, d.exposures[i].interval, 10, 604_800)
    case Command(i) =>
      i < |d.exposures| && d.exposures[i].command.Some? &&
      (d.exposures[i].command.value == [] || d.exposures[i].command.value[0] == "")
    case NoTargets(i) => i < |d.exposures| && d.exposures[i].targets == []
    case TargetFault(i, k) =>
      i < |d.exposures| && k < |d.exposures[i].targets| && BadTarget(lib, d.exposures[i].targets[k])
    case KeyTwice(i, k, l) =>
      i < |d.exposures| && k < l < |d.exposures[i].targets| &&
      d.exposures[i].targets[k].key == d.exposures[i].targets[l].key
    case PathTwice(i, k, j, l) =>
      i <= j < |d.exposures| && k < |d.exposures[i].targets| && l < |d.exposures[j].targets| && (i == j ==> k < l) &&
      lib.clean(d.exposures[i].targets[k].path) == lib.clean(d.exposures[j].targets[l].path)
  }

  /** A document is refused exactly for one of these problems. */
  lemma RefusedIff(lib: Lib, d: Document)
    ensures !DocumentOk(lib, d) <==> exists f :: HasFault(lib, d, f)
  {
    if forall f :: !HasFault(lib, d, f) {
      FaultlessIsOk(lib, d);
    } else {
      var f :| HasFault(lib, d, f);
      FaultIsRefused(lib, d, f);
    }
  }

  lemma FaultIsRefused(lib: Lib, d: Document, f: Fault)
    requires HasFault(lib, d, f)
    ensures !DocumentOk(lib, d)
  {
    if DocumentOk(lib, d) {
      EachOk(lib, d.exposures);
      match f
      case NameTwice(i, j) => NamesDiffer(lib, d, i, j);
      case PathTwice(i, k, j, l) => DistinctTargets(lib, d, j, i, l, k);
      case _ =>
    }
  }

  lemma FaultlessIsOk(lib: Lib, d: Document)
    requires forall f :: !HasFault(lib, d, f)
    ensures DocumentOk(lib, d)
  {
    assert !HasFault(lib, d, BadUrl) && !HasFault(lib, d, Timeout);
    assert !HasFault(lib, d, ListenAddress) && !HasFault(lib, d, NoExposures);
    forall i: nat | i < |d.exposures|
      ensures ExposureOk(lib, d.exposures[i], AllPaths(lib, d.exposures[..i]))
      ensures !NameUsed(d.exposures[..i], d.exposures[i].name)
    {
      FaultlessExposure(lib, d, i);
      forall j: nat | j < i ensures d.exposures[..i][j].name != d.exposures[i].name {
        assert !HasFault(lib, d, NameTwice(j, i));
      }
    }
  }

  lemma FaultlessExposure(lib: Lib, d: Document, i: nat)
    requires (forall f :: !HasFault(lib, d, f)) && i < |d.exposures|
    ensures ExposureOk(lib, d.exposures[i], AllPaths(lib, d.exposures[..i]))
  {
    assert !HasFault(lib, d, Name(i)) && !HasFault(lib, d, Auth(i)) && !HasFault(lib, d, Interval(i));
    assert !HasFault(lib, d, Command(i)) && !HasFault(lib, d, NoTargets(i));
    FaultlessTargets(lib, d, i);
  }

  lemma FaultlessTargets(lib: Lib, d: Document, i: nat)
    requires (forall f :: !HasFault(lib, d, f)) && i < |d.exposures|
    ensures TargetsOk(lib, d.exposures[i].targets, AllPaths(lib, d.exposures[..i]))
  {
    var targets := d.exposures[i].targets;
    forall k: nat | k < |targets|
      ensures TargetOk(lib, targets[k]) && lib.clean(targets[k].path) !in AllPaths(lib, d.exposures[..i])
    {
      assert !HasFault(lib, d, TargetFault(i, k));
      PathIsNew(lib, d, i, k);
    }
    forall k: nat, l: nat | k < l < |targets|
      ensures targets[k].key != targets[l].key && lib.clean(targets[k].path) != lib.clean(targets[l].path)
    {
      assert !HasFault(lib, d, KeyTwice(i, k, l)) && !HasFault(lib, d, PathTwice(i, k, i, l));
    }
  }

  lemma PathIsNew(lib: Lib, d: Document, i: nat, k: nat)
    requires (forall f :: !HasFault(lib, d, f)) && i < |d.exposures| && k < |d.exposures[i].targets|
    ensures lib.clean(d.exposures[i].targets[k].path) !in AllPaths(lib, d.exposures[..i])
  {
    var p := lib.clean(d.exposures[i].targets[k].path);
    forall e, t | e in d.exposures[..i] && t in e.targets ensures p != lib.clean(t.path) {
      var j: nat :| j < i && d.exposures[j] == e;
      var l: nat :| l < |e.targets| && e.targets[l] == t;
      assert !HasFault(lib, d, PathTwice(j, l, i, k));
    }
  }

  // ---- What an accepted configuration establishes ----

  /** Every exposure of the document is synchronized under its own name, into the targets it names, with the
      credentials, the command and the interval it names, or every five minutes. */
  lemma AcceptedExposureIs(lib: Lib, d: Document, i: nat)
    requires DocumentOk(lib, d) && i < |d.exposures|
    ensures |Resolution(lib, d).exposures| == |d.exposures|
    ensures var a, doc := Resolution(lib, d).exposures[i], d.exposures[i];
      && a.exposure.name == doc.name && Some(a.auth) == doc.auth
      && (if doc.command.Some? then Some(a.exposure.command) == doc.command else a.exposure.command == [])
      && (if doc.interval == "" then a.interval == 300_000_000_000
          else lib.parseDuration(doc.interval) == Some(a.interval))
      && 10_000_000_000 <= a.interval <= 604_800_000_000_000
      && |a.exposure.targets| == |doc.targets|
      && forall k :: 0 <= k < |doc.targets| ==>
           a.exposure.targets[k].key == doc.targets[k].key &&
           a.exposure.targets[k].path == lib.clean(doc.targets[k].path) &&
           Mode(doc.targets[k].mode) == Some(a.exposure.targets[k].mode)
  {
    EachOk(lib, d.exposures);
    assert ExposureOk(lib, d.exposures[i], {});
  }

  /** The gateway it asks is the one of the URL, without the slash at its end. */
  lemma AcceptedGatewayIs(lib: Lib, d: Document)
    requires DocumentOk(lib, d)
    ensures var cfg := Resolution(lib, d);
      && lib.parseUrl(d.url).Some?
      && var u := lib.parseUrl(d.url).value;
      && cfg.url == u.(path := cfg.url.path) && u.path in [cfg.url.path, cfg.url.path + "/"]
      && (forall p :: u.path == p + "/" ==> cfg.url.path == p)
      && cfg.caFile == d.caFile && cfg.listen == (if d.listen.Some? then d.listen.value else "0.0.0.0:9091")
      && (if d.timeout == "" then cfg.timeout == 30_000_000_000 else lib.parseDuration(d.timeout) == Some(cfg.timeout))
      && 1_000_000_000 <= cfg.timeout <= 600_000_000_000
  {
    var path := lib.parseUrl(d.url).value.path;
    if path != "" && path[|path| - 1] == '/' {
      assert path == path[..|path| - 1] + "/";
    }
  }

  /** What is known of the name pattern: a name starts with a letter or a digit. */
  ghost predicate NamesPlain(lib: Lib) {
    forall n :: lib.nameMatches(n) && n != "" ==> n[0] != '.'
  }

  /** Path `p` is the tag file or the stamp file of exposure `a`. */
  predicate IsStateFile(a: Accepted, stateDir: string, p: Path) {
    p == Path(stateDir, a.exposure.name + ".etag") || p == Path(stateDir, a.exposure.name + ".stamp")
  }

  /** What validation does not check: no target is a state file of any exposure, and none is named like the temporary
      file of a state file or of another target. */
  ghost predicate TargetsClear(cfg: Config, stateDir: string) {
    && (forall a, b, t, p ::
          a in cfg.exposures && b in cfg.exposures && t in b.exposure.targets && IsStateFile(a, stateDir, p) ==>
          t.path != p && !IsTempFor(p, t.path))
    && (forall a, b, t, u ::
          a in cfg.exposures && b in cfg.exposures && t in a.exposure.targets && u in b.exposure.targets ==>
          !IsTempFor(t.path, u.path))
  }

  function WorldOf(cfg: Config, i: nat, stateDir: string, replies: seq<Reply>, powerLoss: bool, flushFails: bool): World
    requires i < |cfg.exposures|
  {
    World(cfg.exposures[i].exposure, stateDir, replies, powerLoss, flushFails)
  }

  lemma DistinctTargets(lib: Lib, d: Document, i: nat, j: nat, a: nat, b: nat)
    requires DocumentOk(lib, d) && j <= i < |d.exposures|
    requires a < |Resolution(lib, d).exposures[i].exposure.targets|
    requires b < |Resolution(lib, d).exposures[j].exposure.targets|
    requires i != j || a != b
    ensures var es := Resolution(lib, d).exposures;
      es[i].exposure.targets[a].path != es[j].exposure.targets[b].path
  {
    EachOk(lib, d.exposures);
    var e, f := d.exposures[i], d.exposures[j];
    assert ExposureOk(lib, e, AllPaths(lib, d.exposures[..i]));
    if j < i {
      assert f in d.exposures[..i] && f.targets[b] in f.targets;
      assert lib.clean(f.targets[b].path) in AllPaths(lib, d.exposures[..i]);
    }
  }

  /** Different names, different state files; and a tag file is never a stamp file. */
  lemma StateFilesDiffer(m: string, n: string)
    ensures m + ".etag" != n + ".stamp"
    ensures m + ".etag" == n + ".etag" ==> m == n
    ensures m + ".stamp" == n + ".stamp" ==> m == n
  {
    var a, b := m + ".etag", n + ".stamp";
    assert a[|a| - 1] == 'g' && b[|b| - 1] == 'p';
    assert (m + ".etag")[..|m|] == m && (n + ".etag")[..|n|] == n;
    assert (m + ".stamp")[..|m|] == m && (n + ".stamp")[..|n|] == n;
  }

  lemma OwnedKinds(w: World, p: Path)
    requires w.Owns(p)
    ensures (p.dir == w.stateDir && (p.base == w.exposure.name + ".etag" || p.base == w.exposure.name + ".stamp")) ||
      exists a: nat :: a < |w.Targets()| && w.Targets()[a].path == p
  {
  }

  lemma OwnedNeverTemp(cfg: Config, stateDir: string, v: World, w: World, p: Path, q: Path)
    requires TargetsClear(cfg, stateDir) && v.stateDir == w.stateDir == stateDir
    requires (exists a :: a in cfg.exposures && a.exposure == v.exposure)
    requires (exists a :: a in cfg.exposures && a.exposure == w.exposure)
    requires w.exposure.name != "" && w.exposure.name[0] != '.'
    requires v.Owns(p) && w.Owns(q)
    ensures !IsTempFor(p, q)
  {
    if IsTempFor(p, q) {
      assert q.base[..|"." + p.base + ".tmp"|][0] == '.';
      OwnedKinds(w, q);
      OwnedKinds(v, p);
    }
  }

  /** The premises of the synchronization theorems: under an accepted configuration every exposure is well formed and
      no two of them share a file, given only that targets stay clear of the state files and of temporary names. */
  lemma AcceptedIsSound(lib: Lib, d: Document, stateDir: string, replies: seq<Reply>, i: nat, powerLoss: bool,
      flushFails: bool)
    requires DocumentOk(lib, d) && NamesPlain(lib) && TargetsClear(Resolution(lib, d), stateDir) && i < |d.exposures|
    ensures WorldOf(Resolution(lib, d), i, stateDir, replies, powerLoss, flushFails).WellFormed()
    ensures !(powerLoss && flushFails) ==>
      SyncInvariant.Sound(WorldOf(Resolution(lib, d), i, stateDir, replies, powerLoss, flushFails))
    ensures forall t :: t in Resolution(lib, d).exposures[i].exposure.targets ==> t.mode <= 0x1ff
  {
    EachOk(lib, d.exposures);
    var cfg := Resolution(lib, d);
    var w := WorldOf(cfg, i, stateDir, replies, powerLoss, flushFails);
    assert ExposureOk(lib, d.exposures[i], {});
    assert cfg.exposures[i] in cfg.exposures;
    forall a, b | 0 <= a < b < |w.Targets()| ensures w.Targets()[a].path != w.Targets()[b].path {
      DistinctTargets(lib, d, i, i, a, b);
    }
    StateFilesDiffer(w.exposure.name, w.exposure.name);
    forall a, p | 0 <= a < |w.Targets()| && IsStateFile(cfg.exposures[i], stateDir, p)
      ensures w.Targets()[a].path != p
    {
      assert w.Targets()[a] in cfg.exposures[i].exposure.targets;
    }
    assert IsStateFile(cfg.exposures[i], stateDir, w.EtagPath());
    assert IsStateFile(cfg.exposures[i], stateDir, w.StampPath());
    forall p, q | w.Owns(p) && w.Owns(q) ensures !IsTempFor(p, q) {
      OwnedNeverTemp(cfg, stateDir, w, w, p, q);
    }
  }

  lemma AcceptedAreApart(
      lib: Lib, d: Document, stateDir: string, r1: seq<Reply>, r2: seq<Reply>, i: nat, j: nat, powerLoss: bool,
      flushFails: bool)
    requires DocumentOk(lib, d) && NamesPlain(lib) && TargetsClear(Resolution(lib, d), stateDir)
    requires i < |d.exposures| && j < |d.exposures| && i != j
    ensures SyncIsolation.Apart(WorldOf(Resolution(lib, d), i, stateDir, r1, powerLoss, flushFails),
                                WorldOf(Resolution(lib, d), j, stateDir, r2, powerLoss, flushFails))
  {
    EachOk(lib, d.exposures);
    var cfg := Resolution(lib, d);
    var v := WorldOf(cfg, i, stateDir, r1, powerLoss, flushFails);
    var w := WorldOf(cfg, j, stateDir, r2, powerLoss, flushFails);
    assert cfg.exposures[i] in cfg.exposures && cfg.exposures[j] in cfg.exposures;
    assert ExposureOk(lib, d.exposures[i], {}) && ExposureOk(lib, d.exposures[j], {});
    forall p, q | v.Owns(p) && w.Owns(q) ensures !IsTempFor(p, q) && !IsTempFor(q, p) {
      OwnedNeverTemp(cfg, stateDir, v, w, p, q);
      OwnedNeverTemp(cfg, stateDir, w, v, q, p);
    }
    NamesDiffer(lib, d, i, j);
    forall p | v.Owns(p) ensures !w.Owns(p) {
      if w.Owns(p) {
        OwnedOnce(cfg, lib, d, stateDir, v, w, i, j, p);
      }
    }
  }

  lemma NamesDiffer(lib: Lib, d: Document, i: nat, j: nat)
    requires ExposuresOk(lib, d.exposures) && i < |d.exposures| && j < |d.exposures| && i != j
    ensures d.exposures[i].name != d.exposures[j].name
  {
    var lo, hi := if i < j then i else j, if i < j then j else i;
    assert !NameUsed(d.exposures[..hi], d.exposures[hi].name);
    assert d.exposures[..hi][lo] == d.exposures[lo];
  }

  lemma OwnedOnce(cfg: Config, lib: Lib, d: Document, stateDir: string, v: World, w: World, i: nat, j: nat, p: Path)
    requires DocumentOk(lib, d) && cfg == Resolution(lib, d) && TargetsClear(cfg, stateDir)
    requires i < |d.exposures| && j < |d.exposures| && i != j && d.exposures[i].name != d.exposures[j].name
    requires v.exposure == cfg.exposures[i].exposure && w.exposure == cfg.exposures[j].exposure
    requires v.stateDir == w.stateDir == stateDir
    requires v.Owns(p)
    ensures !w.Owns(p)
  {
    if w.Owns(p) {
      EachOk(lib, d.exposures);
      assert v.exposure.name == d.exposures[i].name && w.exposure.name == d.exposures[j].name;
      OwnedKinds(v, p);
      OwnedKinds(w, p);
      StateFilesDiffer(v.exposure.name, w.exposure.name);
      StateFilesDiffer(w.exposure.name, v.exposure.name);
      assert cfg.exposures[i] in cfg.exposures && cfg.exposures[j] in cfg.exposures;
      if x: nat :| x < |v.Targets()| && v.Targets()[x].path == p {
        assert v.Targets()[x] in cfg.exposures[i].exposure.targets;
        var y: nat :| y < |w.Targets()| && w.Targets()[y].path == p;
        if j < i { DistinctTargets(lib, d, i, j, x, y); } else { DistinctTargets(lib, d, j, i, y, x); }
      }
    }
  }

  /** Every exposure's world is well formed, and no two exposures share a file. */
  ghost predicate Separated(cfg: Config, stateDir: string) {
    && (forall i: nat :: i < |cfg.exposures| ==> WorldOf(cfg, i, stateDir, [], false, false).WellFormed())
    && (forall i: nat, j: nat :: i < |cfg.exposures| && j < |cfg.exposures| && i != j ==>
          SyncIsolation.Apart(WorldOf(cfg, i, stateDir, [], false, false), WorldOf(cfg, j, stateDir, [], false, false)))
  }

  /** What validation leaves to the operator, exactly: of an accepted configuration the synchronization theorems hold
      for every exposure, and the exposures are apart, if and only if the targets stay clear of state files and of
      temporary names. */
  lemma SeparatedIffClear(lib: Lib, d: Document, stateDir: string)
    requires DocumentOk(lib, d) && NamesPlain(lib)
    ensures Separated(Resolution(lib, d), stateDir) <==> TargetsClear(Resolution(lib, d), stateDir)
  {
    var cfg := Resolution(lib, d);
    if TargetsClear(cfg, stateDir) {
      forall i: nat | i < |cfg.exposures| ensures WorldOf(cfg, i, stateDir, [], false, false).WellFormed() {
        AcceptedIsSound(lib, d, stateDir, [], i, false, false);
      }
      forall i: nat, j: nat | i < |cfg.exposures| && j < |cfg.exposures| && i != j
        ensures SyncIsolation.Apart(
          WorldOf(cfg, i, stateDir, [], false, false), WorldOf(cfg, j, stateDir, [], false, false))
      {
        AcceptedAreApart(lib, d, stateDir, [], [], i, j, false, false);
      }
    } else if Separated(cfg, stateDir) {
      SeparatedIsClear(cfg, stateDir);
    }
  }

  lemma SeparatedIsClear(cfg: Config, stateDir: string)
    requires Separated(cfg, stateDir)
    ensures TargetsClear(cfg, stateDir)
  {
    forall a, b, t, p |
      a in cfg.exposures && b in cfg.exposures && t in b.exposure.targets && IsStateFile(a, stateDir, p)
      ensures t.path != p && !IsTempFor(p, t.path)
    {
      var i: nat :| i < |cfg.exposures| && cfg.exposures[i] == a;
      var j: nat :| j < |cfg.exposures| && cfg.exposures[j] == b;
      var v, w := WorldOf(cfg, i, stateDir, [], false, false), WorldOf(cfg, j, stateDir, [], false, false);
      assert v.Owns(p);
      TargetIsOwned(w, t);
      assert i != j ==> SyncIsolation.Apart(v, w);
    }
    forall a, b, t, u | a in cfg.exposures && b in cfg.exposures && t in a.exposure.targets && u in b.exposure.targets
      ensures !IsTempFor(t.path, u.path)
    {
      var i: nat :| i < |cfg.exposures| && cfg.exposures[i] == a;
      var j: nat :| j < |cfg.exposures| && cfg.exposures[j] == b;
      var v, w := WorldOf(cfg, i, stateDir, [], false, false), WorldOf(cfg, j, stateDir, [], false, false);
      TargetIsOwned(v, t);
      TargetIsOwned(w, u);
      assert i != j ==> SyncIsolation.Apart(v, w);
    }
  }

  lemma TargetIsOwned(w: World, t: Target)
    requires t in w.exposure.targets
    ensures w.IsTargetPath(t.path) && w.Owns(t.path)
  {
    var x :| 0 <= x < |w.exposure.targets| && w.exposure.targets[x] == t;
    assert w.Targets()[x].path == t.path;
  }
}
