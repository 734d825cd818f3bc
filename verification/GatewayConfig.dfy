/** Validation of the gateway's configuration (gateway/internal/config/config.go) and the handler it is given to. */
module GatewayConfig {
  import opened Text
  import opened SecretApi
  import opened Serving
  import opened RefOrder
  import SnapshotReader

  datatype RefDoc = RefDoc(namespace: string, name: string)
  datatype TlsDoc = TlsDoc(certFile: string, keyFile: string)
  datatype ExposureDoc = ExposureDoc(
    name: string, secretRef: RefDoc, allowedCidrs: seq<string>, auth: Option<RefDoc>, keys: seq<string>)
  datatype Document = Document(
    defaultNamespace: string,
    reconcileInterval: Option<string>,
    listen: Option<string>,
    tls: Option<TlsDoc>,
    trustedProxies: seq<string>,
    metricsListen: Option<string>,
    metricsTls: Option<TlsDoc>,
    metricsAuth: Option<RefDoc>,
    exposures: seq<ExposureDoc>)

  /** Library functions, as parameters: name patterns, and CIDR, duration and address parsing. */
  datatype Lib<!Prefix> = Lib(
    validName: string -> bool,
    validNamespace: string -> bool,
    validKey: string -> bool,
    parsePrefix: string -> Option<Prefix>,
    parseDuration: string -> Option<int>,
    splitHostPort: string -> Option<(string, string)>,
    validPort: string -> bool,
    unspecified: string -> bool)

  const SECOND: int := 1_000_000_000
  const DEFAULT_INTERVAL := 300 * SECOND
  const MIN_INTERVAL := 10 * SECOND
  const MAX_INTERVAL := 86_400 * SECOND

  datatype Config<Prefix> = Config(
    listen: string,
    tls: Option<TlsDoc>,
    trustedProxies: seq<Prefix>,
    metricsListen: string,
    metricsTls: Option<TlsDoc>,
    metricsAuth: Option<Ref>,
    interval: int,
    exposures: seq<Exposure<Prefix>>)

  // ---- Valid documents ----

  function RefOf(ref: RefDoc, defaultNs: string): Ref {
    Ref(if ref.namespace == "" then defaultNs else ref.namespace, ref.name)
  }

  predicate RefOk(lib: Lib, ref: RefDoc, defaultNs: string) {
    && ref.name != "" && lib.validName(ref.name)
    && (if ref.namespace == "" then defaultNs != "" else lib.validNamespace(ref.namespace))
  }

  /** Every CIDR parses, and no two are the same network. */
  ghost predicate PrefixesOk<Prefix>(lib: Lib<Prefix>, values: seq<string>) {
    && (forall i :: 0 <= i < |values| ==> lib.parsePrefix(values[i]).Some?)
    && (forall i, j :: 0 <= i < j < |values| ==> lib.parsePrefix(values[i]) != lib.parsePrefix(values[j]))
  }

  function PrefixesOf<Prefix>(lib: Lib<Prefix>, values: seq<string>): seq<Prefix>
    requires forall i :: 0 <= i < |values| ==> lib.parsePrefix(values[i]).Some?
  {
    seq(|values|, i requires 0 <= i < |values| => lib.parsePrefix(values[i]).value)
  }

  ghost predicate KeysOk(lib: Lib, keys: seq<string>) {
    && (forall i :: 0 <= i < |keys| ==> lib.validKey(keys[i]))
    && (forall i, j :: 0 <= i < j < |keys| ==> keys[i] != keys[j])
  }

  predicate TlsOk(t: Option<TlsDoc>) {
    t.Some? ==> t.value.certFile != "" && t.value.keyFile != ""
  }

  predicate ListenOk(lib: Lib, value: Option<string>) {
    value.Some? ==>
      value.value != "" && lib.splitHostPort(value.value).Some? && lib.validPort(lib.splitHostPort(value.value).value.1)
  }

  predicate Wildcard(lib: Lib, host: string) {
    host == "" || lib.unspecified(host)
  }

  /** listenersConflict: two addresses that would compete for one port. */
  predicate Conflict(lib: Lib, a: string, b: string) {
    var x, y := lib.splitHostPort(a), lib.splitHostPort(b);
    x.Some? && y.Some? && x.value.1 == y.value.1 &&
    (x.value.0 == y.value.0 || Wildcard(lib, x.value.0) || Wildcard(lib, y.value.0))
  }

  /** A reconcile interval: absent, or within its bounds. */
  predicate IntervalOk(lib: Lib, value: Option<string>) {
    value.Some? ==>
      lib.parseDuration(value.value).Some? && MIN_INTERVAL <= lib.parseDuration(value.value).value <= MAX_INTERVAL
  }

  function IntervalOf(lib: Lib, value: Option<string>): int
    requires IntervalOk(lib, value)
  {
    if value.Some? then lib.parseDuration(value.value).value else DEFAULT_INTERVAL
  }

  function Or(value: Option<string>, default: string): string {
    if value.Some? then value.value else default
  }

  ghost predicate ExposureOk<Prefix>(lib: Lib<Prefix>, e: ExposureDoc, defaultNs: string) {
    && e.name != "" && lib.validName(e.name)
    && RefOk(lib, e.secretRef, defaultNs)
    && |e.allowedCidrs| > 0 && PrefixesOk(lib, e.allowedCidrs)
    && e.auth.Some? && RefOk(lib, e.auth.value, defaultNs)
    && |e.keys| > 0 && KeysOk(lib, e.keys)
  }

  ghost predicate ExposuresOk<Prefix>(lib: Lib<Prefix>, es: seq<ExposureDoc>, defaultNs: string) {
    && (forall i :: 0 <= i < |es| ==> ExposureOk(lib, es[i], defaultNs))
    && (forall i, j :: 0 <= i < j < |es| ==> es[i].name != es[j].name)
  }

  ghost predicate DocumentOk<Prefix>(lib: Lib<Prefix>, d: Document) {
    && (d.defaultNamespace != "" ==> lib.validNamespace(d.defaultNamespace))
    && ListenOk(lib, d.listen) && TlsOk(d.tls) && PrefixesOk(lib, d.trustedProxies)
    && ListenOk(lib, d.metricsListen) && TlsOk(d.metricsTls)
    && !Conflict(lib, Or(d.listen, ":8080"), Or(d.metricsListen, ":8081"))
    && (d.metricsAuth.Some? ==> RefOk(lib, d.metricsAuth.value, d.defaultNamespace))
    && IntervalOk(lib, d.reconcileInterval)
    && |d.exposures| > 0 && ExposuresOk(lib, d.exposures, d.defaultNamespace)
  }

  ghost function ExposureOf<Prefix>(lib: Lib<Prefix>, e: ExposureDoc, defaultNs: string): Exposure<Prefix>
    requires ExposureOk(lib, e, defaultNs)
  {
    Exposure(e.name, RefOf(e.secretRef, defaultNs), PrefixesOf(lib, e.allowedCidrs),
             RefOf(e.auth.value, defaultNs), e.keys)
  }

  ghost function Resolution<Prefix>(lib: Lib<Prefix>, d: Document): Config<Prefix>
    requires DocumentOk(lib, d)
  {
    Config(
      Or(d.listen, ":8080"),
      d.tls,
      PrefixesOf(lib, d.trustedProxies),
      Or(d.metricsListen, ":8081"),
      d.metricsTls,
      if d.metricsAuth.Some? then Some(RefOf(d.metricsAuth.value, d.defaultNamespace)) else None,
      IntervalOf(lib, d.reconcileInterval),
      seq(|d.exposures|, i requires 0 <= i < |d.exposures| => ExposureOf(lib, d.exposures[i], d.defaultNamespace)))
  }

  // ---- The validator ----

  lemma PrefixesSnoc<Prefix>(lib: Lib<Prefix>, values: seq<string>, s: string)
    ensures PrefixesOk(lib, values + [s]) <==>
      PrefixesOk(lib, values) && lib.parsePrefix(s).Some? &&
      forall i :: 0 <= i < |values| ==> lib.parsePrefix(values[i]) != lib.parsePrefix(s)
  {
    var all := values + [s];
    assert all[|values|] == s && forall i :: 0 <= i < |values| ==> all[i] == values[i];
    if PrefixesOk(lib, all) {
      forall i | 0 <= i < |values|
        ensures lib.parsePrefix(values[i]).Some? && lib.parsePrefix(values[i]) != lib.parsePrefix(s)
      {
        assert lib.parsePrefix(all[i]).Some? && lib.parsePrefix(all[i]) != lib.parsePrefix(all[|values|]);
      }
      forall i, j | 0 <= i < j < |values| ensures lib.parsePrefix(values[i]) != lib.parsePrefix(values[j]) {
        assert lib.parsePrefix(all[i]) != lib.parsePrefix(all[j]);
      }
    }
  }

  lemma KeysSnoc(lib: Lib, keys: seq<string>, k: string)
    ensures KeysOk(lib, keys + [k]) <==> KeysOk(lib, keys) && lib.validKey(k) && k !in keys
  {
    var all := keys + [k];
    assert all[|keys|] == k && forall i :: 0 <= i < |keys| ==> all[i] == keys[i];
    if KeysOk(lib, all) {
      forall i | 0 <= i < |keys| ensures lib.validKey(keys[i]) && keys[i] != k {
        assert lib.validKey(all[i]) && all[i] != all[|keys|];
      }
      forall i, j | 0 <= i < j < |keys| ensures keys[i] != keys[j] {
        assert all[i] != all[j];
      }
    }
  }

  /** validator: it collects what is wrong, so that one run reports everything. `problems` names the parts. */
  class Validator<Prefix(==)> {
    const lib: Lib<Prefix>
    var problems: seq<string>

    constructor (lib: Lib<Prefix>)
      ensures this.lib == lib && problems == []
    {
      this.lib, this.problems := lib, [];
    }

    method Add(problem: string)
      modifies this
      ensures problems == old(problems) + [problem]
    {
      problems := problems + [problem];
    }

    method SecretRef(ref: RefDoc, defaultNs: string) returns (out: Ref)
      modifies this
      ensures old(problems) <= problems && (problems == old(problems) <==> RefOk(lib, ref, defaultNs))
      ensures out == RefOf(ref, defaultNs)
    {
      out := Ref(ref.namespace, ref.name);
      if out.name == "" {
        Add("name: required");
      } else if !lib.validName(out.name) {
        Add("name: invalid");
      }
      if out.namespace == "" {
        if defaultNs == "" {
          Add("namespace: not set");
        }
        out := out.(namespace := defaultNs);
      } else if !lib.validNamespace(out.namespace) {
        Add("namespace: invalid");
      }
    }

    /** prefixes: the parsed networks; one that is malformed or repeated is reported and skipped. */
    method Prefixes(values: seq<string>, required: bool) returns (out: seq<Prefix>)
      modifies this
      ensures old(problems) <= problems
      ensures problems == old(problems) <==> PrefixesOk(lib, values) && (required ==> |values| > 0)
      ensures PrefixesOk(lib, values) ==> out == PrefixesOf(lib, values)
    {
      out := [];
      if required && |values| == 0 {
        Add("at least one CIDR is required");
        return;
      }
      for i := 0 to |values|
        invariant old(problems) <= problems && (problems == old(problems) <==> PrefixesOk(lib, values[..i]))
        invariant PrefixesOk(lib, values[..i]) ==> out == PrefixesOf(lib, values[..i])
      {
        assert values[..i + 1] == values[..i] + [values[i]];
        PrefixesSnoc(lib, values[..i], values[i]);
        var p := lib.parsePrefix(values[i]);
        if p.None? {
          Add("invalid CIDR");
        } else if p.value in out {
          if PrefixesOk(lib, values[..i]) {
            ghost var j :| 0 <= j < |out| && out[j] == p.value;
            assert lib.parsePrefix(values[..i][j]) == p;
          }
          Add("duplicate CIDR");
        } else {
          if PrefixesOk(lib, values[..i]) {
            forall j | 0 <= j < i ensures lib.parsePrefix(values[..i][j]) != p {
              assert out[j] in out;
            }
          }
          out := out + [p.value];
        }
      }
      assert values[..|values|] == values;
    }

    /** keys: the configured keys in order; an invalid or repeated one is reported and skipped. */
    method Keys(keys: seq<string>) returns (out: seq<string>)
      modifies this
      ensures old(problems) <= problems
      ensures problems == old(problems) <==> KeysOk(lib, keys) && |keys| > 0
      ensures KeysOk(lib, keys) ==> out == keys
    {
      out := [];
      if |keys| == 0 {
        Add("at least one key is required");
        return;
      }
      for i := 0 to |keys|
        invariant old(problems) <= problems && (problems == old(problems) <==> KeysOk(lib, keys[..i]))
        invariant KeysOk(lib, keys[..i]) ==> out == keys[..i]
      {
        assert keys[..i + 1] == keys[..i] + [keys[i]];
        KeysSnoc(lib, keys[..i], keys[i]);
        if !lib.validKey(keys[i]) {
          Add("invalid Secret key");
        } else if keys[i] in out {
          Add("duplicate key");
        } else {
          out := out + [keys[i]];
        }
      }
      assert keys[..|keys|] == keys;
    }

    method Auth(auth: Option<RefDoc>, defaultNs: string) returns (out: Ref)
      modifies this
      ensures old(problems) <= problems
      ensures problems == old(problems) <==> auth.Some? && RefOk(lib, auth.value, defaultNs)
      ensures auth.Some? ==> out == RefOf(auth.value, defaultNs)
    {
      if auth.None? {
        Add("auth: required");
        return Ref("", "");
      }
      out := SecretRef(auth.value, defaultNs);
    }

    method ListenAddress(value: Option<string>, default: string) returns (out: string)
      modifies this
      ensures old(problems) <= problems && (problems == old(problems) <==> ListenOk(lib, value))
      ensures out == Or(value, default)
    {
      if value.None? {
        return default;
      }
      out := value.value;
      if out == "" {
        Add("listenAddress: must not be empty");
      } else {
        var hp := lib.splitHostPort(out);
        if hp.None? {
          Add("listenAddress: invalid address");
        } else if !lib.validPort(hp.value.1) {
          Add("listenAddress: invalid port");
        }
      }
    }

    method Tls(t: Option<TlsDoc>) returns (out: Option<TlsDoc>)
      modifies this
      ensures old(problems) <= problems && (problems == old(problems) <==> TlsOk(t)) && out == t
    {
      out := None;
      if t.Some? {
        if t.value.certFile == "" {
          Add("tls.certFile: required");
        }
        if t.value.keyFile == "" {
          Add("tls.keyFile: required");
        }
        out := Some(TlsDoc(t.value.certFile, t.value.keyFile));
      }
    }

    method ReconcileInterval(value: Option<string>) returns (interval: int)
      modifies this
      ensures old(problems) <= problems && (problems == old(problems) <==> IntervalOk(lib, value))
      ensures IntervalOk(lib, value) ==> interval == IntervalOf(lib, value)
    {
      interval := DEFAULT_INTERVAL;
      if value.Some? {
        var parsed := lib.parseDuration(value.value);
        interval := 0;
        if parsed.None? || parsed.value < MIN_INTERVAL || parsed.value > MAX_INTERVAL {
          Add("kubernetes.reconcileInterval: invalid");
        } else {
          interval := parsed.value;
        }
      }
    }

    method ResolveExposure(s: ExposureDoc, defaultNs: string) returns (exp: Exposure<Prefix>)
      modifies this
      ensures old(problems) <= problems && (problems == old(problems) <==> ExposureOk(lib, s, defaultNs))
      ensures exp.name == s.name && (ExposureOk(lib, s, defaultNs) ==> exp == ExposureOf(lib, s, defaultNs))
    {
      var source := SecretRef(s.secretRef, defaultNs);
      var allowed := Prefixes(s.allowedCidrs, true);
      var auth := Auth(s.auth, defaultNs);
      var keys := Keys(s.keys);
      exp := Exposure(s.name, source, allowed, auth, keys);
      if exp.name == "" {
        Add("name: required");
      } else if !lib.validName(exp.name) {
        Add("name: invalid");
      }
    }

    /** One exposure, whose name must not be in `used`. */
    method ResolveNamed(s: ExposureDoc, used: map<string, nat>, defaultNs: string) returns (exp: Exposure<Prefix>)
      modifies this
      ensures old(problems) <= problems
      ensures problems == old(problems) <==> ExposureOk(lib, s, defaultNs) && s.name !in used
      ensures ExposureOk(lib, s, defaultNs) ==> exp == ExposureOf(lib, s, defaultNs)
    {
      exp := ResolveExposure(s, defaultNs);
      if exp.name != "" && exp.name in used {
        Add("duplicate exposure name");
      }
    }

    /** The exposures, with the first use of every name. */
    method ResolveExposures(es: seq<ExposureDoc>, defaultNs: string) returns (out: seq<Exposure<Prefix>>)
      modifies this
      ensures old(problems) <= problems && (problems == old(problems) <==> ExposuresOk(lib, es, defaultNs))
      ensures problems == old(problems) ==> Resolves(lib, es, out, defaultNs)
    {
      out := [];
      var firstUse: map<string, nat> := map[];
      for i := 0 to |es|
        invariant old(problems) <= problems
        invariant problems == old(problems) <==> ExposuresOk(lib, es[..i], defaultNs)
        invariant forall n :: n in firstUse <==> NameUsed(es[..i], n)
        invariant problems == old(problems) ==> Resolves(lib, es[..i], out, defaultNs)
      {
        assert es[..i + 1] == es[..i] + [es[i]];
        ExposuresSnoc(lib, es[..i], es[i], defaultNs);
        UsedSnoc(es[..i], es[i]);
        ghost var before := problems;
        var exp := ResolveNamed(es[i], firstUse, defaultNs);
        if es[i].name !in firstUse {
          firstUse := firstUse[es[i].name := i];
        }
        if problems == old(problems) {
          assert problems == before;
          ResolvesSnoc(lib, es[..i], out, es[i], exp, defaultNs);
        }
        out := out + [exp];
      }
      assert es[..|es|] == es;
    }
  }

  predicate NameUsed(es: seq<ExposureDoc>, name: string) {
    exists j :: 0 <= j < |es| && es[j].name == name
  }

  lemma UsedSnoc(es: seq<ExposureDoc>, e: ExposureDoc)
    ensures forall n :: NameUsed(es + [e], n) <==> NameUsed(es, n) || n == e.name
  {
    var all := es + [e];
    forall n ensures NameUsed(all, n) <==> NameUsed(es, n) || n == e.name {
      if NameUsed(es, n) {
        var j :| 0 <= j < |es| && es[j].name == n;
        assert all[j].name == n;
      }
      assert all[|es|].name == e.name;
    }
  }

  ghost predicate Resolves<Prefix>(lib: Lib<Prefix>, es: seq<ExposureDoc>, out: seq<Exposure<Prefix>>,
      defaultNs: string) {
    |out| == |es| &&
    forall i :: 0 <= i < |es| ==> ExposureOk(lib, es[i], defaultNs) && out[i] == ExposureOf(lib, es[i], defaultNs)
  }

  lemma ResolvesSnoc<Prefix>(
      lib: Lib<Prefix>, es: seq<ExposureDoc>, out: seq<Exposure<Prefix>>, e: ExposureDoc, exp: Exposure<Prefix>,
      defaultNs: string)
    requires Resolves(lib, es, out, defaultNs) && ExposureOk(lib, e, defaultNs) && exp == ExposureOf(lib, e, defaultNs)
    ensures Resolves(lib, es + [e], out + [exp], defaultNs)
  {
  }

  lemma ExposuresSnoc<Prefix>(lib: Lib<Prefix>, es: seq<ExposureDoc>, e: ExposureDoc, defaultNs: string)
    ensures ExposuresOk(lib, es + [e], defaultNs) <==>
      ExposuresOk(lib, es, defaultNs) && ExposureOk(lib, e, defaultNs) && !NameUsed(es, e.name)
  {
    var all := es + [e];
    assert all[|es|] == e && forall i :: 0 <= i < |es| ==> all[i] == es[i];
    if ExposuresOk(lib, all, defaultNs) {
      forall i | 0 <= i < |es| ensures ExposureOk(lib, es[i], defaultNs) && es[i].name != e.name {
        assert ExposureOk(lib, all[i], defaultNs) && all[i].name != all[|es|].name;
      }
      forall i, j | 0 <= i < j < |es| ensures es[i].name != es[j].name {
        assert all[i].name != all[j].name;
      }
    }
  }

  /** resolve: a configuration exactly for the valid documents, and then the one they describe. */
  method Resolve<Prefix(==)>(lib: Lib<Prefix>, d: Document) returns (cfg: Option<Config<Prefix>>)
    ensures cfg.Some? <==> DocumentOk(lib, d)
    ensures cfg.Some? ==> cfg.value == Resolution(lib, d)
  {
    var v := new Validator(lib);
    if d.defaultNamespace != "" && !lib.validNamespace(d.defaultNamespace) {
      v.Add("kubernetes.defaultNamespace: invalid namespace");
    }
    var listen := v.ListenAddress(d.listen, ":8080");
    var tls := v.Tls(d.tls);
    var trusted := v.Prefixes(d.trustedProxies, false);
    var metricsListen := v.ListenAddress(d.metricsListen, ":8081");
    var metricsTls := v.Tls(d.metricsTls);
    if Conflict(lib, listen, metricsListen) {
      v.Add("metrics.listenAddress: same port");
    }
    var metricsAuth: Option<Ref> := None;
    if d.metricsAuth.Some? {
      var a := v.Auth(d.metricsAuth, d.defaultNamespace);
      metricsAuth := Some(a);
    }
    var interval := v.ReconcileInterval(d.reconcileInterval);
    if |d.exposures| == 0 {
      v.Add("exposures: at least one exposure must be configured");
    }
    var exposures := v.ResolveExposures(d.exposures, d.defaultNamespace);
    if |v.problems| > 0 {
      return None;
    }
    return Some(Config(listen, tls, trusted, metricsListen, metricsTls, metricsAuth, interval, exposures));
  }

  /** ReferencedSecrets: every source and auth Secret of the exposures, in order, each once. */
  method ReferencedSecrets<Prefix>(exposures: seq<Exposure<Prefix>>) returns (refs: seq<Ref>)
    ensures SortedRefs(refs) && Distinct(refs)
    ensures forall r :: r in refs <==>
      exists i :: 0 <= i < |exposures| && (exposures[i].source == r || exposures[i].auth == r)
  {
    var all: seq<Ref> := [];
    for i := 0 to |exposures|
      invariant forall r :: r in all <==> exists k :: 0 <= k < i && (exposures[k].source == r || exposures[k].auth == r)
    {
      all := all + [exposures[i].source, exposures[i].auth];
    }
    refs := SortedDistinct(all);
  }

  /** server.New: the exposures by name, unless a name is used twice. */
  method Handlers<Prefix>(exposures: seq<Exposure<Prefix>>) returns (byName: Option<map<string, Exposure<Prefix>>>)
    ensures byName.Some? <==> forall i, j :: 0 <= i < j < |exposures| ==> exposures[i].name != exposures[j].name
    ensures byName.Some? ==> forall n :: n in byName.value <==>
      exists i :: 0 <= i < |exposures| && exposures[i].name == n
    ensures byName.Some? ==> forall i :: 0 <= i < |exposures| ==>
      exposures[i].name in byName.value && byName.value[exposures[i].name] == exposures[i]
  {
    var m: map<string, Exposure<Prefix>> := map[];
    for i := 0 to |exposures|
      invariant forall j, k :: 0 <= j < k < i ==> exposures[j].name != exposures[k].name
      invariant forall n :: n in m <==> exists j :: 0 <= j < i && exposures[j].name == n
      invariant forall j :: 0 <= j < i ==> exposures[j].name in m && m[exposures[j].name] == exposures[j]
    {
      var e := exposures[i];
      if e.name in m {
        return None;
      }
      m := m[e.name := e];
    }
    return Some(m);
  }

  // ---- What is wrong with a document, problem by problem ----

  /** One problem of a document, by where it is. */
  datatype Fault =
    | DefaultNamespace
    | ListenAddress
    | MetricsListenAddress
    | PortShared
    | TlsFiles
    | MetricsTlsFiles
    | ProxyCidr(k: nat)
    | ProxyTwice(k: nat, l: nat)
    | MetricsAuth
    | Interval
    | NoExposures
    | NameTwice(i: nat, j: nat)
    | In(i: nat, fault: ExposureFault)

  datatype ExposureFault =
    | Name
    | Source
    | NoCidrs
    | Cidr(k: nat)
    | CidrTwice(k: nat, l: nat)
    | NoAuth
    | BadAuth
    | NoKeys
    | Key(k: nat)
    | KeyTwice(k: nat, l: nat)

  /** A reference without a valid name, or without a namespace of its own or by default, or with an invalid one. */
  predicate BadRef(lib: Lib, ref: RefDoc, defaultNs: string) {
    || ref.name == "" || !lib.validName(ref.name)
    || (ref.namespace == "" && defaultNs == "")
    || (ref.namespace != "" && !lib.validNamespace(ref.namespace))
  }

  /** Neither host:port with a port that is a number from 1 to 65535, nor left out. */
  predicate BadAddress(lib: Lib, value: Option<string>) {
    match value
    case None => false
    case Some("") => true
    case Some(address) =>
      match lib.splitHostPort(address)
      case None => true
      case Some((_, port)) => !lib.validPort(port)
  }

  predicate NoFile(t: Option<TlsDoc>) {
    t.Some? && (t.value.certFile == "" || t.value.keyFile == "")
  }

  predicate HasExposureFault<Prefix(==)>(lib: Lib<Prefix>, e: ExposureDoc, defaultNs: string, f: ExposureFault) {
    match f
    case Name => e.name == "" || !lib.validName(e.name)
    case Source => BadRef(lib, e.secretRef, defaultNs)
    case NoCidrs => e.allowedCidrs == []
    case Cidr(k) => k < |e.allowedCidrs| && lib.parsePrefix(e.allowedCidrs[k]).None?
    case CidrTwice(k, l) =>
      k < l < |e.allowedCidrs| && lib.parsePrefix(e.allowedCidrs[k]) == lib.parsePrefix(e.allowedCidrs[l])
    case NoAuth => e.auth.None?
    case BadAuth => e.auth.Some? && BadRef(lib, e.auth.value, defaultNs)
    case NoKeys => e.keys == []
    case Key(k) => k < |e.keys| && !lib.validKey(e.keys[k])
    case KeyTwice(k, l) => k < l < |e.keys| && e.keys[k] == e.keys[l]
  }

  predicate HasFault<Prefix(==)>(lib: Lib<Prefix>, d: Document, f: Fault) {
    match f
    case DefaultNamespace => d.defaultNamespace != "" && !lib.validNamespace(d.defaultNamespace)
    case ListenAddress => BadAddress(lib, d.listen)
    case MetricsListenAddress => BadAddress(lib, d.metricsListen)
    case PortShared =>
      var a := lib.splitHostPort(if d.listen.Some? then d.listen.value else ":8080");
      var b := lib.splitHostPort(if d.metricsListen.Some? then d.metricsListen.value else ":8081");
      && a.Some? && b.Some? && a.value.1 == b.value.1
      && (a.value.0 in ["", b.value.0] || b.value.0 == "" || lib.unspecified(a.value.0) || lib.unspecified(b.value.0))
    case TlsFiles => NoFile(d.tls)
    case MetricsTlsFiles => NoFile(d.metricsTls)
    case ProxyCidr(k) => k < |d.trustedProxies| && lib.parsePrefix(d.trustedProxies[k]).None?
    case ProxyTwice(k, l) =>
      k < l < |d.trustedProxies| && lib.parsePrefix(d.trustedProxies[k]) == lib.parsePrefix(d.trustedProxies[l])
    case MetricsAuth => d.metricsAuth.Some? && BadRef(lib, d.metricsAuth.value, d.defaultNamespace)
    case Interval =>
      d.reconcileInterval.Some? &&
      (match lib.parseDuration(d.reconcileInterval.value)
       case None => true
       case Some(n) => n < 10_000_000_000 || n > 86_400_000_000_000)
    case NoExposures => d.exposures == []
    case NameTwice(i, j) => i < j < |d.exposures| && d.exposures[i].name == d.exposures[j].name
    case In(i, f) => i < |d.exposures| && HasExposureFault(lib, d.exposures[i], d.defaultNamespace, f)
  }

  /** An exposure is refused exactly for one of its own problems. */
  lemma ExposureRefusedIff<Prefix>(lib: Lib<Prefix>, e: ExposureDoc, defaultNs: string)
    ensures !ExposureOk(lib, e, defaultNs) <==> exists f :: HasExposureFault(lib, e, defaultNs, f)
  {
    if forall f :: !HasExposureFault(lib, e, defaultNs, f) {
      assert !HasExposureFault(lib, e, defaultNs, Name) && !HasExposureFault(lib, e, defaultNs, Source);
      assert !HasExposureFault(lib, e, defaultNs, NoCidrs) && !HasExposureFault(lib, e, defaultNs, NoKeys);
      assert !HasExposureFault(lib, e, defaultNs, NoAuth) && !HasExposureFault(lib, e, defaultNs, BadAuth);
      forall k: nat | k < |e.allowedCidrs| ensures lib.parsePrefix(e.allowedCidrs[k]).Some? {
        assert !HasExposureFault(lib, e, defaultNs, Cidr(k));
      }
      forall k: nat, l: nat | k < l < |e.allowedCidrs|
        ensures lib.parsePrefix(e.allowedCidrs[k]) != lib.parsePrefix(e.allowedCidrs[l])
      {
        assert !HasExposureFault(lib, e, defaultNs, CidrTwice(k, l));
      }
      forall k: nat | k < |e.keys| ensures lib.validKey(e.keys[k]) {
        assert !HasExposureFault(lib, e, defaultNs, Key(k));
      }
      forall k: nat, l: nat | k < l < |e.keys| ensures e.keys[k] != e.keys[l] {
        assert !HasExposureFault(lib, e, defaultNs, KeyTwice(k, l));
      }
    }
  }

  /** A document is refused exactly for one of these problems. */
  lemma RefusedIff<Prefix>(lib: Lib<Prefix>, d: Document)
    ensures !DocumentOk(lib, d) <==> exists f :: HasFault(lib, d, f)
  {
    forall e { ExposureRefusedIff(lib, e, d.defaultNamespace); }
    if forall f :: !HasFault(lib, d, f) {
      FaultlessHead(lib, d);
      assert !HasFault(lib, d, NoExposures);
      forall i: nat | i < |d.exposures| ensures ExposureOk(lib, d.exposures[i], d.defaultNamespace) {
        forall f ensures !HasExposureFault(lib, d.exposures[i], d.defaultNamespace, f) {
          assert !HasFault(lib, d, In(i, f));
        }
      }
      forall i: nat, j: nat | i < j < |d.exposures| ensures d.exposures[i].name != d.exposures[j].name {
        assert !HasFault(lib, d, NameTwice(i, j));
      }
    } else {
      var f :| HasFault(lib, d, f);
      FaultIsRefused(lib, d, f);
    }
  }

  lemma FaultIsRefused<Prefix>(lib: Lib<Prefix>, d: Document, f: Fault)
    requires HasFault(lib, d, f)
    ensures !DocumentOk(lib, d)
  {
    if f.In? {
      ExposureRefusedIff(lib, d.exposures[f.i], d.defaultNamespace);
      assert HasExposureFault(lib, d.exposures[f.i], d.defaultNamespace, f.fault);
    }
  }

  lemma FaultlessHead<Prefix>(lib: Lib<Prefix>, d: Document)
    requires forall f :: !HasFault(lib, d, f)
    ensures d.defaultNamespace != "" ==> lib.validNamespace(d.defaultNamespace)
    ensures ListenOk(lib, d.listen) && TlsOk(d.tls) && PrefixesOk(lib, d.trustedProxies)
    ensures ListenOk(lib, d.metricsListen) && TlsOk(d.metricsTls)
    ensures !Conflict(lib, Or(d.listen, ":8080"), Or(d.metricsListen, ":8081"))
    ensures d.metricsAuth.Some? ==> RefOk(lib, d.metricsAuth.value, d.defaultNamespace)
    ensures IntervalOk(lib, d.reconcileInterval)
  {
    assert !HasFault(lib, d, DefaultNamespace) && !HasFault(lib, d, ListenAddress);
    assert !HasFault(lib, d, MetricsListenAddress) && !HasFault(lib, d, PortShared);
    assert !HasFault(lib, d, TlsFiles) && !HasFault(lib, d, MetricsTlsFiles);
    assert !HasFault(lib, d, MetricsAuth) && !HasFault(lib, d, Interval);
    forall k: nat | k < |d.trustedProxies| ensures lib.parsePrefix(d.trustedProxies[k]).Some? {
      assert !HasFault(lib, d, ProxyCidr(k));
    }
    forall k: nat, l: nat | k < l < |d.trustedProxies|
      ensures lib.parsePrefix(d.trustedProxies[k]) != lib.parsePrefix(d.trustedProxies[l])
    {
      assert !HasFault(lib, d, ProxyTwice(k, l));
    }
  }

  // ---- What an accepted configuration establishes ----

  /** A reference of the configuration is that of the document, with the default namespace where it has none. */
  predicate Refers(ref: Ref, doc: RefDoc, defaultNs: string) {
    && ref.name == doc.name != ""
    && if doc.namespace == "" then ref.namespace == defaultNs != "" else ref.namespace == doc.namespace
  }

  /** Networks `ps` are those that `values` denote, in order. */
  ghost predicate Denote<Prefix>(lib: Lib<Prefix>, values: seq<string>, ps: seq<Prefix>) {
    |ps| == |values| && forall k :: 0 <= k < |values| ==> lib.parsePrefix(values[k]) == Some(ps[k])
  }

  /** Every exposure of the document is served under its own name, from the Secret it names, to the clients it names,
      against the credentials it names, and shows the keys it names. */
  lemma AcceptedExposureIs<Prefix>(lib: Lib<Prefix>, d: Document, i: nat)
    requires DocumentOk(lib, d) && i < |d.exposures|
    ensures |Resolution(lib, d).exposures| == |d.exposures|
    ensures var e, doc := Resolution(lib, d).exposures[i], d.exposures[i];
      && e.name == doc.name && e.keys == doc.keys && Denote(lib, doc.allowedCidrs, e.allowed)
      && Refers(e.source, doc.secretRef, d.defaultNamespace)
      && doc.auth.Some? && Refers(e.auth, doc.auth.value, d.defaultNamespace)
  {
    assert ExposureOk(lib, d.exposures[i], d.defaultNamespace);
  }

  /** The rest of the configuration: what the document says, or the default. The listeners do not compete for a port,
      and reconciliation is every five minutes unless the document says otherwise, and never more often than every ten
      seconds nor more seldom than once a day. */
  lemma AcceptedServerIs<Prefix>(lib: Lib<Prefix>, d: Document)
    requires DocumentOk(lib, d)
    ensures var cfg := Resolution(lib, d);
      && (if d.listen.Some? then Some(cfg.listen) == d.listen else cfg.listen == ":8080")
      && (if d.metricsListen.Some? then Some(cfg.metricsListen) == d.metricsListen else cfg.metricsListen == ":8081")
      && cfg.tls == d.tls && cfg.metricsTls == d.metricsTls && Denote(lib, d.trustedProxies, cfg.trustedProxies)
      && (cfg.metricsAuth.Some? <==> d.metricsAuth.Some?)
      && (d.metricsAuth.Some? ==> Refers(cfg.metricsAuth.value, d.metricsAuth.value, d.defaultNamespace))
      && 10_000_000_000 <= cfg.interval <= 86_400_000_000_000
      && (if d.reconcileInterval.Some? then lib.parseDuration(d.reconcileInterval.value) == Some(cfg.interval)
          else cfg.interval == 300_000_000_000)
    ensures var cfg := Resolution(lib, d);
      var a, b := lib.splitHostPort(cfg.listen), lib.splitHostPort(cfg.metricsListen);
      a.Some? && b.Some? && a.value.1 == b.value.1 ==>
        a.value.0 != b.value.0 &&
        forall host :: host == a.value.0 || host == b.value.0 ==> host != "" && !lib.unspecified(host)
  {
  }

  /** What is known of the key pattern. */
  ghost predicate KeysPlain(lib: Lib) {
    forall k :: lib.validKey(k) ==> k != "" && SnapshotReader.KeyLike(k)
  }

  /** The premises of the snapshot and gauge theorems hold for every accepted exposure, every reference has a valid
      namespace, and no two exposures have a name in common. */
  lemma AcceptedIsServable<Prefix>(lib: Lib<Prefix>, d: Document, i: nat)
    requires DocumentOk(lib, d) && KeysPlain(lib) && i < |d.exposures|
    ensures var e := Resolution(lib, d).exposures[i];
      && e.keys != [] && "" !in e.keys && (forall k :: k in e.keys ==> SnapshotReader.KeyLike(k))
      && (forall a, b :: 0 <= a < b < |e.keys| ==> e.keys[a] != e.keys[b])
      && e.allowed != []
      && lib.validNamespace(e.source.namespace) && lib.validNamespace(e.auth.namespace)
      && lib.validName(e.source.name) && lib.validName(e.auth.name)
    ensures forall j :: 0 <= j < |d.exposures| && j != i ==>
      Resolution(lib, d).exposures[j].name != Resolution(lib, d).exposures[i].name
  {
    assert ExposureOk(lib, d.exposures[i], d.defaultNamespace);
  }
}
