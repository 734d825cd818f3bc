/** The request pipeline of the gateway (gateway/internal/server/server.go), its credential check
    (gateway/internal/auth/auth.go) and its health gauge (gateway/internal/metrics/metrics.go). */
module Serving {
  import opened Text
  import opened Snapshot
  import opened SecretApi
  import opened SecretCache
  import opened ClientIp
  import ETags

  datatype Exposure<Prefix> = Exposure(name: string, source: Ref, allowed: seq<Prefix>, auth: Ref, keys: seq<string>)

  /** What a request carries, as far as the pipeline looks at it. `credentials` is what BasicAuth extracts. */
  datatype Request = Request(
    verb: string,
    path: string,
    forceQuery: bool,
    rawQuery: string,
    contentLength: int,
    transferEncodings: nat,
    remote: string,
    forwardedFor: seq<string>,
    credentials: Option<(string, string)>,
    ifNoneMatch: seq<string>)

  /** The handler with what it consults: the cache, and library functions as parameters. */
  datatype Gateway<!Addr, !Prefix> = Gateway(
    exposures: map<string, Exposure<Prefix>>,
    secrets: map<Ref, Secret>,
    net: Net<Addr, Prefix>,
    trusted: seq<Prefix>,
    validName: string -> bool,
    sha: string -> Bytes,
    mac: ETags.Mac)

  datatype Reason =
    | Served | NotModified | MethodNotAllowed | NoRoute | UnknownExposure | ClientAddressUnresolved | ClientNotAllowed
    | AuthSecretUnavailable | AuthSecretMalformed | Unauthorized | SourceSecretUnavailable | ConfiguredKeyMissing

  /** What the client sees: the status, the tag and the body, and which of the two challenges are set. The text of an
      error depends on its status alone. */
  datatype Reply = Reply(status: nat, etag: string, body: string, allow: bool, challenge: bool)

  function Error(status: nat): Reply { Reply(status, "", "", false, false) }

  /** What the operator sees. */
  datatype Outcome = Outcome(name: string, key: string, reason: Reason)

  datatype Answer = Answer(reply: Reply, outcome: Outcome)

  // ---- Parts of the pipeline ----

  /** Manager.Secret: an unknown reference reads as not present. */
  function Lookup(secrets: map<Ref, Secret>, ref: Ref): Secret {
    if ref in secrets then secrets[ref] else UNKNOWN
  }

  const PREFIX := "/exposures/"

  function ParseRoute(valid: string -> bool, escaped: string): (r: Option<string>)
    ensures forall n :: r == Some(n) <==> escaped == PREFIX + n && '/' !in n && valid(n)
  {
    if |escaped| < |PREFIX| || escaped[..|PREFIX|] != PREFIX then None
    else
      var name := escaped[|PREFIX|..];
      assert escaped == PREFIX + name;
      if '/' in name || !valid(name) then None else Some(name)
  }

  /** Exposure.AllowsClient. */
  method AllowsClient<Addr, Prefix>(net: Net<Addr, Prefix>, allowed: seq<Prefix>, addr: Addr) returns (r: bool)
    ensures r == IsTrustedBy(net, allowed, net.normalize(addr))
  {
    var a := net.normalize(addr);
    for i := 0 to |allowed|
      invariant forall k :: 0 <= k < i ==> !net.contains(allowed[k], a)
    {
      if net.contains(allowed[i], a) {
        return true;
      }
    }
    return false;
  }

  datatype Basic = Basic(username: Bytes, password: Bytes)

  function Field(data: Data, key: string): Bytes {
    if key in data then data[key] else []
  }

  function NewBasic(sha: string -> Bytes, data: Data): Option<Basic> {
    var username, password := Field(data, "username"), Field(data, "password");
    if username == [] then None
    else if password == [] then None
    else Some(Basic(sha(username), sha(password)))
  }

  predicate Verify(sha: string -> Bytes, b: Basic, credentials: Option<(string, string)>) {
    credentials.Some? && sha(credentials.value.0) == b.username && sha(credentials.value.1) == b.password
  }

  ghost predicate InjectiveSha(sha: string -> Bytes) {
    forall a, b :: sha(a) == sha(b) ==> a == b
  }

  /** The credentials are those of the Secret, and neither is empty. */
  predicate Authentic(data: Data, credentials: Option<(string, string)>) {
    && credentials.Some?
    && "username" in data && data["username"] == credentials.value.0 != ""
    && "password" in data && data["password"] == credentials.value.1 != ""
  }

  /** A Secret lets in exactly its own, nonempty credentials. */
  lemma AuthenticIff(sha: string -> Bytes, data: Data, credentials: Option<(string, string)>)
    requires InjectiveSha(sha)
    ensures NewBasic(sha, data).Some? && Verify(sha, NewBasic(sha, data).value, credentials) <==>
      Authentic(data, credentials)
  {
  }

  /** Whether the auth Secret can let anyone in. */
  predicate AuthUsable(sha: string -> Bytes, s: Secret) {
    s.present && NewBasic(sha, s.data).Some?
  }

  // ---- The pipeline ----

  /** The exposure a request reaches: a plain GET or HEAD of its path from an allowed client. */
  predicate Admitted<Addr, Prefix(==)>(gw: Gateway<Addr, Prefix>, r: Request, e: Exposure<Prefix>) {
    && (r.verb == "GET" || r.verb == "HEAD")
    && !r.forceQuery && r.rawQuery == "" && r.contentLength == 0 && r.transferEncodings == 0
    && ParseRoute(gw.validName, r.path).Some?
    && var name := ParseRoute(gw.validName, r.path).value;
    && name in gw.exposures && gw.exposures[name] == e
    && var who := Resolved(gw.net, gw.trusted, r.remote, r.forwardedFor);
    && who.Client? && IsTrustedBy(gw.net, e.allowed, gw.net.normalize(who.client))
  }

  /** writeBody. */
  function Written(mac: ETags.Mac, r: Request, body: string, uid: string): Reply {
    var etag := ETags.ETag(mac, uid, body);
    if ETags.WeakMatch(r.ifNoneMatch, etag) then Reply(304, etag, "", false, false)
    else Reply(200, etag, if r.verb == "HEAD" then "" else body, false, false)
  }

  /** handleRequest, its checks in order. */
  method HandleRequest<Addr(==), Prefix(==)>(gw: Gateway<Addr, Prefix>, r: Request) returns (a: Answer)
    ensures a == Handled(gw, r)
  {
    var who := Resolve(gw.net, gw.trusted, r.remote, r.forwardedFor);
    if r.verb != "GET" && r.verb != "HEAD" {
      return Answer(Error(405).(allow := true), Outcome("", "", MethodNotAllowed));
    }
    var name := ParseRoute(gw.validName, r.path);
    var ok := name.Some?;
    if r.forceQuery || r.rawQuery != "" || r.contentLength != 0 || r.transferEncodings > 0 {
      ok := false;
    }
    if !ok {
      return Answer(Error(404), Outcome("", "", NoRoute));
    }
    if name.value !in gw.exposures {
      return Answer(Error(404), Outcome("", "", UnknownExposure));
    }
    var e := gw.exposures[name.value];
    if !who.Client? {
      return Answer(Error(404), Outcome(e.name, "", ClientAddressUnresolved));
    }
    var allowed := AllowsClient(gw.net, e.allowed, who.client);
    if !allowed {
      return Answer(Error(404), Outcome(e.name, "", ClientNotAllowed));
    }
    var authSecret := Lookup(gw.secrets, e.auth);
    if !authSecret.present {
      return Answer(Error(503), Outcome(e.name, "", AuthSecretUnavailable));
    }
    var verifier := NewBasic(gw.sha, authSecret.data);
    if verifier.None? {
      return Answer(Error(503), Outcome(e.name, "", AuthSecretMalformed));
    }
    if !Verify(gw.sha, verifier.value, r.credentials) {
      return Answer(Error(401).(challenge := true), Outcome(e.name, "", Unauthorized));
    }
    var source := Lookup(gw.secrets, e.source);
    if !source.present {
      return Answer(Error(503), Outcome(e.name, "", SourceSecretUnavailable));
    }
    var missing, body, _ := ExposureBody(source.data, e.keys);
    FirstMissingIs(source.data, e.keys, missing);
    if missing != "" {
      return Answer(Error(503), Outcome(e.name, missing, ConfiguredKeyMissing));
    }
    var matched := ETags.EtagMatches(r.ifNoneMatch, ETags.ETag(gw.mac, source.uid, body));
    var reply;
    if matched {
      reply := Reply(304, ETags.ETag(gw.mac, source.uid, body), "", false, false);
    } else {
      reply := Reply(200, ETags.ETag(gw.mac, source.uid, body), if r.verb == "HEAD" then "" else body, false, false);
    }
    return Answer(reply, Outcome(e.name, "", if reply.status == 304 then NotModified else Served));
  }

  /** The first configured key that is missing, "" if there is none, or if that key is the empty one. */
  function Missing(data: Data, keys: seq<string>): string {
    if keys == [] then "" else if keys[0] !in data then keys[0] else Missing(data, keys[1..])
  }

  lemma {:induction false} FirstMissingIs(data: Data, keys: seq<string>, missing: string)
    requires HasAll(data, keys) ==> missing == ""
    requires !HasAll(data, keys) ==>
      exists i :: 0 <= i < |keys| && keys[i] == missing && missing !in data && HasAll(data, keys[..i])
    ensures missing == Missing(data, keys)
  {
    if keys != [] {
      assert keys == [keys[0]] + keys[1..];
      if keys[0] in data {
        if !HasAll(data, keys) {
          var i :| 0 <= i < |keys| && keys[i] == missing && missing !in data && HasAll(data, keys[..i]);
          assert keys[1..][i - 1] == missing;
          forall k | k in keys[1..][..i - 1] ensures k in data {
            assert k in keys[..i];
          }
        }
        FirstMissingIs(data, keys[1..], missing);
      } else {
        var i :| 0 <= i < |keys| && keys[i] == missing && HasAll(data, keys[..i]);
        if i > 0 { assert keys[0] in keys[..i]; }
      }
    }
  }

  lemma {:induction false} MissingIsEmptyIff(data: Data, keys: seq<string>)
    requires "" !in keys
    ensures Missing(data, keys) == "" <==> HasAll(data, keys)
  {
    if keys != [] {
      assert keys == [keys[0]] + keys[1..];
      MissingIsEmptyIff(data, keys[1..]);
    }
  }

  /** What happens to a request that reached its exposure with the right credentials. */
  function Delivered(mac: ETags.Mac, r: Request, e: Exposure, source: Secret): Answer {
    if !source.present then Answer(Error(503), Outcome(e.name, "", SourceSecretUnavailable))
    else
      var missing := Missing(source.data, e.keys);
      if missing != "" then Answer(Error(503), Outcome(e.name, missing, ConfiguredKeyMissing))
      else
        var body := if HasAll(source.data, e.keys) then Body(source.data, e.keys) else "";
        var reply := Written(mac, r, body, source.uid);
        Answer(reply, Outcome(e.name, "", if reply.status == 304 then NotModified else Served))
  }

  /** The pipeline as a function: what was reached decides, in the documented order. */
  function Handled<Addr, Prefix(==)>(gw: Gateway<Addr, Prefix>, r: Request): Answer {
    var route := ParseRoute(gw.validName, r.path);
    if r.verb != "GET" && r.verb != "HEAD" then Answer(Error(405).(allow := true), Outcome("", "", MethodNotAllowed))
    else if route.None? || r.forceQuery || r.rawQuery != "" || r.contentLength != 0 || r.transferEncodings > 0 then
      Answer(Error(404), Outcome("", "", NoRoute))
    else if route.value !in gw.exposures then Answer(Error(404), Outcome("", "", UnknownExposure))
    else
      var e := gw.exposures[route.value];
      var auth := Lookup(gw.secrets, e.auth);
      if !Resolved(gw.net, gw.trusted, r.remote, r.forwardedFor).Client? then
        Answer(Error(404), Outcome(e.name, "", ClientAddressUnresolved))
      else if !Admitted(gw, r, e) then Answer(Error(404), Outcome(e.name, "", ClientNotAllowed))
      else if !auth.present then Answer(Error(503), Outcome(e.name, "", AuthSecretUnavailable))
      else if NewBasic(gw.sha, auth.data).None? then Answer(Error(503), Outcome(e.name, "", AuthSecretMalformed))
      else if !Verify(gw.sha, NewBasic(gw.sha, auth.data).value, r.credentials) then
        Answer(Error(401).(challenge := true), Outcome(e.name, "", Unauthorized))
      else Delivered(gw.mac, r, e, Lookup(gw.secrets, e.source))
  }

  // ---- What every request is answered ----

  /** A request for a resource and nothing else: no query, no body. */
  predicate Plain(r: Request) {
    !r.forceQuery && r.rawQuery == "" && r.contentLength == 0 && r.transferEncodings == 0
  }

  /** The client's address is known and lies in an allowed network. */
  ghost predicate FromAllowed<Addr, Prefix>(gw: Gateway<Addr, Prefix>, r: Request, e: Exposure<Prefix>) {
    var who := Resolved(gw.net, gw.trusted, r.remote, r.forwardedFor);
    who.Client? && exists k :: 0 <= k < |e.allowed| && gw.net.contains(e.allowed[k], gw.net.normalize(who.client))
  }

  /** The request's path is that of exposure `e`, configured under `name`. */
  predicate Addresses<Addr, Prefix(==)>(gw: Gateway<Addr, Prefix>, r: Request, e: Exposure<Prefix>, name: string) {
    && name in gw.exposures && gw.exposures[name] == e
    && r.path == "/exposures/" + name && '/' !in name && gw.validName(name)
  }

  lemma AdmittedIff<Addr, Prefix>(gw: Gateway<Addr, Prefix>, r: Request, e: Exposure<Prefix>)
    ensures Admitted(gw, r, e) <==>
      && r.verb in ["GET", "HEAD"] && Plain(r) && FromAllowed(gw, r, e)
      && exists name :: Addresses(gw, r, e, name)
  {
    forall name ensures Addresses(gw, r, e, name) ==> ParseRoute(gw.validName, r.path) == Some(name) {
      assert ParseRoute(gw.validName, r.path) == Some(name) <==>
        r.path == PREFIX + name && '/' !in name && gw.validName(name);
    }
    if Admitted(gw, r, e) {
      var name := ParseRoute(gw.validName, r.path).value;
      assert ParseRoute(gw.validName, r.path) == Some(name);
      assert Addresses(gw, r, e, name);
    }
  }

  /** The auth Secret is there with a user name and a password that are not empty. */
  predicate AuthReady(s: Secret) {
    s.present && "username" in s.data && s.data["username"] != [] && "password" in s.data && s.data["password"] != []
  }

  lemma UsableIff(sha: string -> Bytes, s: Secret)
    ensures AuthUsable(sha, s) <==> AuthReady(s)
  {
  }

  /** Some key that the exposure shows is not in its source Secret, or there is no source Secret. */
  predicate Incomplete(secrets: map<Ref, Secret>, e: Exposure) {
    !Lookup(secrets, e.source).present || exists k :: k in e.keys && k !in Lookup(secrets, e.source).data
  }

  /** The credentials are not those of the auth Secret, which is ready. */
  predicate Rejected(secrets: map<Ref, Secret>, r: Request, e: Exposure) {
    AuthReady(Lookup(secrets, e.auth)) && !Authentic(Lookup(secrets, e.auth).data, r.credentials)
  }

  /** The auth Secret is not ready, or the credentials are its own and the source is not complete. */
  predicate OutOfService(secrets: map<Ref, Secret>, r: Request, e: Exposure) {
    var auth := Lookup(secrets, e.auth);
    !AuthReady(auth) || (Authentic(auth.data, r.credentials) && Incomplete(secrets, e))
  }

  /** The classes of answers, for a request that reached exposure `e`. */
  lemma StatusWhenAdmitted<Addr, Prefix>(gw: Gateway<Addr, Prefix>, r: Request, e: Exposure<Prefix>)
    requires InjectiveSha(gw.sha) && Admitted(gw, r, e) && "" !in e.keys
    ensures var reply := Handled(gw, r).reply;
      if Rejected(gw.secrets, r, e) then reply == Reply(401, "", "", false, true)
      else if OutOfService(gw.secrets, r, e) then reply == Reply(503, "", "", false, false)
      else reply.status in [200, 304] && !reply.allow && !reply.challenge
  {
    AuthenticIff(gw.sha, Lookup(gw.secrets, e.auth).data, r.credentials);
    MissingIsEmptyIff(Lookup(gw.secrets, e.source).data, e.keys);
  }

  lemma StatusWhenRefused<Addr, Prefix>(gw: Gateway<Addr, Prefix>, r: Request)
    requires forall e :: !Admitted(gw, r, e)
    ensures Handled(gw, r).reply ==
      if r.verb in ["GET", "HEAD"] then Reply(404, "", "", false, false) else Reply(405, "", "", true, false)
  {
  }

  /** Every answer belongs to one class, which the request, the configuration and the cache decide: 405 with Allow for
      a method other than GET and HEAD, 404 for what reaches no exposure, 401 with a challenge for credentials that are
      not those of a usable auth Secret, 503 for an auth Secret that is not usable or, to the right credentials, for a
      source that is not complete, and otherwise 200 or 304. */
  lemma StatusIff<Addr, Prefix>(gw: Gateway<Addr, Prefix>, r: Request)
    requires InjectiveSha(gw.sha) && forall name :: name in gw.exposures ==> "" !in gw.exposures[name].keys
    ensures var reply := Handled(gw, r).reply;
      && reply.status in [200, 304, 401, 404, 405, 503]
      && (reply.status == 405 <==> r.verb !in ["GET", "HEAD"]) && (reply.allow <==> reply.status == 405)
      && (reply.status == 404 <==> r.verb in ["GET", "HEAD"] && forall e :: !Admitted(gw, r, e))
      && (reply.status == 401 <==> exists e :: Admitted(gw, r, e) && Rejected(gw.secrets, r, e))
      && (reply.challenge <==> reply.status == 401)
      && (reply.status == 503 <==> exists e :: Admitted(gw, r, e) && OutOfService(gw.secrets, r, e))
  {
    if e :| Admitted(gw, r, e) {
      StatusWhenAdmitted(gw, r, e);
      AdmittedIsOne(gw, r, e);
    } else {
      StatusWhenRefused(gw, r);
    }
  }

  lemma AdmittedIsOne<Addr, Prefix>(gw: Gateway<Addr, Prefix>, r: Request, e: Exposure<Prefix>)
    requires Admitted(gw, r, e)
    ensures forall e' :: Admitted(gw, r, e') <==> e' == e
    ensures exists name :: name in gw.exposures && gw.exposures[name] == e
  {
  }

  /** What is answered to the right credentials while everything is there: the body of exactly the configured keys under
      its own tag, or the tag alone to a client that already has it, and to HEAD. */
  lemma SnapshotIsServed<Addr, Prefix>(gw: Gateway<Addr, Prefix>, r: Request, e: Exposure<Prefix>)
    requires InjectiveSha(gw.sha) && Admitted(gw, r, e) && "" !in e.keys && !Incomplete(gw.secrets, e)
    requires var auth := Lookup(gw.secrets, e.auth); AuthReady(auth) && Authentic(auth.data, r.credentials)
    ensures var source := Lookup(gw.secrets, e.source);
      var body := Body(source.data, e.keys);
      var tag := ETags.ETag(gw.mac, source.uid, body);
      Handled(gw, r).reply ==
        if ETags.WeakMatch(r.ifNoneMatch, tag) then Reply(304, tag, "", false, false)
        else Reply(200, tag, if r.verb == "HEAD" then "" else body, false, false)
  {
    AuthenticIff(gw.sha, Lookup(gw.secrets, e.auth).data, r.credentials);
    MissingIsEmptyIff(Lookup(gw.secrets, e.source).data, e.keys);
  }

  /** HEAD is GET without the body. */
  lemma HeadIsGet<Addr, Prefix>(gw: Gateway<Addr, Prefix>, r: Request)
    ensures var got := Handled(gw, r.(verb := "GET"));
      Handled(gw, r.(verb := "HEAD")) == got.(reply := got.reply.(body := ""))
  {
    var route := ParseRoute(gw.validName, r.path);
    if route.Some? && route.value in gw.exposures {
      var e := gw.exposures[route.value];
      assert Admitted(gw, r.(verb := "HEAD"), e) <==> Admitted(gw, r.(verb := "GET"), e);
    }
  }

  /** The first key of the exposure that `data` does not have. */
  predicate IsFirstMissing(data: Data, keys: seq<string>, key: string) {
    exists i :: 0 <= i < |keys| && keys[i] == key && key !in data && forall j :: 0 <= j < i ==> keys[j] in data
  }

  lemma {:induction false} MissingIsFirst(data: Data, keys: seq<string>)
    requires Missing(data, keys) != ""
    ensures IsFirstMissing(data, keys, Missing(data, keys))
  {
    if keys[0] in data {
      var rest, key := keys[1..], Missing(data, keys);
      MissingIsFirst(data, rest);
      var i :| 0 <= i < |rest| && rest[i] == key && key !in data && forall j :: 0 <= j < i ==> rest[j] in data;
      assert keys[i + 1] == key;
      forall j | 0 <= j < i + 1 ensures keys[j] in data {
        assert j > 0 ==> keys[j] == rest[j - 1];
      }
    } else {
      assert keys[0] == Missing(data, keys);
    }
  }

  /** What the operator is told of a request that reached exposure `e`, and why. */
  lemma ReasonWhenAdmitted<Addr, Prefix>(gw: Gateway<Addr, Prefix>, r: Request, e: Exposure<Prefix>)
    requires InjectiveSha(gw.sha) && Admitted(gw, r, e) && "" !in e.keys
    ensures var o, status := Handled(gw, r).outcome, Handled(gw, r).reply.status;
      var auth, source := Lookup(gw.secrets, e.auth), Lookup(gw.secrets, e.source);
      && o.name == e.name && (o.key != "" ==> o.reason == ConfiguredKeyMissing)
      && (o.reason == AuthSecretUnavailable <==> !auth.present)
      && (o.reason == AuthSecretMalformed <==> auth.present && !AuthReady(auth))
      && (o.reason == Unauthorized <==> status == 401)
      && (status == 503 && AuthReady(auth) ==> o.reason in [SourceSecretUnavailable, ConfiguredKeyMissing])
      && (o.reason == SourceSecretUnavailable ==> !source.present)
      && (o.reason == ConfiguredKeyMissing ==> source.present && IsFirstMissing(source.data, e.keys, o.key))
      && (o.reason == NotModified <==> status == 304) && (o.reason == Served <==> status == 200)
  {
    var source := Lookup(gw.secrets, e.source);
    AuthenticIff(gw.sha, Lookup(gw.secrets, e.auth).data, r.credentials);
    if Missing(source.data, e.keys) != "" {
      MissingIsFirst(source.data, e.keys);
    }
  }

  /** And of one that reached none. Only a configured exposure is named. */
  lemma ReasonWhenRefused<Addr, Prefix>(gw: Gateway<Addr, Prefix>, r: Request)
    requires forall e :: !Admitted(gw, r, e)
    ensures var o, route := Handled(gw, r).outcome, ParseRoute(gw.validName, r.path);
      var known := route.Some? && route.value in gw.exposures;
      var verb := r.verb in ["GET", "HEAD"];
      && o.key == "" && o.name == (if verb && Plain(r) && known then gw.exposures[route.value].name else "")
      && (o.reason == MethodNotAllowed <==> !verb)
      && (o.reason == NoRoute <==> verb && (route.None? || !Plain(r)))
      && (o.reason == UnknownExposure <==> verb && route.Some? && Plain(r) && !known)
      && (o.reason == ClientAddressUnresolved <==>
            verb && Plain(r) && known && !Resolved(gw.net, gw.trusted, r.remote, r.forwardedFor).Client?)
      && (o.reason == ClientNotAllowed <==>
            verb && Plain(r) && known && Resolved(gw.net, gw.trusted, r.remote, r.forwardedFor).Client?)
  {
    var route := ParseRoute(gw.validName, r.path);
    if route.Some? && route.value in gw.exposures {
      assert !Admitted(gw, r, gw.exposures[route.value]);
    }
  }

  // ---- What callers can and cannot learn ----

  predicate Answered(a: Answer) {
    a.reply.status == 200 || a.reply.status == 304
  }

  /** The gauge: exposure_healthy. */
  predicate Healthy(sha: string -> Bytes, secrets: map<Ref, Secret>, e: Exposure) {
    && Lookup(secrets, e.source).present && AuthUsable(sha, Lookup(secrets, e.auth))
    && HasAll(Lookup(secrets, e.source).data, e.keys)
  }

  /** stateCollector.Collect: one gauge for each exposure, computed key by key. */
  method Collect<Prefix>(sha: string -> Bytes, secrets: map<Ref, Secret>, exposures: seq<Exposure<Prefix>>)
    returns (gauges: seq<bool>)
    ensures |gauges| == |exposures|
    ensures forall i :: 0 <= i < |exposures| ==> gauges[i] == Healthy(sha, secrets, exposures[i])
  {
    gauges := [];
    for i := 0 to |exposures|
      invariant |gauges| == i
      invariant forall m :: 0 <= m < i ==> gauges[m] == Healthy(sha, secrets, exposures[m])
    {
      var e := exposures[i];
      var src := Lookup(secrets, e.source);
      var authSecret := Lookup(secrets, e.auth);
      var authValid := false;
      if authSecret.present {
        authValid := NewBasic(sha, authSecret.data).Some?;
      }
      var healthy := src.present && authValid;
      for j := 0 to |e.keys|
        invariant healthy == (src.present && authValid && HasAll(src.data, e.keys[..j]))
      {
        assert e.keys[..j + 1] == e.keys[..j] + [e.keys[j]];
        healthy := healthy && e.keys[j] in src.data;
      }
      assert e.keys[..|e.keys|] == e.keys;
      gauges := gauges + [healthy];
    }
  }

  /** With nonempty keys, a request that reaches an exposure is answered with its snapshot, or 304, exactly when
      the gauge says healthy and the credentials are those of the auth Secret. */
  lemma AnsweredIffHealthy<Addr, Prefix>(gw: Gateway<Addr, Prefix>, r: Request, e: Exposure<Prefix>)
    requires InjectiveSha(gw.sha) && Admitted(gw, r, e) && "" !in e.keys
    ensures Answered(Handled(gw, r)) <==>
      Healthy(gw.sha, gw.secrets, e) && Authentic(Lookup(gw.secrets, e.auth).data, r.credentials)
  {
    var auth := Lookup(gw.secrets, e.auth);
    AuthenticIff(gw.sha, auth.data, r.credentials);
    MissingIsEmptyIff(Lookup(gw.secrets, e.source).data, e.keys);
  }

  /** A cache in which everything but the empty key is there, for both Secrets of `e`. */
  function AllButEmptyKey(keys: seq<string>, user: Bytes, password: Bytes): Data {
    map k | k in keys + ["username", "password"] && k != "" ::
      if k == "username" then user else if k == "password" then password else []
  }

  lemma {:induction false} MissingEmptyKey(data: Data, keys: seq<string>)
    requires forall k :: k in keys && k != "" ==> k in data
    ensures Missing(data, keys) == ""
  {
    if keys != [] {
      assert keys == [keys[0]] + keys[1..];
      MissingEmptyKey(data, keys[1..]);
    }
  }

  /** The handler and the gauge agree on every cached state exactly when no configured key is empty: a missing ""
      looks like success to the handler, which then serves an empty body. */
  lemma GaugeAgreesIffNoEmptyKey<Addr, Prefix>(gw: Gateway<Addr, Prefix>, r: Request, e: Exposure<Prefix>,
      user: Bytes, password: Bytes)
    requires InjectiveSha(gw.sha) && Admitted(gw, r, e)
    requires r.credentials == Some((user, password)) && user != [] && password != []
    ensures "" !in e.keys <==>
      forall secrets: map<Ref, Secret> ::
        Answered(Handled(gw.(secrets := secrets), r)) <==>
          Healthy(gw.sha, secrets, e) && Authentic(Lookup(secrets, e.auth).data, r.credentials)
  {
    if "" !in e.keys {
      forall secrets: map<Ref, Secret> ensures Answered(Handled(gw.(secrets := secrets), r)) <==>
        Healthy(gw.sha, secrets, e) && Authentic(Lookup(secrets, e.auth).data, r.credentials)
      {
        AnsweredIffHealthy(gw.(secrets := secrets), r, e);
      }
    } else {
      var secrets := EmptyKeyMissing(gw, r, e, user, password);
    }
  }

  /** The cache that tells them apart: everything there but the empty key. */
  lemma EmptyKeyMissing<Addr, Prefix>(gw: Gateway<Addr, Prefix>, r: Request, e: Exposure<Prefix>, user: Bytes,
      password: Bytes)
    returns (secrets: map<Ref, Secret>)
    requires InjectiveSha(gw.sha) && Admitted(gw, r, e) && "" in e.keys
    requires r.credentials == Some((user, password)) && user != [] && password != []
    ensures Answered(Handled(gw.(secrets := secrets), r)) && !Healthy(gw.sha, secrets, e)
  {
    var data := AllButEmptyKey(e.keys, user, password);
    var s := Secret(true, true, data, 1, "uid");
    secrets := map[e.source := s, e.auth := s];
    assert "username" in data && "password" in data && "" !in data;
    AuthenticIff(gw.sha, data, r.credentials);
    var gw' := gw.(secrets := secrets);
    assert Authentic(data, r.credentials) && Admitted(gw', r, e);
    assert Handled(gw', r) == Delivered(gw.mac, r, e, s);
    MissingEmptyKey(data, e.keys);
    WrittenAnswers(gw.mac, r, e, s);
  }

  lemma WrittenAnswers(mac: ETags.Mac, r: Request, e: Exposure, source: Secret)
    requires source.present && Missing(source.data, e.keys) == ""
    ensures Answered(Delivered(mac, r, e, source))
  {
  }

  /** From outside its allow-list, an exposure that exists cannot be told from one that does not. */
  lemma HiddenFromOutsiders<Addr, Prefix>(gw: Gateway<Addr, Prefix>, r: Request, name: string)
    requires name in gw.exposures && !Admitted(gw, r, gw.exposures[name])
    ensures Handled(gw, r).reply == Handled(gw.(exposures := gw.exposures - {name}), r).reply
  {
  }

  /** Without the right credentials nothing about the source Secrets or the configured keys shows: the reply is the
      same whatever they are. */
  lemma KeysHiddenWithoutCredentials<Addr, Prefix>(
      gw: Gateway<Addr, Prefix>, r: Request, name: string, keys: seq<string>, source: Ref, secrets: map<Ref, Secret>)
    requires InjectiveSha(gw.sha) && name in gw.exposures
    requires var route := ParseRoute(gw.validName, r.path);
      route.Some? && route.value in gw.exposures ==>
        var auth := gw.exposures[route.value].auth;
        Lookup(secrets, auth) == Lookup(gw.secrets, auth) && !Authentic(Lookup(secrets, auth).data, r.credentials)
    ensures var e' := gw.exposures[name].(keys := keys, source := source);
      Handled(gw, r).reply == Handled(gw.(exposures := gw.exposures[name := e'], secrets := secrets), r).reply
  {
    var e' := gw.exposures[name].(keys := keys, source := source);
    var gw' := gw.(exposures := gw.exposures[name := e'], secrets := secrets);
    var route := ParseRoute(gw.validName, r.path);
    if route.Some? && route.value in gw.exposures {
      var e := gw.exposures[route.value];
      AuthenticIff(gw.sha, Lookup(gw.secrets, e.auth).data, r.credentials);
      assert gw'.exposures[route.value].auth == e.auth && gw'.exposures[route.value].allowed == e.allowed;
      assert Admitted(gw, r, e) <==> Admitted(gw', r, gw'.exposures[route.value]);
    }
  }

  /** Only what is configured is ever served: the whole answer is unchanged by whatever else a Secret holds. */
  lemma OnlyConfiguredKeysAreServed<Addr, Prefix>(gw: Gateway<Addr, Prefix>, r: Request, e: Exposure<Prefix>,
      data: Data)
    requires Admitted(gw, r, e) && e.source in gw.secrets && e.auth != e.source
    requires forall k :: k in e.keys ==> (k in data <==> k in gw.secrets[e.source].data)
    requires forall k :: k in e.keys && k in data && k in gw.secrets[e.source].data ==>
      data[k] == gw.secrets[e.source].data[k]
    ensures Handled(gw, r) == Handled(gw.(secrets := gw.secrets[e.source := gw.secrets[e.source].(data := data)]), r)
  {
    var s := gw.secrets[e.source];
    var gw' := gw.(secrets := gw.secrets[e.source := s.(data := data)]);
    assert Admitted(gw', r, e);
    MissingDepends(s.data, data, e.keys);
    if HasAll(s.data, e.keys) {
      BodyIsCanonical(s.data, data, e.keys, e.keys);
    }
    assert Delivered(gw.mac, r, e, s) == Delivered(gw.mac, r, e, s.(data := data));
  }

  lemma {:induction false} MissingDepends(data: Data, data': Data, keys: seq<string>)
    requires forall k :: k in keys ==> (k in data <==> k in data')
    ensures Missing(data, keys) == Missing(data', keys) && (HasAll(data, keys) <==> HasAll(data', keys))
  {
    if keys != [] {
      assert keys == [keys[0]] + keys[1..];
      MissingDepends(data, data', keys[1..]);
    }
  }
}
