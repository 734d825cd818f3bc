/** A gateway and an agent, each started from a configuration its validation has accepted. */
module Deployment {
  import opened Text
  import opened Disk
  import opened SyncProtocol
  import opened SyncInvariant
  import opened SyncTheorems
  import opened SyncRecovery
  import opened EndToEnd
  import AgentConfig
  import GatewayConfig
  import Serving
  import ETags
  import Cache = CacheProtocol

  /** Two documents and one exposure of each, the agent's of the gateway's name. */
  datatype Pair<!Prefix> = Pair(
    gatewayLib: GatewayConfig.Lib<Prefix>,
    gatewayDoc: GatewayConfig.Document,
    j: nat,
    agentLib: AgentConfig.Lib,
    agentDoc: AgentConfig.Document,
    i: nat,
    stateDir: string)

  /** Both documents are accepted, and the targets stay clear of state files and temporary names. */
  ghost predicate Accepted<Prefix>(p: Pair<Prefix>) {
    && GatewayConfig.DocumentOk(p.gatewayLib, p.gatewayDoc) && GatewayConfig.KeysPlain(p.gatewayLib)
    && p.j < |p.gatewayDoc.exposures|
    && AgentConfig.DocumentOk(p.agentLib, p.agentDoc) && AgentConfig.NamesPlain(p.agentLib)
    && p.i < |p.agentDoc.exposures| && p.agentDoc.exposures[p.i].name == p.gatewayDoc.exposures[p.j].name
    && AgentConfig.TargetsClear(AgentConfig.Resolution(p.agentLib, p.agentDoc), p.stateDir)
  }

  ghost function Served<Prefix>(p: Pair<Prefix>): Serving.Exposure<Prefix>
    requires Accepted(p)
  {
    GatewayConfig.Resolution(p.gatewayLib, p.gatewayDoc).exposures[p.j]
  }

  ghost function TargetsOf<Prefix>(p: Pair<Prefix>): seq<Target>
    requires Accepted(p)
  {
    AgentConfig.Resolution(p.agentLib, p.agentDoc).exposures[p.i].exposure.targets
  }

  /** The host, along a run of the gateway's watcher of the source Secret. */
  ghost function HostOf<Prefix>(p: Pair<Prefix>, mac: ETags.Mac, steps: seq<Cache.Label>, powerLoss: bool,
      flushFails: bool): World
    requires Accepted(p)
  {
    AgentConfig.WorldOf(AgentConfig.Resolution(p.agentLib, p.agentDoc), p.i, p.stateDir,
                        ServedAlong(mac, Served(p), Served(p).source, steps), powerLoss, flushFails)
  }

  /** Acceptance is all that the theorems ask of the configurations. */
  lemma AcceptedIsReady<Prefix>(p: Pair<Prefix>, mac: ETags.Mac, steps: seq<Cache.Label>, powerLoss: bool,
      flushFails: bool)
    requires Accepted(p) && !(powerLoss && flushFails)
    ensures PlainKeys(Served(p).keys) && Sound(HostOf(p, mac, steps, powerLoss, flushFails))
    ensures HostOf(p, mac, steps, powerLoss, flushFails).replies == ServedAlong(mac, Served(p), Served(p).source, steps)
    ensures HostOf(p, mac, steps, powerLoss, flushFails).exposure.name == Served(p).name
  {
    GatewayConfig.AcceptedIsServable(p.gatewayLib, p.gatewayDoc, p.j);
    var replies := ServedAlong(mac, Served(p), Served(p).source, steps);
    AgentConfig.AcceptedIsSound(p.agentLib, p.agentDoc, p.stateDir, replies, p.i, powerLoss, flushFails);
    AgentConfig.EachOk(p.agentLib, p.agentDoc.exposures);
  }

  /** From two accepted documents to the files. If the Secret is never set back under one UID, then over every run of
      the gateway's watcher and of the host, a host that would be told "not modified" is up to date with the gateway,
      and with the API whenever the cache has converged. */
  lemma AcceptedDelivers<Prefix>(
      p: Pair<Prefix>, mac: ETags.Mac, steps: seq<Cache.Label>, powerLoss: bool, flushFails: bool, labels: seq<Label>)
    requires Accepted(p) && !(powerLoss && flushFails) && ETags.Injective(mac)
    requires NeverSetBack(Served(p).keys, TargetsOf(p), Cache.Run(Served(p).source, Cache.START, steps).log)
    ensures var w := HostOf(p, mac, steps, powerLoss, flushFails); var s := Run(w, Init(w), labels);
      Trusted(w, s) ==>
        && UpToDate(w, s)
        && var c := Cache.Run(Served(p).source, Cache.START, steps[..s.now]);
           Cache.Converged(c) ==>
             Cache.Current(c).Some? && HoldsObject(w, s.disk, Cache.Current(c).value) &&
             forall k: nat :: k < |w.Targets()| ==> HasMode(w, s.disk, k)
  {
    AcceptedIsReady(p, mac, steps, powerLoss, flushFails);
    var w := HostOf(p, mac, steps, powerLoss, flushFails);
    UpToDateWithTheApi(mac, Served(p), Served(p).source, steps, w, labels);
  }

  /** Delivery. Let the watcher have lost nothing and have nothing left to receive, and let the host be in any state
      that crashes, failures, deletions and power losses can lead to. If what the gateway serves has every target key,
      then one undisturbed Sync leaves every target present, with its mode, holding the value the API holds. */
  lemma OneSyncDelivers<Prefix>(
      p: Pair<Prefix>, mac: ETags.Mac, steps: seq<Cache.Label>, powerLoss: bool, flushFails: bool, labels: seq<Label>,
      sync: seq<Label>)
    requires Accepted(p) && !(powerLoss && flushFails) && ETags.Injective(mac)
    requires NeverSetBack(Served(p).keys, TargetsOf(p), Cache.Run(Served(p).source, Cache.START, steps).log)
    requires forall l :: l in steps ==> Cache.Lossless(l)
    requires var c := Cache.Run(Served(p).source, Cache.START, steps);
      c.pc.Watching? && forall k :: 0 <= k < |c.pc.queue| ==> c.pc.queue[k].Stray?
    requires var w := HostOf(p, mac, steps, powerLoss, flushFails); var s := Run(w, Init(w), labels);
      s.now == |steps| && s.pc.Idle? && w.Installable(s.now) && Smooth(w, s, sync)
    ensures var w := HostOf(p, mac, steps, powerLoss, flushFails); var r := Run(w, Init(w), labels + sync);
      var api := Cache.Current(Cache.Run(Served(p).source, Cache.START, steps));
      && r.pc.Idle? && api.Some? && HoldsObject(w, r.disk, api.value)
      && forall k: nat :: k < |w.Targets()| ==> HasMode(w, r.disk, k)
  {
    AcceptedIsReady(p, mac, steps, powerLoss, flushFails);
    var w := HostOf(p, mac, steps, powerLoss, flushFails);
    Cache.DrainedIsConverged(Served(p).source, steps);
    OneSyncReachesTheApi(mac, Served(p), Served(p).source, steps, w, labels, sync);
  }
}
