# Verified model of kube-secret-gateway

kube-secret-gateway delivers Kubernetes Secrets to hosts. The gateway watches a fixed set of Secrets, keeps them in
memory and serves each configured exposure as one JSON snapshot under an ETag. The agent polls an exposure, writes its
target files, runs a change command and stores the ETag last. This project models both halves in Dafny and proves what
holds over every run of them. `dafny verify dfyconfig.toml` checks everything.

## How it is organised

| file | what it holds |
|---|---|
| `Text`, `Disk` | byte strings; files, renames, directory flushes and what a power loss can leave |
| `SyncProtocol`, `SyncInvariant`, `SyncSteps` | the agent's Sync, one system call a step, against an environment that rotates Secrets, fails calls, crashes the process, cuts the power, deletes and chmods targets and runs other exposures; the invariant of every step |
| `SyncTheorems`, `SyncStamp`, `SyncWitness`, `SyncInstall`, `SyncIsolation`, `SyncPresence`, `SyncPowerLoss`, `SyncRecovery` | what follows for every run, and runs that show each premise is needed |
| `Runner` | Sync as the loops and local variables it is, proved to follow the step machine |
| `Base64`, `Snapshot`, `SnapshotReader`, `ETags` | the served body, its reader, entity tags and If-None-Match |
| `SecretApi`, `SecretCache`, `SecretMemory`, `CacheProtocol`, `Watcher` | the API as a history, the cached state and its memory, the list/watch/reconcile protocol, and the watcher as a program |
| `Retry`, `RefOrder`, `Barrier` | retry delays on 64-bit durations; sorted references; the initialization barrier |
| `ClientIp`, `Serving` | X-Forwarded-For resolution; the request pipeline, credentials and the health gauge |
| `AgentConfig`, `GatewayConfig` | validation of both configurations, and the premises it establishes |
| `EndToEnd`, `SetBack`, `Deployment` | API history to files on the host; the exact condition on the API; the same from two accepted configurations |

The agent's machine is a function `Next` on labels; a label that does not apply leaves the state alone, so every
sequence of labels is a run. Files carry the index of the reply they were written from (`ver`); no step reads it.
Library functions (HMAC, SHA-256, address, URL and duration parsing, regular expressions) are parameters, with
injectivity of HMAC and SHA-256 as the only facts assumed of them besides what a key or name pattern excludes.

## Results that differ from what one might expect

* "The stored tag describes the files" is not an invariant. After a partial install of V2, a gateway that returns to V1
  answers 304 to a host with mixed files. `SyncWitness.TrustIffNoRelapse` gives the exact condition: a 304 is always
  right if and only if the gateway never returns to a tag after serving other target values in between.
  `SetBack.TrustIffNeverSetBack` carries that condition back to the API: the Secret is never set back to earlier values
  under one UID.
* The comment at agent/internal/fetch/fetch.go:206-208 says that keeping the old tag makes a failed command be retried.
  It is not when the failed installation was of the tag already stored (a repair of a deleted file):
  `SyncWitness.FailedRepairIsNotRetried`. `SyncRecovery.RerunIff` has the exact condition, readable from the disk before
  the call: an undisturbed Sync runs the command, once, if and only if the tag that `currentETag` would return is not
  the one being served.
* A directory flush whose error is ignored together with a power loss can leave a new tag without its files:
  `SyncWitness.UnflushedPowerLossMisleads`. With flushes that succeed it cannot:
  `SyncPowerLoss.SurvivingTagMeansSurvivingRenames`. `SyncWitness.TrustIffNoRelapseAndFlushed` has the exact condition.
* The cache can be older than the last successful reconciliation: `CacheProtocol.ConfirmedThenOutdated`. It can exactly
  when the get confirmed an absence while an event that shows the Secret present is queued:
  `CacheProtocol.OutdatedIff`.
* The retry delay follows min(initial * 2^(k-1), max) for every k if and only if max is below 2^62 ns; otherwise the
  doubling wraps around and drawing the delay panics (`Retry.BackoffLaw`, `Retry.DelayPanicsIff`).
* The handler and the health gauge agree on every cached state if and only if no configured key is empty
  (`Serving.GaugeAgreesIffNoEmptyKey`); validation excludes that key (`GatewayConfig.AcceptedIsServable`).

## Model

| member | source | states |
|---|---|---|
| SyncSteps.RunKeepsInv | agent/internal/fetch/fetch.go:156-351 | every run keeps the invariant: whatever can be found on disk is a complete copy of a past reply, and no target, nor anything the consumer loaded, is older than any tag that can be found |
| SyncTheorems.CommitTheorem | agent/internal/fetch/fetch.go:156-240 | over every run, a stored tag that would earn a 304 stands for targets that are present, with their modes and the served values, and for a change command that has succeeded on that tag, given that the gateway never returns to a tag after other values |
| SyncTheorems.NotModifiedMeansCurrent | agent/internal/fetch/fetch.go:172-176 | at the moment a Sync is told "not modified", every target that exists holds the value being served |
| SyncTheorems.CommitInstallsOneSnapshot | agent/internal/fetch/fetch.go:193-213 | a commit leaves the targets holding one reply and stores that reply's tag; whatever is there is of that reply, and a target is missing only if it was deleted after this Sync renamed it |
| SyncPresence.PlacedIsThere | agent/internal/fetch/fetch.go:292-297 | over every run with failures, power losses and other exposures, a target that the Sync at work has renamed is there unless it was deleted since |
| SyncTheorems.CommitReruns | agent/internal/fetch/fetch.go:201-211 | every commit has a success of the change command since any earlier point at which its Sync had not passed the command, its own fetch in particular |
| SyncTheorems.RetryEndsReloaded | agent/internal/fetch/fetch.go:193-213 | the commit that ends an owed installation ends it with the command rerun, after any failed attempts, crashes and power losses |
| SyncStamp.ChangesAreStamped | agent/internal/fetch/fetch.go:193-211 | over every run, each commit and each success of the change command has a complete installation and a write of the stamp since any earlier point at which its Sync had not renamed all targets, its own fetch in particular, and the stamp file shows that very write, of the very reply installed |
| SyncStamp.StampIsSafe | agent/internal/fetch/fetch.go:246-268 | whenever the stamp is written every target holds one and the same reply, and is missing only if it was deleted after this Sync renamed it, so no reload falls between two renames |
| SyncTheorems.Accounting | agent/internal/metrics/metrics.go:109-125 | over every run, attempts = errors + unchanged + changes, and changes are exactly the tags written |
| SyncTheorems.RetryUntilCommitted | agent/internal/fetch/fetch.go:193-213 | once another tag has begun to be installed, then until a tag is written no Sync is told "not modified" and every answered fetch installs again, across crashes and power losses |
| SyncTheorems.RenameStartsOwing | agent/internal/fetch/fetch.go:292-297 | the first rename of a tag other than any that can be found stored starts that obligation |
| SyncTheorems.ReinstallsIff | agent/internal/fetch/fetch.go:167-193 | over every run, the fetch step of a Sync leads to an installation if and only if the tag sent is not the tag served |
| SyncTheorems.EtagOnlyCommitted | agent/internal/fetch/fetch.go:209-211 | nothing but a commit or a power loss changes the tag file |
| SyncTheorems.PollOfUnchanged | agent/internal/fetch/fetch.go:167-176 | a poll of an unchanged exposure sends the stored tag, is told "not modified", and changes nothing but the counters |
| SyncTheorems.CommitThenPoll | agent/internal/fetch/fetch.go:209-239 | after a commit with nothing changed, the next poll sends the committed tag through the newline and trim, and writes nothing |
| SyncWitness.RelapseMisleads | agent/internal/fetch/fetch.go:172-213 | for every world in which a tag returns after other values, a run that ends trusted with wrong files |
| SyncWitness.TrustIffNoRelapse | agent/internal/fetch/fetch.go:156-240 | the commit theorem holds of a world if and only if the gateway never returns to a tag after other target values |
| SyncWitness.UnflushedPowerLossMisleads | agent/internal/fetch/fetch.go:298-304 | for any two installable replies that differ in a target value, a run in which failed flushes and a power loss leave the later tag with the earlier target |
| SyncWitness.TrustIffNoRelapseAndFlushed | agent/internal/fetch/fetch.go:156-305 | where two replies differ, a 304 is always right if and only if the gateway never returns to a tag after other values and power losses do not come together with failing flushes |
| SyncWitness.FailedRepairIsNotRetried | agent/internal/fetch/fetch.go:201-211 | a run in which a repair of the stored tag fails at the command and the next poll is told "not modified" |
| SyncPowerLoss.SurvivingTagMeansSurvivingRenames | agent/internal/fetch/fetch.go:292-305 | un-flushed operations lost in any subset at any moment: a tag found afterwards means every target that nobody deletes is there, and whatever is there is complete and from that tag's reply or a later one |
| SyncPowerLoss.OnlyCommitsAddTags | agent/internal/fetch/fetch.go:209-211 | no step but a commit makes a tag possible that could not be found before |
| SyncInstall.InstallIsPrefixUpdate | agent/internal/fetch/fetch.go:274-306 | at every point of a Sync, whatever failed and whatever the gateway and other exposures do meanwhile, compared with the disk it staged on the first j targets hold the new value and mode and the others are untouched, j being the renames done |
| SyncInstall.FailedStagingTouchesNothing | agent/internal/fetch/fetch.go:285-291 | if staging any one target fails, at whatever step, the Sync renames nothing and no target changes, before or after |
| SyncInstall.TempFilesRemoved | agent/internal/fetch/fetch.go:276-283 | if removals succeed and the process does not die, no temporary file of the exposure is left when a Sync returns but those that were there before, whatever else is on the disk and other exposures do |
| SyncRecovery.SyncReturns | agent/internal/fetch/fetch.go:156-214 | whatever its calls return and whatever happens between them, a Sync has returned or died with the process within a bound on its calls computed from where it is |
| SyncRecovery.SmoothExists | agent/internal/fetch/fetch.go:156-214 | from any point of any reachable state a Sync can be completed with every call succeeding, unused temporary names included |
| SyncRecovery.OneGoodSyncRecovers | agent/internal/fetch/fetch.go:156-240 | from every reachable state, one Sync whose calls succeed undisturbed ends up to date, or reports the refusal and touches nothing |
| SyncRecovery.RerunIff | agent/internal/fetch/fetch.go:156-240 | from every reachable state, one undisturbed Sync of an installable reply runs the change command once if the tag the disk offers is not the one served, and not at all otherwise |
| SyncIsolation.TempOwnerUnique | agent/internal/fetch/fetch.go:313 | a temporary name belongs to one destination |
| SyncIsolation.FootprintsDisjoint | agent/internal/fetch/fetch.go:242-252 | exposures that own different files have disjoint footprints, temporary files included |
| SyncIsolation.OthersDoNotInterfere | agent/internal/fetch/fetch.go:120-130 | whatever other exposures do in between, an exposure ends with the files, tag, counters and place its own steps alone give, power losses leaving the same |
| SyncIsolation.InterleavingIsHarmless | agent/internal/fetch/fetch.go:120-130 | in every interleaving of any number of exposures on one disk, with crashes of the process and power losses that they share, each ends as if it had run alone |
| Runner.MissingKeys | agent/internal/fetch/fetch.go:181-187 | exactly the target keys the response lacks |
| Runner.Host.CurrentETag | agent/internal/fetch/fetch.go:220-240 | follows the machine: "" unless every target is present with its mode and a tag is stored, then the trimmed tag |
| Runner.Host.WriteTemp | agent/internal/fetch/fetch.go:311-337 | creates, fills and on failure removes the file the machine stages, with the content and mode it stages |
| Runner.Host.Install | agent/internal/fetch/fetch.go:274-306 | stages each target's own value and mode beside its path, renames the staged names in order, flushes the directories, and removes exactly what was not renamed on failure, as the machine does |
| Runner.Host.Sync | agent/internal/fetch/fetch.go:156-214 | returns (true, no error) exactly when it stored one reply's tag over that reply's values, wrote the stamp for that reply once, the file being what that write left, and ran the command once on it, every target being there that nobody deleted during this Sync; reports a change exactly when it renamed all targets; without a change nothing is stamped or run; every other return leaves the stored tag alone; each attempt is counted with its outcome |
| Runner.Host.WriteFile | agent/internal/fetch/fetch.go:341-351 | succeeds exactly by committing the given tag, after which no target holds anything but the committed reply |
| Runner.Host.TouchStamp | agent/internal/fetch/fetch.go:258-268 | a success rewrites the stamp in place, so that it shows this write and no earlier one |
| SyncProtocol.DirsAre | agent/internal/fetch/fetch.go:298-304 | the directories flushed are those of the targets, each once |
| ETags.HexInjective | gateway/internal/server/server.go:332-336 | hexadecimal text determines the digest |
| ETags.HexIs | gateway/internal/server/server.go:335 | byte i of the digest is two lower-case hexadecimal digits at 2i and 2i + 1, the high one first |
| ETags.TagIs | gateway/internal/server/server.go:332-336 | a tag is exactly the digest's digits between `"hmac-sha256:` and a closing quote |
| ETags.ETagIdentifies | gateway/internal/server/server.go:321-336 | two tags are equal if and only if UID and body are |
| ETags.EtagMatches | gateway/internal/server/server.go:358-369 | the loops decide weak matching over every candidate of every header line |
| ETags.SingleTagMatch | gateway/internal/server/server.go:358-369 | a single gateway tag is matched by itself alone |
| ETags.WeakenedTagMatches | gateway/internal/server/server.go:363-364 | a weakened tag and `*` match |
| ETags.ListMatchesIff | gateway/internal/server/server.go:358-369 | a list of tags written over any header lines, with commas and spaces, matches if and only if the tag, weakened or not, or `*` is anywhere in it |
| Text.TrimSpaceIs | gateway/internal/server/server.go:361 | trimming removes exactly the white space at both ends |
| Text.SplitCommaIs | gateway/internal/server/server.go:360 | splitting cuts at every comma and nowhere else |
| ETags.NotModifiedIffUnchanged | gateway/internal/server/server.go:339-348 | a stored tag gets 304 if and only if UID and body are unchanged |
| Base64.RoundTrip | gateway/internal/server/server.go:314 | decoding undoes encoding, padding included; EncodeIsStandard and DecodeIff fix both against the RFC |
| Base64.EncodeIsStandard | gateway/internal/server/server.go:314 | character i of group g is the letter of the RFC 4648 alphabet for its six of the group's 24 bits, or padding where the data has ended, for every input (section 4 of RFC 4648) |
| Base64.DecodeIff | agent/internal/gateway/gateway.go:112-116 | decoding succeeds exactly for whole groups of letters with padding at the end alone |
| Base64.EncodeLength | gateway/internal/server/server.go:299-302 | the encoded length is EncodedLen |
| Snapshot.SortIsSorting | gateway/internal/server/server.go:298 | sorting gives a sorted permutation |
| Snapshot.LeIs | gateway/internal/server/server.go:298 | the order is that of the first characters that differ, a text coming after its beginnings |
| Snapshot.SortIgnoresOrder | gateway/internal/server/server.go:286-290 | the order of the configured keys does not matter |
| Snapshot.FirstMissing | gateway/internal/server/server.go:292-297 | the first configured key that is absent, or none exactly when all are present |
| Snapshot.BodyLength | gateway/internal/server/server.go:299-302 | the body is one byte shorter than the capacity reserved for it |
| Snapshot.Print | gateway/internal/server/server.go:304-318 | the buffer filled part by part is the joined list of members |
| Snapshot.ExposureBody | gateway/internal/server/server.go:291-319 | the canonical body and its reserved size when all keys are present, otherwise the first missing key and no body |
| Snapshot.BodyIs | gateway/internal/server/server.go:298-318 | the body is, character by character, a JSON object without spaces, its members in byte order of the keys, each key with its value in base64 |
| Snapshot.BodyIsCanonical | gateway/internal/server/server.go:283-290 | the body is unchanged by permuting the keys and by anything not configured |
| SnapshotReader.BodyRoundTrip | agent/internal/gateway/gateway.go:112-123 | reading the body gives exactly the configured part of the Secret, with nothing left over |
| SnapshotReader.BodyIsInjective | gateway/internal/server/server.go:286-290 | equal bodies show equal data |
| SnapshotReader.TruncatedBodyIsBad | agent/internal/gateway/gateway.go:113-116 | no proper prefix of a body reads as an object |
| SnapshotReader.FetchAcceptsIffItFits | agent/internal/gateway/gateway.go:100-124 | a served body is accepted if and only if it fits the agent's limit, and then yields the configured values under the gateway's tag |
| SnapshotReader.TrailingDataIff | agent/internal/gateway/gateway.go:119-123 | a body with anything after it is accepted if and only if that is white space |
| SnapshotReader.FetchByStatus | agent/internal/gateway/gateway.go:100-119 | 304 alone means unchanged, only 200 with a tag brings values, under that tag, and only from an object |
| ClientIp.LastComma | gateway/internal/clientip/clientip.go:63 | the last comma, or -1 when there is none |
| ClientIp.Resolve | gateway/internal/clientip/clientip.go:43-88 | the nested right-to-left walk terminates and equals a scan of the flat list of entries of all non-blank lines, which the next two rows describe |
| ClientIp.UntrustedPeerIsTheClient | gateway/internal/clientip/clientip.go:48-52 | a peer that is no trusted proxy is the client, whatever the header says |
| ClientIp.InvalidRemoteIff | gateway/internal/clientip/clientip.go:44-47 | resolution fails for the remote address exactly when that does not parse |
| ClientIp.TrustedPeerNamesTheClient | gateway/internal/clientip/clientip.go:54-88 | behind a trusted peer the client is the rightmost entry that is no trusted proxy, the leftmost entry if all are proxies, the peer if there is none, and nobody if an entry met on the way does not parse |
| ClientIp.WalkLine | gateway/internal/clientip/clientip.go:61-83 | the inner walk over one line answers, or hands on, what the scan of the line's entries says |
| ClientIp.LeftIsIgnored | gateway/internal/clientip/clientip.go:76-79 | nothing left of the first untrusted entry matters |
| ClientIp.JoiningLinesIsNeutral | gateway/internal/clientip/clientip.go:55-68 | joining adjacent non-blank header lines with a comma changes nothing (section 5.3 of RFC 9110) |
| ClientIp.BlankLinesAreIgnored | gateway/internal/clientip/clientip.go:58-60 | blank lines change nothing |
| ClientIp.MalformedIff | gateway/internal/clientip/clientip.go:69-75 | resolution fails closed if and only if an unparsable entry has only trusted proxies to its right |
| SecretApi.ToldIsAfter | gateway/internal/kubernetes/kubetest/fake.go:103-111 | a watch from N is told every recorded change after N, in order, and no other |
| SecretApi.RecordingIsConsistent | gateway/internal/kubernetes/kubetest/fake.go:193-199 | a recorded change keeps version, objects and recorded events in line with the history of every Secret |
| SecretApi.FakeAPI.ListSecret | gateway/internal/kubernetes/kubetest/fake.go:73-88 | the current object, if any, and the version of the list |
| SecretApi.FakeAPI.GetSecret | gateway/internal/kubernetes/kubetest/fake.go:117-129 | the state at the end of the history |
| SecretApi.FakeAPI.WatchSecret | gateway/internal/kubernetes/kubetest/fake.go:91-114 | one more open watch, holding the events of every notified change after the version, or none if the version does not parse |
| SecretApi.FakeAPI.CloseWatches | gateway/internal/kubernetes/kubetest/fake.go:219-227 | no watch of the Secret is open afterwards |
| SecretApi.FakeAPI.Record | gateway/internal/kubernetes/kubetest/fake.go:193-205 | one change extends one history and, unless silent, reaches every open watch |
| SecretApi.FakeAPI.Apply | gateway/internal/kubernetes/kubetest/fake.go:149-174 | a known Secret keeps its UID, a new one gets its own, and the history grows by that object |
| SecretApi.FakeAPI.Delete | gateway/internal/kubernetes/kubetest/fake.go:176-190 | the history grows by an absence if the Secret existed, and is unchanged otherwise |
| SecretCache.FaultsKeepTheState | gateway/internal/resources/manager.go:302-456 | failed or foreign lists, malformed or foreign events and failed gets leave the cached state alone, errors of a cancelled manager are not counted, what is stored is what was received, and Synced never reverts |
| SecretCache.EventMeans | gateway/internal/resources/manager.go:385-423 | for every event, the state stored, the error counted and whether the watch is kept |
| SecretCache.GetMeans | gateway/internal/resources/manager.go:428-456 | for every answer of a get, the state and time stored, the error counted, and that the watch is kept exactly when presence and version are those cached |
| SecretCache.ListMeans | gateway/internal/resources/manager.go:298-331 | for every answer of a list, the first object of this Secret or absence stored with the time, or the error counted |
| SecretCache.Resource.Store | gateway/internal/resources/manager.go:492-512 | replaces the state, and moves the time of the last full retrieval only for one |
| SecretCache.Resource.HandleEvent | gateway/internal/resources/manager.go:385-423 | applies or refuses one event and says whether the watch is kept |
| SecretCache.Resource.Reconcile | gateway/internal/resources/manager.go:428-456 | stores the fetched state and keeps the watch exactly when it confirms presence and version, as GetMeans spells out |
| SecretCache.Resource.List | gateway/internal/resources/manager.go:298-331 | stores the first matching item, absence for an empty list, and nothing for foreign items |
| SecretMemory.CloneData | gateway/internal/resources/manager.go:498-501 | the same bytes under the same keys, every value in new memory |
| SecretMemory.Slot.Store | gateway/internal/resources/manager.go:492-512 | the cache holds the bytes the object held, in memory nobody else has |
| SecretMemory.SnapshotsNeverChange | gateway/internal/resources/manager.go:490-518 | however often the client writes into its memory and delivers objects that are stored, a snapshot handed out keeps its bytes |
| CacheProtocol.RunKeepsInv | gateway/internal/resources/manager.go:298-456 | every run keeps the invariant that ties the cached state to one history entry, and the queue and the answers not stored yet to later ones |
| CacheProtocol.ChangeIsQueued | gateway/internal/kubernetes/kubetest/fake.go:193-205 | a change queues exactly the event the API delivers and rewrites nothing queued |
| CacheProtocol.OpenReplays | gateway/internal/kubernetes/kubetest/fake.go:91-114 | a new watch starts with exactly the events the API replays |
| CacheProtocol.CacheIsExplained | gateway/internal/resources/manager.go:298-456 | in every run there are never decreasing history indices such that each cached state is the API state at its index |
| CacheProtocol.SyncedIsForGood | gateway/internal/resources/manager.go:486-518 | an established state stays established, connected means watching, and a present state is an object of this Secret from the history |
| CacheProtocol.OpenIsComplete | gateway/internal/resources/manager.go:328-338 | a list at N and a watch from N together cover the history |
| CacheProtocol.DrainedIsConverged | gateway/internal/resources/manager.go:333-379 | in a run that loses nothing, a watch with no events left means the cache is the API state |
| CacheProtocol.DrainingConverges | gateway/internal/resources/manager.go:369-376 | receiving the queued events and bookmarks of a complete watch converges in as many steps |
| CacheProtocol.ListConverges | gateway/internal/resources/manager.go:328-330 | whatever was lost, storing a list that was answered with the state the API is still in converges |
| CacheProtocol.ReconcileConverges | gateway/internal/resources/manager.go:428-456 | one successful reconciliation with nothing queued converges, and stays so while the API is quiet |
| CacheProtocol.WatchKeptIff | gateway/internal/resources/manager.go:448-455 | in every reachable state a reconciliation keeps the watch and all it holds if and only if the cache already shows what the API holds, and lists anew otherwise |
| CacheProtocol.ConfirmedThenOutdated | gateway/internal/resources/manager.go:448-455 | one such run from the start |
| CacheProtocol.OutdatedIff | gateway/internal/resources/manager.go:428-456 | after a successful reconciliation some run of a quiet API shows an outdated state if and only if the get confirmed an absence while the event of a change that left the Secret present is queued |
| CacheProtocol.ErrorsAreCounted | gateway/internal/resources/manager.go:540-550 | over every run the two error counters count exactly the watches and the retrievals that failed, those of a cancelled manager excepted |
| CacheProtocol.UidNamesIncarnation | gateway/internal/kubernetes/kubetest/fake.go:149-174 | over every run two entries of the history have one UID if and only if the Secret is there all the way between them: a recreated Secret never has an earlier UID |
| Watcher.Watcher.List | gateway/internal/resources/manager.go:298-331 | follows the protocol, the API moving on between answer and store, with failing, foreign and panicking clients |
| Watcher.Watcher.Watch | gateway/internal/resources/manager.go:354-379 | the event loop follows the protocol and leaves the watch disconnected |
| Watcher.Watcher.Cycle | gateway/internal/resources/manager.go:272-294 | recovers from panics, lists once, and is healthy if and only if the list was stored, nothing panicked and the watch lasted the stable duration from then on |
| Watcher.Watcher.RunLoop | gateway/internal/resources/manager.go:246-267 | however the client behaves, two list requests are never closer than the stable duration or half the first delay, and the delay after k unhealthy cycles in a row is drawn around the base after k failures |
| Watcher.DelayAfterStreak | gateway/internal/resources/manager.go:253-263 | with a cap below 2^62 that delay lies between half of min(initial * 2^(k-1), max) and all of it |
| Retry.WithDefaults | gateway/internal/resources/manager.go:101-118 | each of the six durations is positive, the cap is no less than the first delay, and valid options are kept |
| Retry.DefaultsAre | gateway/internal/resources/manager.go:101-118 | the default of each of the six durations, and when it is used |
| Retry.Backoff.Next | gateway/internal/resources/manager.go:557-567 | the next base and a delay drawn around it, on wrapping durations |
| Retry.BackoffLaw | gateway/internal/resources/manager.go:557-562 | the base after k failures is min(initial * 2^(k-1), max) for every k if and only if the cap is below 2^62 |
| Retry.DelayRange | gateway/internal/resources/manager.go:563-566 | the possible delays are exactly those from half the base to the base |
| Retry.DelayPanicsIff | gateway/internal/resources/manager.go:557-567 | a retry can panic if and only if the cap is 2^62 or more |
| Retry.SpacedTakes | gateway/internal/resources/manager.go:246-267 | n list attempts take at least n - 1 gaps |
| Barrier.BarrierLaw | gateway/internal/resources/manager.go:240-294 | under every interleaving: pending is the number of onces not fired, the channel is closed at most once, only when every Secret was attempted or given up on, and always then |
| Barrier.ExitedIsInitialized | gateway/internal/resources/manager.go:246-249 | when all watchers have exited, however early, the barrier is open |
| Barrier.InitializedIsForGood | gateway/internal/resources/manager.go:186-193 | an open barrier stays open |
| Barrier.StepsOpen | gateway/internal/resources/manager.go:240-294 | the barrier opens: four steps of each launched watcher are enough, under every interleaving and outcome |
| Barrier.ListLeadsOn | gateway/internal/resources/manager.go:253-294 | a list that went well leads to a watch, one that failed or panicked to a delay |
| Barrier.CancelledExits | gateway/internal/resources/manager.go:246-267 | once cancelled, a watcher has exited after nine steps of its own, wherever it was and whatever panics |
| Barrier.Manager.constructor | gateway/internal/resources/manager.go:139-165 | duplicates share one entry, the entries are in order, pending counts them, and the barrier is open only for none |
| Barrier.Manager.CountOnce | gateway/internal/resources/manager.go:240-244 | a reference counts once, and the last one closes |
| Serving.ParseRoute | gateway/internal/server/server.go:275-281 | a name exactly for /exposures/ followed by a valid name without a slash |
| Serving.AllowsClient | gateway/internal/exposure/exposure.go:54-62 | true if and only if some allowed network contains the normalized address |
| Serving.AuthenticIff | gateway/internal/auth/auth.go:40-67 | a Secret lets in exactly its own nonempty credentials |
| Serving.HandleRequest | gateway/internal/server/server.go:199-272 | the checks in their order are the pipeline function that the lemmas below describe: StatusIff its statuses, SnapshotIsServed its bodies and tags, ReasonWhenAdmitted and ReasonWhenRefused what is recorded |
| Serving.StatusIff | gateway/internal/server/server.go:199-272 | 405 with Allow iff the method is neither GET nor HEAD; 404 iff it is but no exposure is reached; 401 with the challenge iff one is, its auth Secret is usable and the credentials are not its own; 503 iff one is and the auth Secret is not usable, or the credentials are right and the source is not complete; else 200 or 304 |
| Serving.AdmittedIff | gateway/internal/server/server.go:209-238 | an exposure is reached iff the method is GET or HEAD, the path is /exposures/ and its valid name, there is no query and no body, and the resolved client lies in an allowed network |
| Serving.SnapshotIsServed | gateway/internal/server/server.go:261-271 | to the right credentials with all keys there: exactly the configured keys under their tag, 304 and the tag alone to a client that has it, no body to HEAD |
| Serving.HeadIsGet | gateway/internal/server/server.go:339-355 | HEAD is answered and recorded as GET is, without the body |
| Serving.ReasonWhenAdmitted | gateway/internal/server/server.go:240-271 | the reason, name and missing key recorded for a request that reached its exposure; the key is the first configured one that is absent |
| Serving.ReasonWhenRefused | gateway/internal/server/server.go:209-238 | the reason and name recorded for one that reached none |
| Serving.Collect | gateway/internal/metrics/metrics.go:155-178 | each gauge is 1 exactly when source, credentials and every key are there |
| Serving.AnsweredIffHealthy | gateway/internal/server/server.go:240-271 | an admitted request gets 200 or 304 if and only if the gauge is 1 and its credentials are right |
| Serving.GaugeAgreesIffNoEmptyKey | gateway/internal/server/server.go:261-266 | handler and gauge agree on every cached state if and only if no configured key is empty |
| Serving.HiddenFromOutsiders | gateway/internal/server/server.go:190-193 | a client outside the allow-list gets the same reply whether or not the exposure exists |
| Serving.KeysHiddenWithoutCredentials | gateway/internal/server/server.go:195-196 | without the right credentials for the exposure reached, the reply does not depend on source Secrets or keys |
| Serving.OnlyConfiguredKeysAreServed | gateway/internal/server/server.go:283-287 | what else a Secret holds changes nothing of the answer |
| GatewayConfig.Validator.SecretRef | gateway/internal/config/config.go:253-269 | no problem exactly for a valid reference, resolved with the default namespace |
| GatewayConfig.Validator.Prefixes | gateway/internal/config/config.go:271-292 | no problem exactly when every CIDR parses and no network repeats |
| GatewayConfig.Validator.Keys | gateway/internal/config/config.go:304-324 | no problem exactly for a nonempty list of distinct valid keys, returned unchanged |
| GatewayConfig.Validator.ResolveExposures | gateway/internal/config/config.go:217-229 | no problem exactly when every exposure is valid and names are unique |
| GatewayConfig.Resolve | gateway/internal/config/config.go:178-235 | a configuration exactly for the valid documents, and then the one they describe |
| GatewayConfig.RefusedIff | gateway/internal/config/config.go:178-391 | a document is refused if and only if it has one of the problems listed there, each stated by itself: one for every message of the validator |
| GatewayConfig.AcceptedExposureIs | gateway/internal/config/config.go:237-324 | an accepted exposure has the document's name and keys, the document's networks, as source the document's secretRef and as auth the document's auth, each with the default namespace where it has none |
| GatewayConfig.AcceptedServerIs | gateway/internal/config/config.go:189-213 | listeners, TLS files, proxies, metrics credentials and interval are the document's or the default, within bounds, and the listeners do not compete for a port |
| GatewayConfig.Handlers | gateway/internal/server/server.go:114-133 | every exposure by its name, refused exactly when a name repeats |
| GatewayConfig.ReferencedSecrets | gateway/internal/exposure/exposure.go:66-79 | exactly the source and auth Secrets of the exposures, in order, each once |
| RefOrder.SortRefsIsSorting | gateway/internal/exposure/exposure.go:29-32 | sorting by namespace and name gives the same references in order |
| RefOrder.SortedByNamespace | gateway/internal/exposure/exposure.go:29-32 | in order, the references of a namespace are together, by name, and the namespaces are in order |
| GatewayConfig.AcceptedIsServable | gateway/internal/config/config.go:237-324 | accepted exposures have nonempty, distinct, escape-free keys, valid references and unique names |
| AgentConfig.Mode | agent/internal/config/config.go:310-318 | an accepted mode has permission bits only |
| AgentConfig.ModeIff | agent/internal/config/config.go:310-318 | a mode is accepted exactly if it is left out, and then is 0600, or is octal with a leading 0 and no more than permission bits |
| AgentConfig.OctalDigits | agent/internal/config/config.go:311 | the octal digits of the value are the characters of the text, and there are no others |
| AgentConfig.ResolveTargets | agent/internal/config/config.go:275-321 | no problem exactly when all targets are valid, keys are distinct, and cleaned paths are distinct and not taken |
| AgentConfig.ResolveExposures | agent/internal/config/config.go:224-323 | no problem exactly when all exposures are valid, names are unique and every path is used once |
| AgentConfig.Resolve | agent/internal/config/config.go:177-329 | a configuration exactly for the valid documents, and then the one they describe |
| AgentConfig.RefusedIff | agent/internal/config/config.go:177-329 | a document is refused if and only if it has one of the problems listed there, each stated by itself |
| AgentConfig.AcceptedExposureIs | agent/internal/config/config.go:224-323 | an accepted exposure has the document's name, credentials, command, targets and modes, and its interval or five minutes, within bounds |
| AgentConfig.AcceptedGatewayIs | agent/internal/config/config.go:182-222 | URL without its last slash, CA file, timeout and metrics address are the document's or the default, within bounds |
| AgentConfig.AcceptedIsSound | agent/internal/config/config.go:224-323 | every accepted exposure meets the premises of the synchronization theorems, with power losses or with failing flushes |
| AgentConfig.AcceptedAreApart | agent/internal/config/config.go:224-323 | no two accepted exposures share a file or a temporary name |
| AgentConfig.SeparatedIffClear | agent/internal/config/config.go:294-309 | of an accepted configuration every exposure is well formed and no two share a file if and only if the targets stay clear of state files and temporary names |
| EndToEnd.RepliesFollowHistory | gateway/internal/server/server.go:256-267 | every snapshot served shows one object of the Secret's history, and these never go back |
| EndToEnd.SingleVersion | agent/internal/fetch/fetch.go:172-213 | in every interleaving of API changes, cache updates, requests and syncs, a commit leaves the targets holding one historical version of the source Secret, under its tag; a target is missing only if it was deleted after this Sync renamed it |
| EndToEnd.AnswerIsAfterFetch | agent/internal/gateway/gateway.go:100-124 | at every fetch of every run, what the agent reads from the gateway's actual answer to an admitted, authentic request is the step the protocol takes |
| EndToEnd.ServedRepliesAreGood | gateway/internal/server/server.go:321-336 | served tags are well formed and determine what they are served with |
| EndToEnd.ServedRepliesDoNotRelapse | gateway/internal/server/server.go:321-336 | if the Secret is never set back under one UID, the gateway never returns to a tag after other target values |
| SetBack.SetBackRelapses | gateway/internal/resources/manager.go:298-338 | a history that is set back has a watcher, the one that reads every state, along which the gateway does return to a tag |
| SetBack.TrustIffNeverSetBack | agent/internal/fetch/fetch.go:156-240 | along every watcher of a history a 304 is always right if and only if the Secret is never set back |
| EndToEnd.UpToDateWithTheApi | agent/internal/fetch/fetch.go:156-240 | then a host that would be told "not modified" while the cache has converged holds exactly what the API holds |
| EndToEnd.OneSyncReachesTheApi | agent/internal/fetch/fetch.go:156-240 | once the cache has converged, one undisturbed Sync from any reachable state of the host leaves every target there, with its mode and the API's value |
| Deployment.AcceptedDelivers | agent/internal/config/config.go:177-329 | from two accepted documents: over every run of watcher and host, a trusted tag means the host is up to date with the gateway, and with the API when the cache has converged |
| Deployment.OneSyncDelivers | gateway/internal/config/config.go:178-235 | from two accepted documents and a drained lossless watch, one undisturbed Sync delivers what the API holds to every target |

## Left out

- YAML decoding, flags, process wiring, signals, TLS, HTTP transport and timeouts: I/O.
- Runner.Once, Serve and serveExposure beyond the interleaving of their Syncs: interval timing and jitter.
- Log and error texts; validation reports only whether there are problems and for which part.
- Prometheus registration, the agent's gauges and timestamps, and the gateway's per-request counters.
- SyncTheorems.CommitTheorem: symlinks, ownership and edits of file contents by others are excluded, since the code does not detect them.
- SyncWitness.TrustIffNoRelapseAndFlushed: about worlds with two installable replies that differ in a target value; where all agree, no stale value can be told from a current one.
- AgentConfig.AcceptedIsSound: that no target is a state file, or named like the temporary file of a state file or of another target, is a premise; validation does not check it, and SeparatedIffClear shows that it is needed.
- SnapshotReader.BodyRoundTrip: the reader does not read JSON escapes, numbers or nested values, none of which a canonical body contains.
- ETags.EtagMatches: white space is the ASCII white space of strings.TrimSpace.
- SecretCache.Resource.Store: data are values; the copying and the absence of aliasing are in SecretMemory.Slot, on the data alone.
- SecretApi.FakeAPI.WatchSecret: watches that their reader stopped stay listed, and there is no limit on the events replayed.
- The jitter of the reconcile timer, watch timeouts and WaitSynced: waiting on channels.
- HMAC, SHA-256, constant-time comparison, netip, regular expressions, filepath.Clean and duration parsing: parameters.
- Metrics authentication, readiness endpoints and the TLS reloader: each would only add easy members.
