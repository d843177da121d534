# Verification of the Percona Server for MongoDB provider

The provider turns an Instance into an engine resource (`PerconaServerMongoDB`). Its `Sync`
pass reads live state, renders the resource, applies it and cleans up, while users edit, the
Percona operator works at its own pace, volumes are garbage-collected and the process may die
at any point. This project models the parts of that loop whose correctness depends on *every*
such run, and proves what each run keeps.

`dafny verify dfyconfig.toml` checks everything.

## How it is laid out

| file | content |
|---|---|
| `Text.dfy` | Go's string helpers and decimal integers |
| `HiddenVolumes.dfy` | the hidden members' volume loop on names, and its refinement to ordinals |
| `HiddenProtocol.dfy` | hidden members as a state machine: its steps, runs and the invariant of every run |
| `HiddenDeletions.dfy` | what the volume loop may delete and what it leaves, in every run |
| `HiddenPasses.dfy` | what a complete pass does to the hidden members, running or to be started |
| `HiddenStarts.dfy` | fresh volumes and one storage class after every switch from off to on |
| `HiddenProgress.dfy` | progress of a start held back by old volumes |
| `HiddenLag.dfy` | reachable states in which a lagging operator defeats the code |
| `HiddenHosts.dfy` | the client host list without hidden members |
| `Tls.dfy` | TLS parameters, rendering, the admission and reconcile guards, immutability over runs |
| `ClientCertificates.dfy` | the client-certificate option on configuration trees, and over runs |
| `CrVersion.dfy` | operator discovery, CRVersion convergence, the preflight skew check |
| `CrVersionRuns.dfy` | the versions of a fleet over runs: Syncs, pins, approvals, provider changes |
| `UsersSecret.dfy`, `UsersSecretProtocol.dfy`, `SeedSources.dfy` | the users secret: server-side apply, PMM token and seeded credentials, call by call |
| `Requirements.dfy`, `Exporter.dfy` | the three-valued requirement and the metrics exporter |
| `PmmResources.dfy` | PMM client resources |
| `BackupCleanup.dfy` | backup deletion under the operator's finalizer |
| `PointInTime.dfy` | base selection and the published recovery window |
| `ImportPaths.dfy` | import and restore paths |
| `Rendering.dfy` | validation of engine and hidden members, and what it guarantees of the rendering |

State machines are a `Step` datatype with `Enabled` and `After`; a `Run` is a sequence of states
linked by steps. Theorems on runs speak about the states of the sequence only. Code that loops or
updates objects in the source is a method or a class here, tied by its postcondition to the
function that the lemmas are about.

## Assumptions on the surroundings

- Only `Sync` writes the hidden, TLS, sidecar and PMM sections of the engine resource, one pass at
  a time. API failures are modelled as a pass that ends early, at any call.
- Every read that succeeds returns the object, or the list, as the API server holds it at that
  moment; reads from a lagging cache are outside the model. The hidden-member listings rest on this,
  and so does `RetainedDataIsNeverPurged`: an object read before `SyncBackup` gave it the finalizer
  would be deleted without the finalizer being stripped.
- The operator creates hidden pods and volumes for the StatefulSet as it last reconciled it, and may
  reconcile arbitrarily late. No theorem restricts whole runs in this respect. Three need the
  StatefulSet to have gone, or shrunk, at one particular listing, and each such condition is shown
  to be exact: `StaleStartIffStillRun` for fresh volumes, `DeletesInUseIffExposed` for volumes in use,
  `LeavesVolumeIffStillRun` for volumes left behind. `HiddenLag.dfy` reaches the failing states.
- A deleted volume stays until no pod uses it; a terminating volume is not bound by a new pod.
- Server-side apply follows its ownership rules with forced ownership, so a version left unset stays
  the operator's; the operator only adds missing keys to the users secret.
- The running operator reports the version its image is tagged with, and the preflight target is
  the version the new operator reports. Preflight reads each cluster truthfully or not at all.
  A switch is modelled together with a preflight that passes; `PreflightHoldsIff` says exactly when a
  preflight that passed earlier still holds, whatever happens until the switch.
- The runtime validates before `Sync`, syncs no Instance that is being deleted, and calls
  `SyncBackup` only before a Backup's deletion begins.

Where code and documentation differ, the model follows the code: `internalCertificateSecretName`
is documented as defaulting to the certificate secret (definition/types.go), while the code falls back to a name
derived from the cluster (internal/provider/tls.go:434-439).

## Model

| member | source | states |
|---|---|---|
| HiddenVolumes.OrdinalOfVolume | internal/provider/hidden.go:254-256 | the ordinal parsed from a StatefulSet volume name is the printed one, for every template, set name and ordinal |
| HiddenVolumes.SuffixMatchesOwnPod | internal/provider/hidden.go:261-263 | the suffix test matches pod j for volume i iff i = j |
| HiddenVolumes.VolumeStore.DeleteHiddenVolumes | internal/provider/hidden.go:232-273 | the loop marks exactly the claims of the specification, counts them, succeeds iff no call it makes fails, and otherwise has swept a prefix |
| HiddenVolumes.VolumeStore.Sweep | internal/provider/hidden.go:250-272 | the loop itself, for any way of judging claims: what is marked, what is counted, when it stops early |
| HiddenVolumes.SweepRefinesOrdinals | internal/provider/hidden.go:251-271 | on names of one StatefulSet the sweep deletes exactly the unused ordinals from keepBelow up and touches nothing else |
| HiddenVolumes.RemainingCountsOrdinals | internal/provider/hidden.go:250-272 | the count returned is the number of ordinals from keepBelow up, in use, terminating or just deleted |
| HiddenVolumes.OtherClaimsAreSkipped | internal/provider/hidden.go:256-259 | a claim whose name does not end in a dash and a number is left alone and not counted |
| HiddenVolumes.DeletedIsUnused | internal/provider/hidden.go:261-267 | whatever its name, a claim is deleted only if alive and without a listed pod |
| HiddenProtocol.VerdictIs | internal/provider/hidden.go:251-271 | within a run, the loop's decision on a name equals the decision on the ordinal |
| HiddenProtocol.StepKeepsBase | internal/provider/hidden.go:54-116 | every step, with an operator lagging arbitrarily, keeps the structural invariant of the pass: planning only against a resource without hidden members, running members planned on with the size asked for and their class, cleaning by what was applied |
| HiddenDeletions.DeletionIsSafe | internal/provider/provider.go:298-305 | in every run, however far the operator lags, Sync never deletes a volume whose pod it listed or whose ordinal the live resource still runs, and nobody else deletes one |
| HiddenDeletions.NoVolumeInUseIsDeleted | internal/provider/hidden.go:246-270 | in every run a volume some pod uses is deleted only in a loop whose pods were listed while the StatefulSet still ran an unlisted ordinal the loop was to delete |
| HiddenDeletions.CaughtUpIsUnexposed | internal/provider/hidden.go:246-266 | an operator that runs nothing from keepBelow up as the pods are listed rules that out |
| HiddenDeletions.DeletesInUseIffExposed | internal/provider/hidden.go:246-270 | for every state in which pods are about to be listed, some continuation of that loop deletes a volume in use iff the StatefulSet runs an ordinal from keepBelow up whose volume was listed alive and whose pod is missing |
| HiddenDeletions.SweepIsThorough | internal/provider/hidden.go:220-272 | in every run, a planning or cleaning sweep whose volumes were listed once the operator ran nothing from keepBelow up ends with every volume from there up deleted or terminating, but those whose pod was listed |
| HiddenDeletions.SweepReachesEveryListedVolume | internal/provider/hidden.go:251-270 | in every run, with no condition on the operator, each volume listed from keepBelow up without a listed pod is deleted or terminating at some moment of the sweep |
| HiddenDeletions.LeavesVolumeIffStillRun | internal/provider/hidden.go:238-271 | a sweep can end with an unused volume alive iff the StatefulSet still runs an ordinal from keepBelow up as volumes are listed |
| HiddenPasses.TurnedOffOnlyIfUnwanted | internal/provider/hidden.go:54-58 | in every run, running members are turned off only by the apply of a pass that asks for none |
| HiddenPasses.RunningMembersPass | internal/provider/hidden.go:71-103 | in every run, a complete pass over running members leaves them on with the size asked for and the class they had, or off if none is asked for |
| HiddenPasses.StartingMembersPass | internal/provider/hidden.go:71-116 | in every run, a complete pass asked for members that are off switches on exactly what was asked iff the volumes it listed were none; otherwise they stay off, and the start is pending exactly then |
| HiddenPasses.UnwantedMembersPass | internal/provider/hidden.go:54-58 | in every run, a complete pass asked for none ends with members off and nothing pending |
| HiddenPasses.CleaningFollowsApply | internal/provider/provider.go:298-304 | in every run, the provider's next step after an apply, unless the pass dies there, lists volumes to clean up |
| HiddenPasses.CleaningRemovesUnusedVolumes | internal/provider/hidden.go:220-272 | in every run, that sweep, once finished, leaves no volume from the number asked for up unmarked but those whose pod was listed, if the operator ran nothing from there up at its listing |
| HiddenStarts.SwitchIsPlanned | internal/provider/hidden.go:71-79 | in every run, each switch from off to on goes back to a listing of the same pass that found no volume |
| HiddenStarts.SwitchFindsNoVolume | internal/provider/hidden.go:71-79 | in every run, if the StatefulSet was gone at that listing, no earlier volume exists at the switch |
| HiddenStarts.VolumesAreFresh | internal/provider/hidden.go:46-79 | in every run, a volume present or used while hidden members are on was created after the latest switch and not replaced since, if the StatefulSet was gone at the listing before that switch |
| HiddenStarts.ClassIsConstant | internal/provider/hidden.go:97-103 | in every run the resource keeps one storage class while on, and under the same condition every volume has it |
| HiddenStarts.StaleStartIffStillRun | internal/provider/hidden.go:71-79 | for every state about to list before a start with no volume there, the rest of that pass can switch on over a volume iff the StatefulSet is still there |
| HiddenProgress.StartsIffNothingIsLeft | internal/provider/hidden.go:71-79 | a planning sweep plans a start iff it finds no volume |
| HiddenProgress.EmptyListingStarts | internal/provider/hidden.go:71-116 | in every run, after a listing that finds no volume the apply of that pass switches on exactly what was asked for, and nothing is pending |
| HiddenProgress.OldVolumesOnlyShrink | internal/provider/hidden.go:71-79 | while off, no step adds a volume or pod, marks persist, and collection lowers the number of volumes by one |
| HiddenProgress.SweepMarksEveryOldVolume | internal/provider/hidden.go:251-271 | one planning sweep listed with the StatefulSet and pods gone, anything interleaved, leaves every old volume deleted or terminating |
| HiddenProgress.DrainingCanBeCollected | internal/provider/hidden.go:264-266 | from then on, while off, nothing keeps any volume left from being collected |
| HiddenProgress.HeldStartFinishes | internal/provider/hidden.go:46-116 | in every run, such a sweep, the collection of what it left and any one complete pass end with hidden members on as that pass was asked, without old volumes and with nothing pending |
| HiddenProgress.HeldStartIsNeverStuck | internal/provider/hidden.go:107-116 | from every idle held-back state without old pods that end is reachable |
| HiddenLag.LaggingOperatorBreaksFreshness | internal/provider/hidden.go:71-79 | a reachable state switches on over a volume of a StatefulSet not removed yet |
| HiddenLag.LaggingOperatorDeletesVolumeInUse | internal/provider/hidden.go:246-270 | a reachable state lists the pods while one restarts, and its volume is deleted under the new pod |
| HiddenHosts.HiddenPrefixes | internal/provider/hidden.go:296-315 | one prefix per pod name and per load balancer address, or failure iff a Service is unreadable |
| HiddenHosts.WithoutHiddenHosts | internal/provider/hidden.go:280-327 | the result is the filter on the split list; fails iff a needed read fails; lone hosts and sharded clusters pass through |
| HiddenHosts.PrefixesExact | internal/provider/hidden.go:296-315 | the prefixes are exactly the hidden pods' names and the addresses of their Services |
| HiddenHosts.DroppedIffMatched | internal/provider/hidden.go:296-325 | a host is dropped iff it starts with a hidden pod's name and a dot, or with an address of its Service and a colon |
| HiddenHosts.LoadBalancerHostsDropped | internal/provider/hidden.go:307-325 | a host given by address and port is dropped iff a hidden pod's Service has that address or one that is all of it up to a colon, IPv6 included |
| HiddenHosts.ColonFreeCoversItself | internal/provider/hidden.go:308-313 | without colons the address must be the same: none is taken for a longer one |
| HiddenHosts.BareIPv6CanBeConfused | internal/provider/hidden.go:308-310 | a bare IPv6 host is dropped for a shorter hidden address |
| HiddenHosts.BracketedIPv6IsNotCovered | internal/provider/hidden.go:308-310 | a bracketed IPv6 host is never recognised by the recorded address |
| HiddenHosts.ResultSplitsBack | internal/provider/hidden.go:317-326 | a non-empty result splits back into the kept hosts in order |
| HiddenHosts.NothingToDrop | internal/provider/hidden.go:281-294 | sharded clusters, lone hosts and clusters without hidden pods keep their host text |
| HiddenHosts.FilteringIsIdempotent | internal/provider/hidden.go:280-327 | filtering twice is filtering once |
| HiddenHosts.KeptConcat | internal/provider/hidden.go:317-325 | the filter is a homomorphism on the list, so order is kept |
| HiddenHosts.ExactlyHiddenHostsDropped | internal/provider/hidden.go:274-325 | for operator DNS names, whatever Services the hidden pods have, a hidden ordinal's host is dropped iff its pod is listed or a hidden address starts it, a data-bearing member's iff a hidden address starts it |
| Tls.InstanceParameters | internal/provider/tls.go:59-82 | fails iff undecodable; otherwise mode and issuer kind default, an unnamed issuer is none, and both secret names are kept |
| Tls.Draft.ConfigureTLS | internal/provider/tls.go:102-119 | mode, issuer, both secrets, the use of provided certificates only and the unsafe flag, each from the parameters and keepCertificates |
| Tls.ValidateTLS | internal/provider/tls.go:264-292 | no problem iff the parameters are acceptable, and each problem exactly under its own condition |
| Tls.ValidateTLSTransition | internal/provider/tls.go:301-323 | admission objects exactly to a changed switch and a changed source, and only when both Instances are comparable |
| Tls.ValidateTLSChange | internal/provider/tls.go:391-430 | fails iff the live resource cannot be read; objects exactly to a switch between disabled and not, and to another issuer, certificate or internal secret |
| Tls.SameSourceIff | internal/provider/tls.go:404-421 | what reconcile compares, field by field, an absent section counting as unset |
| Tls.CertificateSourceInjective | internal/provider/tls.go:326-332 | the source text is injective on space-free names |
| Tls.RenderedShows | internal/provider/tls.go:404-421 | the rendered resource shows reconcile exactly the parameters, whatever keepCertificates answered |
| Tls.GuardsAgree | internal/provider/tls.go:294-430 | reconcile accepts every edit admission accepts, and no other except an internal secret spelled as the default |
| Tls.SpellingOutTheDefaultIsAChangeAtAdmission | internal/provider/tls.go:319-319 | valid parameters for which the exception occurs |
| Tls.AcceptedKeepsIdentity | internal/provider/tls.go:391-439 | an accepted change renders the same switch, issuer and secrets |
| Tls.TlsIdentityNeverChanges | internal/provider/provider.go:239-296 | over every run past the reconcile checks, admission bypassed or not, the live switch, issuer and both secrets never change |
| Tls.SyncFollowsInstance | internal/provider/provider.go:239-291 | in every run, what a Sync applies has the mode, the certificate and the provided-only flag of the Instance by then |
| Tls.ModeMayChange | internal/provider/tls.go:391-403 | a run that changes from preferred to required TLS |
| ClientCertificates.WithClientCertificatesOptional | internal/provider/tls.go:222-254 | computes the specified tree, with every early return |
| ClientCertificates.OptionSetIffWellShaped | internal/provider/tls.go:228-247 | the option ends up set iff the configuration is well shaped or had it |
| ClientCertificates.AddedOptionIsTrue | internal/provider/tls.go:244-247 | a well-shaped configuration that says nothing comes out saying true at net.tls.allowConnectionsWithoutCertificates; any other keeps what it says |
| ClientCertificates.OptionIsAPath | internal/provider/tls.go:204-216 | the question asked of the live resource is whether the option's path exists |
| ClientCertificates.AddingOptionIsIdempotent | internal/provider/tls.go:218-247 | idempotent, and an explicit user value stays |
| ClientCertificates.NoOtherPathChanges | internal/provider/tls.go:228-247 | every path but the option's own reads the same before and after |
| ClientCertificates.Draft.AcceptClientsWithoutCertificates | internal/provider/tls.go:153-200 | all components are adjusted, or none while approval is awaited or with TLS off; approval is asked exactly of existing clusters without the option on the first replica set |
| ClientCertificates.UnapprovedChangeIff | internal/provider/tls.go:166-171 | one unapproved pass over an existing cluster changes a configuration iff the live first replica set has the option, with any value, and some well-shaped component lacks it |
| ClientCertificates.UnchangedUntilApproved | internal/provider/tls.go:166-216 | in every unapproved run from a cluster without the option, a pass renders exactly what is configured iff no earlier configuration put the option on the live first replica set or no well-shaped component lacks it; approval is asked exactly until one did |
| ClientCertificates.OptionSpreadsWithoutApproval | internal/provider/tls.go:204-216 | the gate fails: refusing such clients on the replica sets of a sharded cluster makes config server and mongos accept them, unapproved and unasked |
| ClientCertificates.StaysOnceLive | internal/provider/tls.go:202-247 | once live, the option is on every component of every later well-shaped rendering, new shards included, true where the configuration says nothing and as configured otherwise, without a second approval |
| ClientCertificates.CreationOrApprovalSetsIt | internal/provider/tls.go:158-200 | a new or approved cluster gets the option everywhere at once, true where the configuration says nothing |
| CrVersion.TagOfOperatorImage | internal/provider/operator_version.go:86-96 | an image of the operator's repository, in any registry, gives its tag without one leading v |
| CrVersion.DigestIsIgnored | internal/provider/operator_version.go:87-87 | a digest does not matter to the tag |
| CrVersion.OnlyOperatorImagesGiveTags | internal/provider/operator_version.go:88-94 | no other image gives a tag |
| CrVersion.OperatorVersion | internal/provider/operator_version.go:54-80 | the version agreed on by all operator images, failure on conflict or none |
| CrVersion.AgreedMeansUnanimous | internal/provider/operator_version.go:64-79 | a version is found iff every operator image carries it, blank tags before the first aside |
| CrVersion.VersionFoundIff | internal/provider/operator_version.go:64-79 | a version is found iff some container of some Deployment runs it and none runs another |
| CrVersion.ConvergesUpwards | internal/provider/provider.go:103-157 | unset for a new cluster and one not pinned yet; otherwise the operator's version iff it is later, component by component, and approved; failure iff the resource, or the release an upgrade is named after, cannot be read |
| CrVersion.BlockedIff | internal/provider/upgrade.go:85-140 | preflight blocks iff the cluster is later than the target, component by component, of another major or three minors behind; warns iff it cannot tell; and has no issue with an Instance without a pinned engine resource |
| CrVersion.CheckUpgrade | internal/provider/upgrade.go:52-83 | issues are exactly those of Instances not being deleted; none iff all are clear; an unusable target only warns |
| CrVersionRuns.MovesExactlyWithApproval | internal/provider/provider.go:103-145 | a version moves iff the operator pins an unset one or a Sync applies a differing plan, and a Sync plans a move iff it is approved, the cluster lags and the operator was found, to that operator's version |
| CrVersionRuns.EveryMoveWasApproved | internal/provider/provider.go:118-145 | in every run a pinned version changes only to that of an operator found by an earlier approved read of the same Sync, above the version it had then and since |
| CrVersionRuns.ApprovedSyncConverges | internal/provider/provider.go:118-144 | an approved Sync of a lagging cluster, uninterrupted, brings it to the operator's version and changes nothing else |
| CrVersionRuns.NeverDecreases | internal/provider/provider.go:95-157 | over every run a pinned version never decreases: major, minor, patch and pre-release in turn |
| CrVersionRuns.StepKeepsWindowIff | internal/provider/upgrade.go:93-140 | a step keeps every pinned cluster manageable iff it is neither a switch past an unread cluster outside the target's window nor an apply of a version, read earlier, that the operator at the apply does not manage |
| CrVersionRuns.RunKeepsWindowIff | internal/provider/upgrade.go:93-140 | the same as an equivalence over whole runs |
| CrVersionRuns.AlwaysInsideSkewWindow | internal/provider/upgrade.go:110-140 | over every run whose switches read every pinned cluster and do not go below what a Sync under way is to set, each pinned cluster shares the operator's major, lags by at most two minors and is not ahead in patch or pre-release |
| CrVersionRuns.UpgradeIsCareful | internal/provider/upgrade.go:112-131 | a switch upwards that reads every pinned cluster is such a switch, whatever Syncs are under way |
| CrVersionRuns.UnreadClusterFallsOutside | internal/provider/upgrade.go:96-101 | a run in which a cluster that could not be read, and was only warned about, ends up outside the window |
| CrVersionRuns.DowngradeDuringSync | internal/provider/provider.go:138-144 | a run in which a downgrade passes preflight between an approved read and its apply, and the cluster ends up above the operator |
| CrVersionRuns.PreflightIsExact | internal/provider/upgrade.go:73-140 | a preflight that reads everything passes iff the target would manage every pinned cluster as it stands |
| CrVersionRuns.PreflightHoldsIff | internal/provider/upgrade.go:47-140 | a passed preflight holds through every gap before the switch, of any length, iff the target manages the running operator's version and every version a Sync under way is to set |
| CrVersionRuns.PreflightHoldsIffOperatorInside | internal/provider/upgrade.go:47-140 | in states reached by careful switches, iff the target manages the running operator's version |
| CrVersionRuns.PreflightCanGoStale | internal/provider/upgrade.go:47-83 | otherwise two steps suffice: a cluster created and pinned after preflight blocks the target |
| UsersSecret.TokenApplyTouchesNothingElse | internal/provider/pmm.go:297-304 | applying the token, or applying without it, leaves every other key as it was |
| UsersSecret.Secrets.Create | internal/provider/provider.go:567-587 | creates only an absent secret; losing a race is success |
| UsersSecret.Secrets.EnsureUserSecret | internal/provider/provider.go:499-518 | succeeds iff the secret can be read and is there, or the source is and creating it is not refused; copies the source exactly if it was absent |
| UsersSecret.Secrets.EnsureDataSourceCredentials | internal/provider/provider.go:524-564 | succeeds iff the secret is there, the source is not resolved yet, or the resolved source can be copied; an unresolved one copies nothing |
| UsersSecret.Pmm.ApplyPMMBindings | internal/provider/pmm.go:214-252 | required: the token left is that of the last binding that renders, owned by the provider, and PMM is on if the last binding to apply renders, as live if it does not, off without one; otherwise held while unresolved, and the token removed once PMM is off |
| UsersSecret.RenderSetsToken | internal/provider/pmm.go:297-304 | a binding that renders leaves its own token, whatever was there; any other leaves the secret alone |
| UsersSecret.EnableRotateDisableRestores | internal/provider/monitoring.go:52-65 | any number of passes with any bindings and then the removal of the token restore the secret iff it had no token, or nothing but exactly its value was ever rendered |
| UsersSecretProtocol.PmmAlwaysHasToken | internal/provider/pmm.go:214-318 | in every run with crashes after any call, PMM enabled in the live resource implies a non-empty token in the secret |
| UsersSecretProtocol.PmmTouchesOnlyTheToken | internal/provider/pmm.go:297-304 | in every run no PMM step adds, changes or removes another key, and rendering a binding sets the token to the binding's, owned by the provider |
| UsersSecretProtocol.RequiredPass | internal/provider/pmm.go:223-245 | in every run, a pass with PMM required leaves the token of the last binding that renders and applies PMM as the last binding to apply decides, whatever else happens to the secret meanwhile |
| UsersSecretProtocol.PassCanFinish | internal/provider/pmm.go:223-252 | a decided pass can always go on to apply the resource, and a crash sends it back to its start |
| UsersSecretProtocol.OtherPass | internal/provider/pmm.go:246-250 | in every run, a pass without keeps PMM as it is while unresolved, applies it off otherwise, and gives up the provider's token exactly if PMM was off already and is not required |
| UsersSecretProtocol.DisablingTakesTwoPasses | internal/provider/pmm.go:243-250 | PMM goes off in the resource first; the next pass, from its first call, removes the token unless others own it |
| UsersSecretProtocol.StepsSeed | internal/provider/provider.go:499-587 | the seeding calls of a pass, uninterrupted, copy the source's data exactly if the secret is absent |
| UsersSecretProtocol.CredentialsComeFirst | internal/provider/provider.go:258-300 | in every seeded run in which no pass goes on unresolved before the copy, the resource, or a token, exists only once the secret holds the source's credentials |
| UsersSecretProtocol.CredentialsNeverOverwritten | internal/provider/provider.go:495-587 | copied credentials are never overwritten by a later pass |
| UsersSecretProtocol.CopiedFromSource | internal/provider/provider.go:512-564 | what was copied is what the source held at an earlier read |
| UsersSecretProtocol.UnseededIffSkipped | internal/provider/provider.go:531-564 | a pass that applies the resource for the first time does so without copied credentials iff it went on with the source unresolved |
| UsersSecretProtocol.UnresolvedSourceIsNotSeeded | internal/provider/provider.go:536-541 | a pass that goes on unresolved before the copy applies the resource without credentials |
| SeedSources.ValidateUserSecret | internal/provider/validate.go:317-386 | accepted iff the secret fits the backup's origin, with every required key for an external one; each objection and each failed read under its own condition |
| SeedSources.CompleteIs | internal/provider/validate.go:301-312 | the ten keys an external backup's secret must hold |
| SeedSources.DataSourceObjections | internal/provider/validate.go:127-155 | a backup source must name its Backup, and a point in time excludes a user secret |
| SeedSources.SeedingBySource | internal/provider/provider.go:258-275 | a user's secret goes first; a point in time seeds from the Instance it names; anything unnamed goes on unresolved |
| SeedSources.ValidatedBackupSourceSeeds | internal/provider/provider.go:594-623 | with the Backup read once by validation and again by Sync: seeded from the user's secret iff external when validated, unresolved iff the Backup is gone by then or names the empty Instance, ended iff unreadable or without an Instance |
| Exporter.HasMetricsExporter | internal/provider/monitoring_sources.go:103-112 | true iff some replica set carries the exporter |
| Exporter.Draft.ConfigureMetricsExporter | internal/provider/metrics.go:80-115 | the exporter is appended everywhere iff required or held; fails iff a read fails or an exporter is needed without an image; failures leave the draft unchanged |
| Exporter.Draft.MirrorReplsetOntoHidden | internal/provider/hidden.go:169-177 | enabled hidden members get their replica set's configuration and sidecars, others nothing |
| Exporter.RendersComponents | internal/provider/metrics.go:102-115 | component by component, the exporter with the collectors of its kind is added iff required, and nothing else changes |
| Exporter.OneEverywhereOrNone | internal/provider/metrics.go:96-115 | a rendered resource carries exactly one exporter on every component, hidden included, or none |
| Exporter.AnyReplsetDecides | internal/provider/monitoring_sources.go:100-112 | looking at any one replica set answers for all components |
| Exporter.HoldRuleIsMemory | internal/provider/monitoring_sources.go:123-137 | after any passes the live resource carries the exporter iff the last requirement resolved at an applied pass was positive |
| PmmResources.MergeResourceList | internal/provider/pmm.go:168-184 | the requested value, else the default, for CPU and memory; nil when nothing is set |
| PmmResources.MergeResources | internal/provider/pmm.go:144-164 | fails iff a requested request exceeds the merged limit; otherwise no request exceeds its limit |
| BackupCleanup.BackupStore.CleanupBackup | internal/provider/backup.go:760-790 | done iff the object is gone; fails iff a call it makes is refused; and what it leaves in each case |
| BackupCleanup.CleanedUpIs | internal/provider/backup.go:770-786 | Retain leaves nothing; Delete leaves the object terminating under the finalizer, or nothing without it |
| BackupCleanup.StepsCleanUp | internal/provider/backup.go:760-790 | the steps of the runs, uninterrupted, do what the operation does |
| BackupCleanup.SyncProtects | internal/provider/backup.go:348-353 | after SyncBackup there is an object, under the finalizer unless it was terminating without it |
| BackupCleanup.RetainedDataIsNeverPurged | internal/provider/backup.go:770-786 | in every run a Retain backup is purged only if someone else deleted the object under its finalizer before |
| BackupCleanup.DeletionByOthersPurges | internal/provider/backup.go:348-353 | a run in which that exception loses the data of a Retain backup |
| BackupCleanup.DeletedDataIsPurgedBeforeDone | internal/provider/backup.go:348-353 | in every run a Delete backup whose object had the finalizer while its data was stored is reported done only after its purge |
| BackupCleanup.DoneMeansGone | internal/provider/backup.go:757-766 | done implies the object is gone, for good |
| BackupCleanup.DeletionCompletes | internal/provider/backup.go:757-790 | from every synced state a deletion can complete, and the data is left exactly with Retain |
| PointInTime.SelectPITRBaseBackup | internal/provider/backup.go:701-745 | the newest eligible backup at or before the target, the first listed among equals, or none iff none is eligible |
| PointInTime.SelectionIgnoresOrder | internal/provider/backup.go:718-732 | any listing order gives an equally new base |
| PointInTime.SelectionIsMonotone | internal/provider/backup.go:718-732 | a later target never gives an older base nor loses one |
| PointInTime.CollectStorageBackups | internal/provider/backup_status.go:84-104 | exactly the ready backups of the cluster on the storage, as a multiset, oldest first |
| PointInTime.FilteredExactly | internal/provider/backup_status.go:86-99 | the filter keeps exactly completed, ready backups of the cluster whose storage, in the spec or failing that in the status, is the one asked for, as often as listed |
| PointInTime.PitrWindow | internal/provider/backup_status.go:121-153 | earliest is the least completion time, latest the greatest restorable time; unavailable without either |
| PointInTime.PublishedWindow | internal/provider/backup_status.go:42-61 | the published window is the window of the filtered backups |
| PointInTime.WindowIsUnique | internal/provider/backup_status.go:106-153 | the window does not depend on listing or sorting order |
| PointInTime.BaseFoundIffInWindow | internal/provider/backup.go:717-732 | with equal completion times, a base is found iff the target is at or after the published earliest time |
| PointInTime.BaseNeedsReadyBackup | internal/provider/backup_status.go:121-129 | a base found means the storage does not publish that it has no backup |
| ImportPaths.ImportRestoreRoundTrip | internal/provider/backup.go:573-591 | the restore source of an imported Backup leads back to its metadata key iff the key has no leading slash, and its destination is then the key without suffix in the bucket |
| ImportPaths.ImportedPath | internal/provider/backup_import.go:169-190 | an imported Backup carries the key without its suffix |
| ImportPaths.ImportedIffDone | internal/provider/backup_import.go:174-203 | imported iff the status is done, and then retained on the same storage |
| ImportPaths.OutcomesOfRestore | internal/provider/backup.go:545-575 | the exact condition of each outcome: failed, waiting, retried, ready |
| ImportPaths.TrimTakesOffSlashes | internal/provider/backup.go:579-579 | trimming a path takes off slashes at both ends and nothing else |
| ImportPaths.NameSeedInjective | internal/provider/backup_import.go:212-218 | different storages or paths never feed the name hash the same text |
| Rendering.ValidateLimits | internal/provider/validate.go:192-211 | accepted iff CPU and memory limits are set, to at least 600m and 512Mi |
| Rendering.ValidateEngine | internal/provider/validate.go:158-188 | accepted iff replicas are positive and odd, storage is at least 1Gi, limits reach the minimums, and the service type, if any, is supported |
| Rendering.ValidateService | internal/provider/validate.go:285-297 | accepted iff no service is asked for or its type is one of the three supported |
| Rendering.ValidateHidden | internal/provider/validate.go:219-255 | each objection exactly under its condition: 32-bit voter sum above seven, storage or a limit set below the minimum |
| Rendering.Fill | internal/provider/hidden.go:147-158 | CPU and memory fall back one by one; nothing else changes |
| Rendering.HiddenRendersFieldByField | internal/provider/hidden.go:81-103 | hidden members render their own limits, requests, size and class where set, the engine's otherwise, and keep the live class |
| Rendering.EngineRendersAsAsked | internal/provider/replsets.go:34-114 | engine members render with the number, storage, class, CPU and memory asked for, or the defaults; hidden members are left out iff unset, not positive or held back |
| Rendering.HiddenRequestFitsIff | internal/provider/hidden.go:135-160 | the rendered request fits the rendered limit iff the request and the limit that each fall back on their own fit |
| Rendering.HiddenFallbackCanExceedLimit | internal/provider/hidden.go:147-160 | accepted components whose hidden members render a request above their limit |
| Rendering.AcceptedRendersAboveMinimums | internal/provider/replsets.go:34-114 | whatever is accepted renders engine and hidden members above the CPU, memory and storage minimums, held back or not |
| Rendering.AcceptedRendersOddVoters | definition/topologies/replicaSet/topology.yaml:39-39 | the number of voters is odd, held back or not |
| Rendering.VoterLimitHoldsWithoutOverflow | internal/provider/validate.go:228-229 | with hidden replicas, at most seven voters iff the sum fits 32 bits |
| Rendering.OverflowIsAccepted | internal/provider/validate.go:228-229 | accepted components whose wrapped sum hides the excess |

## Left out

- Freshness of hidden volumes is claimed across off-to-on switches only; scaling down and up again may reuse a volume, as in the source.
- ImportPaths.BuildExternalBackupSource: the storage credentials, region and endpoint copied beside the path are not modelled.
- Exporter.Draft.ConfigureMetricsExporter: container arguments, ports, mounts and resources of the sidecar are not modelled.
- CrVersionRuns.AlwaysInsideSkewWindow: versions have three numeric segments and a pre-release rank, because operator releases have no more; clusters being deleted are skipped by preflight and by the theorem.
- UsersSecretProtocol.PmmAlwaysHasToken: users editing or deleting the secret by hand are outside the model.
- ClientCertificates.StaysOnceLive: a configuration whose `net` or `net.tls` is not a mapping loses the option, and is excluded by name in the statement.
- The FNV hash of imported names: collisions of a 64-bit hash cannot be excluded.
- keepCertificates is an arbitrary answer on every pass, which the TLS theorems quantify over.
- preferHiddenForBackups, backup tasks and storages, config server storage class, mongos, scheduling and service exposure: field copying that would only add easy members.
- Status phases, connection details other than the host list, metrics endpoints: reporting over objects the model does not hold.
- Sharded topology in the hidden-member protocol: hidden members exist only in replica sets.
- Kubernetes clients, watches, YAML, JSON and S3 access: foreign code; the model starts from decoded values.
- Text of errors and conditions, timestamps, logging.
