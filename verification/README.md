# WireGuard fleet publication: model and proofs

The program publishes the WireGuard configuration of a fleet of nodes through an object bucket. A server
validates a topology, resolves keys, renders one `wg-quick` file per node, uploads the files as a new
generation, moves the pointer `current.json` to it with a compare-and-swap, and deletes generations that
`current.json` no longer refers to. Each node's client reads the pointer, downloads its file, checks its digest, and
installs it through a crash-recovering local transaction.

`dafny verify dfyconfig.toml` checks everything.

## What is modelled

| part | files |
|---|---|
| publication protocol: a state machine over one bucket, any number of jobs, late, repeated and lost requests, a clock | `Protocol.dfy`, `ProtocolFrame.dfy`, `ProtocolSteps.dfy`, `ProtocolLanding.dfy`, `ProtocolInvariant.dfy`, `ProtocolTheorems.dfy`, `ProtocolRuns.dfy`, `ProtocolBound.dfy`, `ProtocolProgress.dfy` |
| pointer documents and the client's discovery rounds | `Discovery.dfy`, `Discover.dfy` |
| the client's pass: as a function, what it guarantees, and as it runs over mutable host state | `Client.dfy`, `ClientTheorems.dfy`, `ClientProgress.dfy`, `ClientHost.dfy` |
| servers and a client together | `EndToEnd.dfy` |
| topology: configuration, edges, validation, well-formed fleets | `Topology.dfy`, `Validation.dfy`, `Validator.dfy`, `Fleet.dfy`, `Configured.dfy` |
| text: lines, trimming, decimal numbers, IPv4 networks, order of strings | `Text.dfy`, `Ipv4.dfy`, `Order.dfy`, `Chars.dfy`, `Hostname.dfy` |
| the `wg-quick` subset: typed form and strict reader, the reader's loops, the printer, the round trip, what exactly is accepted | `WgQuick.dfy`, `WgReader.dfy`, `WgPrint.dfy`, `WgRoundTrip.dfy`, `WgExact.dfy` |
| rendering: typed intention, the renderer's loops, what it guarantees | `Render.dfy`, `Renderer.dfy`, `RenderTheorems.dfy`, `FileSays.dfy` |
| key resolution, what it conserves, what it replaces and refuses | `KeyResolution.dfy`, `KeyTheorems.dfy`, `KeyRotation.dfy` |
| the server's run over a mutable bucket: store, retention, pointer, uploads, the whole `apply`, the fixed point | `Bucket.dfy`, `Retention.dfy`, `Publish.dfy`, `Apply.dfy`, `ApplyRun.dfy`, `FixedPoint.dfy` |
| the 256-bit base-32 codec | `Base32.dfy` |
| the duplicate-key scanner | `StrictJson.dfy` |
| results, options and the assumed library functions | `Outcomes.dfy`, `Lib.dfy` |

Code that updates state in the program is a method here (loops over lines, sections, nodes, edges, listed
objects and pointer attempts; the classes `Bucket.Storage` and `ClientHost.Host`; the codec's in-place
arrays). Each is proved against a function or predicate on values, and the properties are lemmas about those.

## Assumptions

- Digests are collision-free: `Discovery.Digest` is a free constructor.
- Key validity, public-key derivation and generic IP address text are functions with the laws in
  `Lib.Lawful`: keys and addresses are printable text without blanks, the public key of a valid key is a
  valid key, printing an address and parsing it again gives the same address.
- Generation ids, revisions and etags are fresh; fresh key material never repeats a public key in use
  (`KeyTheorems.EntropyOk`). `KeyTheorems.SampleIsOk` shows a generation with an edge that meets every condition
  the theorems about generations ask for.
- The protocol has one clock. In the regime `Overlapping(0)` each cleaner reads it less than one grace period
  after its own pointer landed; in the regime `Serialized` a job starts only when every earlier one has ended
  or died, and any grace is allowed, also zero. In both, requests of ended and dead jobs land whenever they
  like, any number of times. The program does not check the bound on the cleaner's clock;
  `ProtocolBound.BoundIsExact` shows that closure holds with overlapping jobs exactly under it.
- Conditional writes follow sections 13.1.1 and 13.1.2 of RFC 9110; each request takes effect atomically.
- The kernel interface is configured all or nothing; atomic writes take place or do not; a plain copy may
  leave torn bytes behind, and torn bytes may happen to parse. One pass at a time per interface.
- The client's crash consistency needs the recovery copy and the save after it to behave as stated by
  `ClientTheorems.RecoveryIsSound`; `ClientTheorems.RecoveryConditionIsExact` shows that it holds over all runs
  exactly then.

Where the program and its own documentation differ the model follows the program: the check of generation
ids (`wg-common/src/base32.rs:73-75`) lets through texts whose non-ASCII characters end in the byte of a
digit, which the documented pattern excludes (`Base32.CanonicalMatchesPattern`); the key scanner
(`wg-common/src/strict_json.rs:9-12`) compares keys with their escapes only half decoded, which is harmless for
exactly the keys whose only escapes are of the quote, the backslash and the slash (`StrictJson.SafeIffSimple`);
and a failed save after a successful apply (`wg-client/src/sync.rs:334-344`) does not always cost just a safe
rollback: if the old publication comes back, the next pass is a no-op over the newer kernel configuration
(`ClientTheorems.LagConditionIsExact`).

## Model

| member | source | states |
|---|---|---|
| ProtocolTheorems.PointerClosure | wg-server/src/apply.rs:321-359 | in every reachable state, with any number of overlapping, dying and delayed jobs (each cleaner reading its clock less than one grace period after its own landing) or with serialized jobs and any grace including zero, every file of the pointer's current and previous generations exists with the recorded digest |
| ProtocolBound.BoundIsExact | wg-server/src/retention.rs:55-76 | with overlapping jobs, whatever their grace period, closure holds in every reachable state iff every cleaner reads its clock less than one grace period after its own commit |
| ProtocolBound.LateCleanerBreaksClosure | wg-server/src/retention.rs:55-76 | for every grace period, a cleaner that may read its clock one grace period after its commit breaks closure in a run of two jobs: it takes the other job's fresh upload for an abandoned one, and its delete lands after that job's commit |
| ProtocolProgress.EveryStateCanPublish | wg-server/src/apply.rs:361-486 | from every reachable state, whatever died or is still under way, a new job can publish any desired files: a run of it alone ends committed, with its digests current and the generation before it previous |
| ProtocolProgress.ReconcileExactly | wg-server/src/apply.rs:342-354 | after a failed precondition: the own document means success, the baseline's revision another try with the etag that is there, up to five, anything else giving up |
| ProtocolProgress.RetryLands | wg-server/src/apply.rs:350-354 | a try with the etag that is there takes effect as soon as it arrives |
| ProtocolProgress.RepeatedUploadIsConfirmed | wg-server/src/apply.rs:443-467 | an upload that finds its file in the way is confirmed: in no reachable state is it anything but the intended one |
| ProtocolProgress.MissingUploadEndsJob | wg-server/src/apply.rs:443-467 | an upload refused for a file that is gone by the time the job looks ends the job |
| ProtocolProgress.LostInitializationAdopts | wg-server/src/apply.rs:136-150 | a job that loses the race to initialize the bucket goes on from the pointer that won |
| ProtocolTheorems.LinearHistory | wg-server/src/apply.rs:416-438 | the pointer is the last install; every install passes discovery validation, has its own revision, and refreshes or extends its predecessor; `current` and `previous` are the last and the last but one generation published |
| ProtocolTheorems.CurrentAndPrevious | wg-server/src/apply.rs:430-438 | in any linked history `previous` is always the generation committed immediately before `current` |
| ProtocolTheorems.OkMeansInstalled | wg-server/src/apply.rs:321-347 | a job that reports success has had its intended pointer installed, directly over the baseline it read |
| ProtocolTheorems.NoLostUpdate | wg-server/src/apply.rs:329-356 | any write of a job that took effect, whatever the job was told, directly replaced that job's baseline |
| ProtocolTheorems.ExpectHolds | wg-server/src/apply.rs:140-146 | after a lost initialization race the pointer exists, so the `expect` cannot fail |
| ProtocolTheorems.HistoryIsMonotone | wg-server/src/apply.rs:321-359 | the pointer is never deleted and the history of pointers only grows |
| ProtocolTheorems.WriterIsPermanent | wg-server/src/apply.rs:443-467 | the job that wrote a node file stays its writer; the bytes under a key never change hands |
| ProtocolTheorems.RenderedBytes | wg-server/src/apply.rs:443-467 | bytes found under a key `current.json` has referred to have the recorded digest and are what some job rendered for that host and generation |
| ProtocolTheorems.MissMeansTwoPublications | wg-client/src/sync.rs:101-114 | a missing file means at least two publications since that round's pointer read |
| ProtocolTheorems.ExhaustionMeansSixPublications | wg-client/src/sync.rs:75-119 | three missed rounds span at least six publications |
| ProtocolTheorems.DiscoveryGivesUpLate | wg-client/src/sync.rs:75-119 | a client that runs out of rounds has been overtaken by at least six publications |
| ProtocolTheorems.DownloadIsRendered | wg-client/src/sync.rs:99-109 | a round never ends in a digest mismatch, and what it downloads is exactly what an `apply` rendered for this host and generation |
| ProtocolInvariant.StepInv | wg-server/src/apply.rs:361-486 | every step of every job, of the network and of the environment keeps the protocol invariant |
| ProtocolInvariant.RunInv | wg-server/src/apply.rs:361-486 | the protocol invariant holds in every state of every run |
| ProtocolSteps.SameRevisionSameDoc | wg-server/src/apply.rs:350-352 | the retry branch never overwrites a stranger: the baseline's revision is current iff the baseline is |
| ProtocolSteps.SeenMeansLanded | wg-server/src/apply.rs:345-346 | finding the intended bytes after a failed precondition means this job's own write landed |
| ProtocolSteps.OldIsGone | wg-server/src/retention.rs:67-71 | a listed generation that is old enough and not retained can never again be named by the pointer |
| ProtocolSteps.LiveStartedLate | wg-server/src/apply.rs:468-477 | a writer that can still commit after this commit began its upload no earlier than this commit landed |
| Discover.DiscoverAndDownload | wg-client/src/sync.rs:75-119 | the rounds loop returns what the first decisive round says, with the digest of the bytes it returns |
| Discover.ExhaustedMeansAllMissing | wg-client/src/sync.rs:110-118 | running out of rounds means every round found a valid pointer and missed its file |
| Discover.DecidedByRound | wg-client/src/sync.rs:101-108 | a download comes whole from one round |
| Discover.RoundExactly | wg-client/src/sync.rs:76-114 | a round downloads exactly the bytes under the key that a valid pointer gives this host if they have its digest, and asks for another round exactly if that file is missing |
| Discover.RoundErrorsExactly | wg-client/src/sync.rs:76-98 | a round that gives up says why: no pointer, an invalid one, nothing published, or a host that is not listed |
| Discovery.ValidExactly | wg-common/src/discovery.rs:79-125 | the accepted pointers, rule by rule, without an order of checks |
| Discovery.ErrorsExactly | wg-common/src/discovery.rs:79-125 | each error names a rule that is broken |
| Hostname.ValidExactly | wg-common/src/hostname.rs:20-45 | the check is the pattern: letters and digits at both ends, at most 63 characters, hyphens inside |
| ClientTheorems.RunIsConsistent | wg-client/src/sync.rs:208-347 | after any sequence of passes crashed or failing anywhere: not pending implies the configuration file has the recorded digest; pending with a backup implies the backup has it; pending without one implies nothing is recorded; the kernel was only ever handed complete known files |
| ClientTheorems.PassIsConsistent | wg-client/src/sync.rs:225-344 | one pass from a consistent machine leaves a consistent machine, adding only a checked download to the known files |
| ClientTheorems.RecoveryConditionIsExact | wg-client/src/sync.rs:225-238 | a pass with this recovery step leaves every sound run of an original node consistent iff a failing copy is not followed by clearing the marker and, with copies that can tear, the marker is cleared on disk after a copy; otherwise a run of a new node, two accepted publications and the offending pass, ends inconsistent |
| ClientTheorems.ForgottenCopy | wg-client/src/sync.rs:231-235 | from any interrupted update, an unnoticed failure of the recovery copy followed by clearing the marker ends inconsistent, whatever files are known |
| ClientTheorems.CutOffIsInterrupted | wg-client/src/sync.rs:208-347 | a new node that accepts two publications and crashes before recording the second is in the middle of an update: the marker, the old backup and the new file on disk, the new file in the kernel |
| ClientTheorems.LostBackup | wg-client/src/sync.rs:231-288 | from any interrupted update, a marker that stays on disk lets the next backup destroy the one it relies on, whatever files are known |
| ClientTheorems.RecoverSettles | wg-client/src/sync.rs:225-238 | after recovery memory is not pending and the configuration file has the recorded digest |
| ClientTheorems.PrepareMarks | wg-client/src/sync.rs:277-302 | the marker reaches the disk with a faithful backup before anything is torn down |
| ClientTheorems.RollBackIsConsistent | wg-client/src/sync.rs:129-166 | a rollback that fails or crashes at any of its operations leaves the disk consistent |
| ClientTheorems.TransactionIsAtomic | wg-client/src/sync.rs:286-346 | wherever a transaction fails or crashes it leaves the machine untouched, marked for recovery, rolled back or committed |
| ClientTheorems.SmoothPassConverges | wg-client/src/sync.rs:210-347 | from any consistent machine one pass without failures or crashes ends not pending with the published file on disk and recorded; the kernel runs it iff the pass was not a no-op, the interface was down, or it ran that file already |
| ClientTheorems.NextPassIsNoOp | wg-client/src/sync.rs:264-271 | the next unforced pass is a no-op that changes nothing and issues no interface operation |
| ClientProgress.NoOpIsExact | wg-client/src/sync.rs:264-271 | a pass without failures is a no-op iff it is not forced and the published digest is the recorded one; otherwise the kernel runs the download |
| ClientProgress.LocalFileComesUp | wg-client/src/sync.rs:174-206 | with the interface down, a pass whose discovery fails has brought up the file on disk, if it parses, exactly when that operation took effect, has logged it, and changed nothing else |
| ClientProgress.OfflineTouchesNothing | wg-client/src/sync.rs:242-253 | with the interface up, a pass whose discovery fails touches nothing |
| ClientProgress.InterruptedUpdateIsUndone | wg-client/src/sync.rs:225-244 | also without the network, an interrupted update is undone: the backup is the file again, the marker is cleared, and an interface that was down runs the backup |
| ClientProgress.FirstInstallationIsRetried | wg-client/src/sync.rs:225-244 | an interrupted first installation leaves its file in place, and the file is brought up |
| ClientProgress.FailureKeepsOldFile | wg-client/src/sync.rs:276-346 | whichever operation of a transaction fails first, it is the error reported, the interface operations issued are just those up to it, and the node runs its old file on disk and in the kernel: a failed installation or bring-up is rolled back, only a failed teardown leaves the marker; without a failure it runs and records the new file |
| ClientProgress.RollbackSuccessIsExact | wg-client/src/sync.rs:149-165 | whatever else fails or crashes, a pass that returns reports a successful rollback iff an installation or bring-up failed and the old file is up again |
| ClientProgress.RollBackRestores | wg-client/src/sync.rs:129-166 | a rollback whose operations go puts the backup back, on disk and in the kernel, and clears the marker on disk |
| ClientProgress.FirstInstallationFails | wg-client/src/sync.rs:138-145 | without a backup a failed bring-up leaves nothing running and the marker set |
| ClientTheorems.NoOpMayHideNewerKernel | wg-client/src/sync.rs:264-271 | a no-op does not imply that the kernel runs the file: from any up-to-date machine, after any pass that brought a newer file up and did not record it, the old publication is answered by a no-op over the newer kernel configuration |
| ClientTheorems.RunInStep | wg-client/src/sync.rs:208-347 | over every sound run of an original node in which whatever was brought up was also recorded, a running interface runs the configuration file, or the backup that recovery will restore |
| ClientTheorems.LagConditionIsExact | wg-client/src/sync.rs:322-346 | over runs of sound passes a no-op can report a publication that the kernel does not run iff some pass is cut off, or fails to save, between bringing the new configuration up and recording it |
| EndToEnd.KernelRunsRenderedFiles | wg-client/src/sync.rs:208-347 | along any run of the publication protocol and any sound run of a node served by it, every file ever handed to the node's kernel, and the one it runs, is complete and is the node's own or one that some `apply` rendered for that node |
| EndToEnd.NodeFollowsPointer | wg-client/src/sync.rs:208-347 | a pass without failures, after a run that recorded what it brought up, leaves disk, record and kernel at one file that the pointer offered this node during the protocol run and that some `apply` rendered for it |
| EndToEnd.DownloadIsPublished | wg-client/src/sync.rs:75-119 | whatever discovery hands over was the pointer's current file of this host at some moment, rendered by a job |
| ClientTheorems.DownloadIsChecked | wg-client/src/sync.rs:102-108 | a successful discovery hands over bytes with the digest it promises |
| ClientHost.Host.RunOnce | wg-client/src/sync.rs:210-347 | the pass, step by step over mutable files and interface, does what `Client.Pass` says at whatever operation it fails or crashes |
| ClientHost.Host.AttemptRollback | wg-client/src/sync.rs:129-166 | the rollback as it runs equals its specification |
| ClientHost.Host.RecoverPending | wg-client/src/sync.rs:223-238 | the recovery as it runs equals its specification |
| ClientHost.Host.RestoreLocalIfValid | wg-client/src/sync.rs:174-206 | the local restore as it runs equals its specification |
| ClientHost.Host.SwitchOver | wg-client/src/sync.rs:304-346 | teardown, install, bring-up and record as they run equal their specification |
| ClientHost.Host.ApplyInterface | wg-client/src/system.rs:334-354 | all-or-nothing interface configuration, logged, failing on files that do not parse |
| ClientHost.Host.CopyToConf | wg-client/src/system.rs:87-91 | a plain copy that may tear when it fails or is interrupted |
| Validator.Validate | wg-common/src/topology.rs:307-488 | validation succeeds exactly on valid configurations, returns their topology sorted by host name, and otherwise names a defect that is really there |
| Validation.BlamedIsInvalid | wg-common/src/topology.rs:65-130 | every reported defect makes the configuration invalid |
| Configured.AcceptedExactly | wg-common/src/topology.rs:307-486 | validation accepts a configuration iff, as written, its fields are in order, its names are apart, no address is claimed by two of its texts, in one node or in two, and every pair with a master has an endpoint |
| Configured.TopologyIsConfigured | wg-common/src/topology.rs:343-421 | after validation every configured node has exactly one node of its name in the topology, with the same endpoint, port, MTU, keepalive and parsed DNS, its tunnel address and its routes in order as the texts parse; the masters are the listed ones |
| Configured.RangeIsCover | wg-common/src/topology.rs:268-270 | the range of a network is the set of addresses that agree with it in the leading bits |
| Validator.ValidateNodes | wg-common/src/topology.rs:353-419 | field checks and tunnel-address uniqueness, node by node |
| Validator.CheckRoutes | wg-common/src/topology.rs:423-467 | no route covers a tunnel address and no two routes overlap, or a pair that does is named |
| Validator.CheckEdges | wg-common/src/topology.rs:469-477 | every edge has an endpoint on some side, and the node lookups cannot fail; a rejection names the first edge, in the order of names, that has none |
| Validation.SortIsCanonical | wg-common/src/topology.rs:479 | fleets with the same nodes sort to the same sequence |
| Topology.ComputeEdges | wg-common/src/topology.rs:240-258 | the edges are exactly the ordered pairs of distinct hosts of which at least one is a master |
| Topology.EdgeCount | wg-common/src/topology.rs:240-258 | with m masters and s spokes there are m(m-1)/2 + m*s edges |
| Topology.EndpointIsPlain | wg-common/src/topology.rs:279-305 | an accepted endpoint contains no blanks or control characters anywhere |
| Topology.EndpointExactly | wg-common/src/topology.rs:279-305 | the accepted endpoints: a plain host of at most 253 bytes, a colon and a port, or an IPv6 address in brackets, a colon and a port |
| Text.U16Exactly | wg-common/src/topology.rs:300-303 | ports and other small numbers: decimal digits below 65536, with or without a plus sign |
| Text.WidthIsExact | wg-common/src/render.rs:145-150 | sizes count the bytes of UTF-8 (section 3 of RFC 3629): one to four per character, by its code |
| Text.Utf8LenJoins | wg-common/src/render.rs:145-150 | the size of a file is the sum of the sizes of its parts |
| Order.LessExactly | wg-common/src/topology.rs:240-258 | names are ordered lexicographically |
| Fleet.ValidatedIsWellFormed | wg-common/src/topology.rs:307-488 | every topology that validation returns is well formed and strictly sorted |
| Fleet.OneOwner | wg-common/src/topology.rs:421-467 | after validation no address has two owners through tunnel addresses or extra routes |
| Fleet.OrderOfNodesIsIrrelevant | wg-common/src/topology.rs:307-488 | permuting nodes and the master list changes neither the verdict nor the topology |
| Fleet.OrderOfRoutesIsIrrelevant | wg-common/src/topology.rs:399-407 | permuting any node's extra routes changes neither the verdict nor anything but their order |
| RenderTheorems.EdgesHaveEndpoints | wg-common/src/topology.rs:469-477 | every edge of a valid topology joins two nodes found by name, one with an endpoint |
| Ipv4.ParsePrintedNet | wg-common/src/topology.rs:260-266 | reading a printed network in CIDR notation gives the network back |
| Ipv4.DottedQuad | wg-common/src/render.rs:59-65 | the octets are printed, and read, from the most significant to the least |
| Ipv4.PrintedExample | wg-common/src/render.rs:59-65 | digits too run from the most significant on: a concrete network |
| Ipv4.OverlapMeansShared | wg-common/src/topology.rs:272-274 | two ranges overlap iff some address is in both |
| RenderTheorems.RenderingSucceeds | wg-common/src/render.rs:145-157 | with valid distinct keys rendering fails only by exceeding the size limit: self-validation never fails, and the text reads back as exactly the intended interface and peers in host name order |
| FileSays.PeersSay | wg-common/src/render.rs:45-145 | read back, a node's file lists each node that shares an edge with it once, in name order, with the edge's key, the peer's endpoint, its tunnel address and then its routes in ascending order, and a keepalive of 25 seconds iff the node has neither an endpoint nor a setting or is set to 25, of any other nonzero setting as it is, and none otherwise |
| FileSays.InterfaceSays | wg-common/src/render.rs:84-98 | read back, the interface section has the node's own key, address, port, DNS and MTU |
| FileSays.FileBegins | wg-common/src/render.rs:84-87 | a rendered file begins with the banner and the name of its node |
| RenderTheorems.IntendedIsPrintable | wg-common/src/render.rs:70-143 | what a rendered file says always meets every check of the strict reader |
| RenderTheorems.RoutingFollowsOwnership | wg-common/src/render.rs:97-143 | in every rendered file an address selects a peer iff that peer owns it and shares an edge with the local node |
| RenderTheorems.RoutingIsAFunction | wg-common/src/render.rs:97-143 | no address selects two peers, and spokes never select spokes |
| RenderTheorems.RouteOrderChangesNoByte | wg-common/src/render.rs:59-65 | listing extra routes in another order changes no byte of any file |
| RenderTheorems.ListingOrderIsIrrelevant | wg-common/src/render.rs:59-65 | listing nodes, masters or routes in another order changes neither the verdict of validation nor any rendered byte |
| Render.SortIsOrderIndependent | wg-common/src/render.rs:59-65 | the route sort is canonical because routes of a valid node have distinct sort keys |
| Renderer.RenderNodeConfig | wg-common/src/render.rs:70-158 | the renderer that appends line by line computes the specified file or error |
| Renderer.RenderPeer | wg-common/src/render.rs:128-143 | one `[Peer]` block, line by line |
| Renderer.RenderInterface | wg-common/src/render.rs:83-95 | banner and `[Interface]` block, line by line |
| Renderer.PeerHosts | wg-common/src/render.rs:97-110 | the other ends of the edges at a host, sorted |
| Renderer.HostsArePeers | wg-common/src/render.rs:97-110 | they are exactly the adjacent nodes in host name order |
| Renderer.PeerIsFound | wg-common/src/render.rs:114-117 | the lookup of a peer by name never fails |
| WgRoundTrip.PrintThenParse | wg-common/src/render.rs:255-350 | every printable configuration that fits the size limit is read back exactly |
| WgRoundTrip.AcceptedIsPrintable | wg-common/src/render.rs:255-350 | whatever is accepted is printable: canonical keys and networks, no default route, peers told apart by key and address, no peer covering or being the local node |
| WgRoundTrip.AcceptedDirectives | wg-common/src/render.rs:352-388 | accepted text has one `[Interface]`, one peer per `[Peer]`, and only listed directives, none twice: hooks never get through |
| WgExact.ParseExactly | wg-common/src/render.rs:255-350 | the strict reader accepts exactly the texts that say some configuration, and reads them as just that: within the size limit, free of NUL, every line blank, a comment, a header or a directive, one interface section among the peer sections, every directive known and at most once, every value in order, no ambiguity between peers |
| WgExact.SectionsExactly | wg-common/src/render.rs:263-300 | lines read as sections iff each stands for an item and the significant ones are those of the sections, in order |
| WgExact.InterfaceExactly | wg-common/src/render.rs:367-426 | what an interface section may say and what is made of it |
| WgExact.PeerExactly | wg-common/src/render.rs:428-499 | what a peer section may say and what is made of it |
| Text.TrimLineExactly | wg-common/src/render.rs:267-267 | lines lose their spaces at both ends, and then their tabs |
| WgRoundTrip.CheckExact | wg-common/src/render.rs:319-347 | the checks across peers pass exactly on unambiguous configurations |
| WgRoundTrip.ReadNets | wg-common/src/render.rs:453-474 | a comma list of networks is read back as those networks |
| WgReader.ParseWgQuick | wg-common/src/render.rs:255-350 | the reader as it runs computes the specified configuration or error |
| WgReader.ReadSections | wg-common/src/render.rs:263-299 | the line loop |
| WgReader.ParseInterfaceFields | wg-common/src/render.rs:367-426 | the `[Interface]` directive loop |
| WgReader.ParsePeerFields | wg-common/src/render.rs:428-499 | the `[Peer]` directive loop |
| WgReader.CheckRoutes | wg-common/src/render.rs:330-347 | the route checks between peers |
| KeyResolution.ResolveKeys | wg-server/src/apply.rs:224-313 | resolution as it runs: on success the keys are those that the stored files, the rotation and the random source determine; an error is that of the first bad node or, if all nodes resolve, of the first bad edge |
| KeyResolution.ResolveNodeKeys | wg-server/src/apply.rs:234-262 | the node loop, with the lists of reused and freshly keyed hosts |
| KeyResolution.ResolveEdge | wg-server/src/apply.rs:264-304 | one edge: fresh end, agreeing, conflicting, one-sided or absent records |
| KeyResolution.FindRecord | wg-server/src/apply.rs:272-279 | the first peer with the public key |
| KeyResolution.ResolutionIsUnique | wg-server/src/apply.rs:224-313 | resolution has at most one outcome |
| KeyResolution.ErrorIsUnique | wg-server/src/apply.rs:224-313 | resolution has at most one error, and an error excludes every result |
| KeyRotation.NextKeysExactly | wg-server/src/apply.rs:224-313 | the keys of the next generation: a node keeps its pair iff it was published and is not selected, an edge its preshared key iff it existed and neither end is selected; everything else is drawn in this run |
| KeyRotation.RotatedNodeIsNew | wg-server/src/apply.rs:215-268 | a selected node gets a key pair drawn in this run, unlike any of the earlier generation, and so does every edge at it |
| KeyRotation.EdgeIsTakenFromFiles | wg-server/src/apply.rs:264-305 | whatever the published files say, an edge's key is taken from them only if both ends record it alike; different records and one-sided records are refused, each by its error |
| KeyRotation.BadKeyIsRefused | wg-server/src/apply.rs:241-247 | a published file whose own key is no key is refused, unless its node is selected |
| KeyTheorems.RecordInFile | wg-server/src/apply.rs:272-279 | a rendered file records a preshared key for a node iff they share an edge, and both ends record the edge's key |
| KeyTheorems.KeysAreConserved | wg-server/src/apply.rs:224-313 | against files of one earlier generation over any old topology, resolution for any new topology never fails, keeps every unrotated known identity and the preshared key of every surviving edge |
| KeyTheorems.NextKeysAreOk | wg-server/src/apply.rs:224-313 | what it produces are valid, pairwise distinct keys again |
| KeyTheorems.ChainStaysValid | wg-server/src/apply.rs:361-486 | in every history of publications every generation has valid keys |
| KeyTheorems.IdentityIsKept | wg-server/src/apply.rs:235-252 | over any number of publications a node always listed and never rotated keeps its key pair |
| KeyTheorems.PskIsKept | wg-server/src/apply.rs:267-305 | and an edge that always exists and whose ends are never rotated keeps its preshared key |
| KeyTheorems.RotationIsLocal | wg-server/src/apply.rs:206-222 | with the topology unchanged, nodes neither rotated nor next to a rotated node get byte-identical files |
| KeyTheorems.ResolutionIsAFixedPoint | wg-server/src/apply.rs:224-313 | publishing, reading every file back and resolving without rotation gives exactly the same keys |
| ApplyRun.Run | wg-server/src/apply.rs:361-486 | one `apply`: success means committed with every file stored; no file of the pointer this run intended is deleted (another writer may have replaced that pointer since); whatever is added is a file of its own generation; a dry run writes nothing; when no request fails every error has a stated reason in the input or the bucket |
| ApplyRun.Finish | wg-server/src/apply.rs:416-485 | upload, commit, cleanup and report: success means committed with every file stored, whatever else happens |
| ApplyRun.CommitRun | wg-server/src/apply.rs:416-472 | files before the pointer; a collision is the only failure when no request fails |
| ApplyRun.DryRunIsFaithful | wg-server/src/apply.rs:423-442 | a dry run and a real run from the same bucket, random values and clock report the same, except that only the real one publishes |
| ApplyRun.PreparedIsUnique | wg-server/src/apply.rs:378-394 | what a run prepares is determined by bucket, topology and random values |
| ApplyRun.NewFilesSurvive | wg-server/src/apply.rs:474-477 | the generation just published survives its own cleanup |
| Apply.PrepareRun | wg-server/src/apply.rs:378-394 | pointer, stored files, keys and rendered files of a run |
| Apply.FetchReusableConfigs | wg-server/src/apply.rs:159-195 | exactly the listed desired hosts, each file digest-checked and parsed, or the error of some file |
| Apply.FileIsChecked | wg-server/src/apply.rs:172-192 | a published file is trusted exactly if it is there, has the recorded digest and is accepted by the strict reader; the error says which failed first |
| Apply.UploadAll | wg-server/src/apply.rs:443-467 | existing objects stay; on success every file of the generation is there |
| Apply.RenderAll | wg-server/src/apply.rs:387-394 | every desired host's file, or the error of one |
| FixedPoint.ApplyAgain | wg-server/src/apply.rs:396-426 | a second run over an unchanged topology succeeds, uploads nothing, creates no generation, and leaves the same generation published under a new revision |
| FixedPoint.FirstThenAgain | wg-server/src/apply.rs:361-486 | from an empty bucket: the first run fails only by its input; if it succeeds, a second run over the same topology succeeds, creates no generation and leaves the first run's generation published |
| FixedPoint.ApplySettled | wg-server/src/apply.rs:361-486 | from an empty or a published bucket, over any change of topology and any rotation: a calm run that succeeds leaves its generation published and the key history continued; one that fails leaves the bucket as ready as it was |
| FixedPoint.RunEndsHeld | wg-server/src/apply.rs:427-477 | the pointer, the files and the keys after a successful calm run are again what a run may start from |
| FixedPoint.RotationPublishes | wg-server/src/apply.rs:383-442 | selecting a node for rotation always publishes a new generation, with a file for it that holds the new key, and reports it as freshly keyed |
| FixedPoint.ReportedKeysExactly | wg-server/src/apply.rs:224-313 | the report lists as freshly keyed exactly the desired nodes that were not published or are selected, and as reused exactly the others |
| FixedPoint.OnlyInputFails | wg-server/src/apply.rs:361-396 | no bucket that runs leave behind makes the next calm run fail: only an invalid topology, an unknown name to rotate or a file over the size limit does |
| FixedPoint.SameTopologySameFiles | wg-server/src/apply.rs:401-402 | without rotation the plan over an unchanged topology is the revision refresh |
| FixedPoint.PublishedIsFetched | wg-server/src/apply.rs:159-195 | what a run reads back are the files of the published generation |
| FixedPoint.RunPublishesItsGeneration | wg-server/src/apply.rs:427-472 | after a successful run, the first or a later one, the pointer publishes the generation that the run rendered |
| FixedPoint.PreparedProduces | wg-server/src/apply.rs:381-394 | a prepared run, also one over a bucket in which nothing was published yet, stands for the next generation of the key history |
| Publish.FetchCurrentPointer | wg-server/src/apply.rs:112-154 | the pointer returned is valid and named by its etag; a dry run writes nothing; orphaned generations are refused |
| Publish.InitializePointer | wg-server/src/apply.rs:122-152 | only an empty pointer is ever created, and only where there was none |
| Publish.CreatePointer | wg-server/src/apply.rs:134-150 | creates the empty pointer, or adopts the valid one that was created meanwhile |
| Publish.CommitPointer | wg-server/src/apply.rs:321-359 | success means stored; whatever this job stored replaced a pointer with the baseline's revision; a conflict means another revision is there; the outcome is never unknown; fewer than five rewrites of the same pointer under new etags do not stand in the way |
| Publish.TryCommit | wg-server/src/apply.rs:330-356 | one attempt of the commit loop |
| Bucket.Storage.PutIfMatch | wg-server/src/storage.rs:431-463 | replaces only what the etag names |
| Bucket.Storage.PutIfAbsent | wg-server/src/storage.rs:399-429 | never replaces anything |
| Bucket.Storage.ListAll | wg-server/src/storage.rs:465-474 | the keys under a prefix, each once, in order |
| Bucket.Storage.DeleteObject | wg-server/src/storage.rs:490-493 | removes one key |
| Retention.Cleanup | wg-server/src/retention.rs:41-79 | the report lists every file under its fate, exactly the doomed files are deleted, an early stop has deleted nothing else, a dry run reports the same and deletes nothing |
| Retention.EveryFileHasOneFate | wg-server/src/retention.rs:59-76 | every listed key is exactly one of retained, too young, unrecognized or deleted |
| Retention.ClassifiedExactly | wg-server/src/retention.rs:59-76 | a name that prints no valid key is unrecognized, a key of a retained generation is kept, any other is deleted iff it is at least the grace period old |
| Retention.ZeroGraceLeavesOnlyRetained | wg-server/src/retention.rs:59-76 | a completed zero-grace cleanup leaves only retained or unrecognized keys |
| Retention.RetainedFilesSurvive | wg-server/src/retention.rs:64-66 | no cleanup deletes a file of a generation that `current.json` refers to |
| Retention.DryRunReportIsFaithful | wg-server/src/retention.rs:37-45 | uploads of the new generation do not change the report |
| Retention.DeletesWhatTheProtocolDooms | wg-server/src/retention.rs:59-76 | cleanup deletes exactly the files that the protocol model's cleaning step dooms |
| Retention.ParseAfterPrint | wg-server/src/retention.rs:24-35 | every valid key is read back from its object name |
| Retention.PrintAfterParse | wg-server/src/retention.rs:24-35 | every recognized object name is the name of the key it is read as |
| Base32.Encode | wg-common/src/base32.rs:24-38 | in-place division yields the 52 base-32 digits of the 256-bit big-endian value |
| Base32.Decode | wg-common/src/base32.rs:45-67 | in-place multiplication answers exactly as specified in every case, overflow included |
| Base32.DivideBy32 | wg-common/src/base32.rs:28-33 | one long division by 32, remainder below 32 |
| Base32.MultiplyAdd | wg-common/src/base32.rs:56-61 | one multiplication with carry in 16-bit arithmetic: old value times 32 plus digit equals carry-out times 256^n plus new value, carry below 32 |
| Base32.DecodeAfterEncode | wg-common/src/base32.rs:45-67 | decoding an encoded block gives the bytes back |
| Base32.EncodeAfterDecode | wg-common/src/base32.rs:24-38 | encoding a decoded text gives the text back iff the text is ASCII |
| Base32.AcceptedTexts | wg-common/src/base32.rs:45-67 | exactly the texts of 52 alphabet characters whose first digit is 0 or 1 are accepted |
| Base32.OverflowOnlyAtEnd | wg-common/src/base32.rs:62-64 | overflow can arise only at the last digit |
| Base32.CanonicalMatchesPattern | wg-common/src/base32.rs:69-75 | the check accepts exactly the documented pattern together with the non-ASCII texts |
| Base32.AlphabetExactly | wg-common/src/base32.rs:9-9 | the alphabet is the digits and the small letters but i, l, o and u, in this order |
| Base32.CheckCanonical | wg-common/src/base32.rs:73-75 | the check as it runs: decode, then look at the first byte |
| Base32.NonAsciiPassesCheck | wg-common/src/base32.rs:54-54 | a concrete non-ASCII text passes the check and misses the pattern |
| Base32.EncodedIsCanonical | wg-common/src/base32.rs:77-84 | every fresh id passes the check |
| StrictJson.CheckNoDuplicateKeys | wg-common/src/strict_json.rs:35-98 | the scanner as it runs computes its specification on every text, and terminates |
| StrictJson.ParseString | wg-common/src/strict_json.rs:100-115 | one string literal, escapes consumed but not decoded |
| StrictJson.ScannerAgreesWithTree | wg-common/src/strict_json.rs:35-98 | on every JSON value printed with arbitrary legal whitespace the scan succeeds iff no object at any depth has two members with equal scanned keys, and otherwise names the first such key |
| StrictJson.ReadAsDenoted | wg-common/src/strict_json.rs:9-12 | a legal literal is read as the string it denotes iff its only escapes are of the quote, the backslash and the slash |
| StrictJson.ScannerFindsAmbiguity | wg-common/src/strict_json.rs:35-98 | on every document all of whose keys are such literals the scan succeeds iff no object at any depth has two keys that denote the same string |
| StrictJson.SafeIffSimple | wg-common/src/strict_json.rs:9-12 | the scan judges a key rightly beside every such key iff the key is one itself: any other legal literal has a document on which the scan is wrong |
| StrictJson.SimpleKeysAgree | wg-common/src/strict_json.rs:9-12 | for such keys scanned equality is equality of the strings denoted |
| StrictJson.EscapedKeysDisagree | wg-common/src/strict_json.rs:9-12 | both mistakes on printed documents: one with distinct keys is rejected, one with a key repeated in two spellings is accepted |

## Left out

- `R2Client`, `R2ReadClient`, HTTP, retries, timeouts and pagination: network code; the protocol keeps the effect of lost, repeated and delayed requests.
- Netlink configuration, teardown internals, preflight internals and endpoint resolution: kernel and network calls that only succeed, fail or are cut short here.
- X25519, SHA-256, Base64 and the random source: abstract, with the laws above.
- JSON and URL parsing by libraries: pointers are typed values; an object's bytes are a pointer document or text.
- Validator.Validate: the checks of the storage endpoint and credentials (`wg-common/src/topology.rs:312-319`), a parsed URL and three tests for empty text, are not modelled; they would only add easy members.
- The crate that parses CIDR text is not part of this model; `Ipv4.ParseNet` takes up to three digits per octet below 256 and up to two digits of prefix length at most 32, leading zeros included.
- Command line, configuration loading, logging, the daemon loop, jitter, signals, file locking and packaging: plumbing.
- Power loss and fsync: only process crashes are modelled.
- Invalid UTF-8: file contents are sequences of characters.
- Error payloads that only repeat an input for display (addresses, routes, sources of nested errors).
- Schema version 2 of the documentation (signatures, encryption, sequence numbers): not in the program.
- ApplyRun.Run: interference by other jobs is limited to the pointer here (rewritten or replaced between requests, replies lost, requests refused); deletions by other jobs are covered by the protocol model only.
- ApplyRun.CommitRun: an error does not mean that the pointer was not stored, and nothing of the kind is claimed.
- KeyTheorems.KeysAreConserved: says nothing about stored records of an edge with a freshly keyed end, which resolution does not look at.
- Discover.DiscoverAndDownload: a digest in a pointer is taken as well formed, so the check of digest syntax is not modelled.
