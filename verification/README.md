# Runtime class manager: a verified model

This project models, in Dafny, the two halves of the runtime class manager and proves what holds
over whole runs of each.

**The node installer** edits three things on a host: the containerd configuration text, the shim
binaries and the lock file. The model keeps the text as a string, the lock as its field map with
hexadecimal digests, and the host as a map from path to contents plus a restart counter.

- `Strings`, `ShimNames`, `ContainerdConfig`: substring search, `strings.ReplaceAll`, names, and the
  runtime blocks that are appended to and cut out of the configuration.
- `ConfigRuns`: over every run of adds and removes the text is the base followed by the blocks of
  the live runtimes.
- `LockState`, `Host`, `HostRuns`, `HostSync`: the lock file, the installer (`Host.Installer`, step
  by step, with every I/O failure the code handles), and what its commands keep.
- `Distro`: autodetection and preset setup.

**The two controllers** meet only through node labels, Job objects and a finalizer.

- `Manifest`, `JobNames`, `Api`: artifact choice, Job manifests and how they are read back, Job
  names, and an API server with versioned updates, immutable Job templates and finalizers.
- `Protocol`, `ProtocolSafety`, `ProtocolTheorems`: both reconcilers as threads interleaved at single
  API calls. Reads may return any object ever stored under the name, writes may be refused or be
  carried out while the caller sees an error, and any number of passes run at once.
- `Controllers`, `Refinement`, `Convergence`: the reconciler bodies run without interruption, the proof
  that single deployments, Job reconciles and whole passes are what their single calls amount to,
  convergence of whole actions, and exactly which nodes can recover.
- `Passes`: whole passes of the Shim reconciler from the first call to the last, with status and finalizer.
- `Deletion`: exactly which nodes of a deleting shim lose their label.
- `Interleaved`, `InterleavedProgress`: convergence of the single calls themselves, for one pass of the
  shim at a time and any number of Job reconciles in every interleaving.

I/O answers, the runtime options of each command, the order in which a Go map is ranged over, and the
digest function are parameters, so every theorem holds for all of them. `path.Join(rcmPath, "bin")` and
the lock path are parameters too.

Claims that are false without a condition are stated with the exact condition:

- Adding and removing a runtime, each with the options it was given, leaves the text followed by what
  the removal leaves of the new block alone. Where no option imitates the block's comment line, or both
  calls have the same options, the text is restored if and only if the block does not bring in
  `version = 3` and both calls generated the same block (`AddRemoveRoundTrip`); `DomainSwitchBreaksRoundTrip`, `OrderBreaksRoundTrip`,
  `TwoOptionsMayNotRoundTrip` and `DroppedOptionsStay` give the failing families.
- Removal is all or nothing for the options of the add (`RemoveAllOrNothing`). With other options it
  cuts the generated block off the front of the written one, once, if and only if that block does not
  occur in what remains (`RemoveOtherIff`); `OneOptionDropped` and `DecoyCutTwice` are concrete.
- "Already configured" means that the name occurs anywhere (`AddSkipsPartOfName`); an add leaves the
  runtime's block in the text if and only if the name was not mentioned or that block was there already
  (`AddConfiguresIff`).
- The change that a removal reports is true if and only if the runtime was not mentioned or the very
  block that is generated now was in the text, for every answer of the file system (`RemoveReportIff`).
- Lock and disk agree after an `Install`, whatever failed in it, under the condition of
  `InstallAgreesIff`, which covers a lock that cannot be read after the binary was truncated and one that
  cannot be written; `FailedLockWrite` spells out the old, a torn and the new lock, and
  `InstallCanDisagree` gives concrete failing calls. `UninstallAgreesIff` is its counterpart.
- `RunInstall` is idempotent if and only if no two assets have one runtime name (`InstallTwiceIff`).
- An unprovisioned node can still be provisioned if and only if it is not doomed (`RecoversIff`). Doomed
  means: with a Job under its Job name, that Job has failed or does other work because the cut name is
  taken; without one, the node is labelled pending or has no artifact. `DeployDoomsIff` says which API
  answers doom a node. `ClearsIff` is the counterpart for deletion.
- Provisioned means that an install completed, not that no uninstall did since
  (`ReportProvisionsIff`, `OldInstallRelabels`).
- A pass that acts on an old copy of a ready node leaves it ready if and only if the copy says pending
  or provisioned (`StaleListSetsBack`).
- A report of the Job controller lands if and only if the node was not written since it was read
  (`ReportLandsIff`).

Where the code and its comments disagree the model follows the code: `Uninstall` reports "does not
exist" for exactly the errors that are not about existence, and the cases for `FailureTarget` and
`Suspended` in the Job controller can never be reached because `isJobFinished` reports only `Complete`
and `Failed`.

## Model

| member | source | states |
|---|---|---|
| ShimNames.BaseOfBinPath | internal/containerd/configure.go:51 | the base name of an installed binary's path is the asset's file name, so the runtime name is recovered from the path |
| ShimNames.BaseLaws | internal/containerd/configure.go:51 | `path.Base` on every path: the last element whatever slashes follow, a dot for nothing, a slash for slashes alone |
| ShimNames.RuntimeNameOfAsset | internal/shim/shim.go:41-43 | the downloader's name `containerd-shim-<n>` maps back to `n`, trimming the prefix exactly once, and any other name to itself |
| Strings.RemoveAllUnique | internal/containerd/configure.go:103 | `ReplaceAll` with the empty string cuts out exactly the one occurrence when there is only one |
| Strings.RemoveAllFirst | internal/containerd/configure.go:103 | it takes out the first match and goes on behind it, which with the case of no match determines it |
| Strings.RemoveAllIff | internal/containerd/configure.go:103 | it changes the text exactly if the deleted text occurs |
| Strings.Anchor | internal/containerd/configure.go:103 | counting argument: if a word occurs only inside one block, a text with the same head and as many mentions can match only flush with that block, never shifted or overlapping |
| Strings.RemoveConfined | internal/containerd/configure.go:103 | deleting an equally long text removes the confined block exactly or changes nothing |
| ContainerdConfig.AppendOptions | internal/containerd/configure.go:132-139 | the loop over the options map writes every option once, in some order, after the given start |
| ContainerdConfig.GenerateConfig | internal/containerd/configure.go:118-141 | the generated text is the block for the path in the domain chosen by the text, for some order of the options; it names the whole path of the binary as the runtime type, under the runtime's table in that domain |
| ContainerdConfig.BlockSays | internal/containerd/configure.go:119-130 | every block, for any text and options, holds the comment, the table and the runtime type as whole lines, word for word |
| ContainerdConfig.BlockListsOptions | internal/containerd/configure.go:132-139 | and the options table with every key and value |
| ContainerdConfig.PlainBlock | internal/containerd/configure.go:126-130 | without options it holds nothing else |
| ContainerdConfig.PathsTellBlocksApart | internal/containerd/configure.go:126-130 | blocks of different paths are different, even for one runtime name |
| ContainerdConfig.BlockShape | internal/containerd/configure.go:126-130 | a block opens a new line, starts with its comment head and mentions its runtime |
| ContainerdConfig.BlockLength | internal/containerd/configure.go:131-139 | the option order does not change the length of a block |
| ContainerdConfig.BlockCount | internal/containerd/configure.go:131-139 | the option order does not change how often a newline-free word is mentioned |
| ContainerdConfig.OneOrder | internal/containerd/configure.go:134 | with at most one option there is only one order |
| ContainerdConfig.AddMentions | internal/containerd/configure.go:60-79 | after an add the text mentions the runtime, whether or not a block was written |
| ContainerdConfig.AddConfiguresIff | internal/containerd/configure.go:60-79 | after an add the runtime's block is in the text exactly if the name was not mentioned before or that block was there |
| ContainerdConfig.RemoveAllOrNothing | internal/containerd/configure.go:84-112 | with the options of the add, in any two orders, removal of a runtime mentioned only in its own block removes exactly that block or leaves the text untouched, whatever the options read like |
| ContainerdConfig.RemoveOtherIff | internal/containerd/configure.go:84-112 | with any other options or domain, removal leaves everything before the block alone and cuts the generated block off its front once, exactly if it does not occur in what remains |
| ContainerdConfig.RemoveWithOther | internal/containerd/configure.go:84-112 | which is so if the block has a single comment line: the generated block is cut off the front, or nothing happens |
| ContainerdConfig.SoleCommentByLines | internal/containerd/configure.go:126-139 | newline-free names, paths and options give a single comment line unless an option line reads like it |
| ContainerdConfig.NoDecoy | internal/containerd/configure.go:126-135 | no option line can read like it if the name has no equals sign |
| ContainerdConfig.DomainAfterAdd | internal/containerd/configure.go:119-124 | the plugin domain survives an add exactly if the text already had `version = 3` or the block does not bring it in |
| ContainerdConfig.RemoveAfterAdd | internal/containerd/configure.go:50-112 | with the domain kept, removal after an add cuts its own block off the front of the new one, for whatever options each call was given; with equal options that is all of it or nothing |
| ContainerdConfig.AddRemoveRoundTrip | internal/containerd/configure.go:50-112 | add then remove, each with any options, leaves the text followed by what the removal leaves of the block; unless an option imitates the comment line, that is the text byte for byte if and only if the block does not switch the domain and both calls generated the same block |
| ContainerdConfig.DroppedOptionsStay | cmd/node-installer/install.go:136-147 | options given up between add and removal stay in the text, and no later add of the runtime writes anything |
| ConfigRuns.RenderedDomain | internal/containerd/configure.go:119-124 | along a run of separate runtimes the domain stays that of the base text |
| ConfigRuns.RenderedMentions | internal/containerd/configure.go:61-64 | along such a run the text mentions a runtime exactly if it is live |
| ConfigRuns.AddRefines | internal/containerd/configure.go:50-82 | an add is an append to the list of live runtimes, or nothing for a live one |
| ConfigRuns.RemoveAtCuts | internal/containerd/configure.go:84-112 | with whatever options, a removal cuts its block off the front of the live runtime's block |
| ConfigRuns.RemoveAtIff | internal/containerd/configure.go:84-112 | that refines the list exactly if the match is not partial |
| ConfigRuns.RemoveClearsIff | internal/containerd/configure.go:84-112 | a removal takes out exactly the live block if and only if it generates that very block |
| ConfigRuns.RemoveRefines | internal/containerd/configure.go:84-112 | a removal that is not partial drops the runtime's entry exactly if it generates the block written for it, and else changes nothing |
| ConfigRuns.TextRefinesList | internal/containerd/configure.go:50-141 | over every run in which each edit brings its own options and no removal is partial, the text is the base followed by the blocks of the live runtimes in order |
| ConfigRuns.LiveIffWanted | internal/containerd/configure.go:50-112 | if every removal generates what was written, a runtime is live after a run exactly if its last edit was an add |
| ConfigRuns.RunOutcome | internal/containerd/configure.go:50-141 | after any such run the text mentions exactly the wanted runtimes, and is the base byte for byte if none is wanted |
| ConfigRuns.SteadyIsFaithful | internal/containerd/configure.go:131-139 | every run is such a run if each runtime keeps its own options, at most one |
| ConfigRuns.AddSkipsPartOfName | internal/containerd/configure.go:60-64 | a runtime whose name is part of a configured name is taken for configured and gets no block |
| ConfigRuns.OrderBreaksRoundTrip | internal/containerd/configure.go:100-111 | an order that reads differently leaves the block behind |
| ConfigRuns.TwoOptionsMayNotRoundTrip | internal/containerd/configure.go:134 | two options are enough to lose the round trip |
| ConfigRuns.DomainSwitchBreaksRoundTrip | internal/containerd/configure.go:121-124 | a name containing `version = 3` loses the round trip |
| ConfigRuns.OneOptionDropped | internal/containerd/configure.go:131-139 | the exact remains of a block whose one option was dropped before the removal |
| ConfigRuns.DecoyCutTwice | internal/containerd/configure.go:103 | options that repeat the block of a runtime named `a = b` make a removal without options cut twice |
| LockState.DecodeEncode | internal/state/shim.go:13-38 | hexadecimal decoding inverts encoding for every byte sequence (section 8 of RFC 4648) |
| LockState.EncodeDigits | internal/state/shim.go:18-21 | the digits that are written: high half before low half, lower case |
| LockState.DecodeAccepts | internal/state/shim.go:32-35 | exactly the even-length strings of hexadecimal digits are accepted |
| LockState.EncodeDecode | internal/state/shim.go:18-36 | re-encoding a decoded digest only lowers its letters |
| LockState.GetAfterWrite | internal/state/state.go:20-64 | reading what was written returns the same shim map |
| LockState.GetReads | internal/state/state.go:20-36 | the lock can be read exactly if it is missing, then as the empty map, or a document whose digests are all even-length hexadecimal; every entry is read with its path and its digest |
| LockState.MarshalFields | internal/state/shim.go:13-22 | what is stored for each entry: its path and its digest in lower-case digits |
| LockState.State.UpdateShim | internal/state/state.go:47-49 | the entry is set, after which the shim counts as unchanged |
| LockState.State.RemoveShim | internal/state/state.go:51-53 | exactly that entry goes |
| LockState.State.Write | internal/state/state.go:55-64 | the stored document reads back as this state |
| Host.Installer.Install | internal/shim/install.go:29-67 | the step-by-step install, with every failure point, has the specified effect and result; the binary is truncated before the lock is read, which may fail, and a copy error surfaces only after the lock is updated |
| Host.Installer.Uninstall | internal/shim/uninstall.go:11-33 | the binary and the lock entry go; a binary that is already gone is no error |
| Host.Installer.AddRuntime | internal/containerd/configure.go:50-82 | the configuration is edited as specified for the option order that was generated; a missing file is an error |
| Host.Installer.RemoveRuntime | internal/containerd/configure.go:84-112 | as specified for the generated order, with the reported change |
| Host.Installer.InstallOne | cmd/node-installer/install.go:96-112 | one round of the loop has the effect of one asset |
| Host.Installer.InstallAssets | cmd/node-installer/install.go:95-112 | the loop handles the assets in listing order and stops at the first failure |
| Host.Installer.RunInstall | cmd/node-installer/install.go:72-134 | the whole command, with its restart decision, has the specified effect |
| Host.Installer.RunUninstall | cmd/node-installer/uninstall.go:65-95 | the whole command has the specified effect |
| HostRuns.UpdateIffChanged | internal/state/state.go:38-49 | `ShimChanged` holds exactly when writing the entry makes the map different |
| HostRuns.InstallLock | internal/shim/install.go:47-66 | a successful install reports a change exactly if the lock map changed |
| HostRuns.InstallEstablishesOwnEntry | internal/shim/install.go:29-67 | a successful install makes lock and disk agree for its own key, from any readable lock |
| HostRuns.InstallAgreesIff | internal/shim/install.go:29-67 | after any install, whatever failed in it, lock and disk agree exactly if the binary was untouched, or the lock could not be read and has no entry that the truncated binary contradicts, or the lock that a failed write left behind fits the new binary, or written and hashed bytes have the same digest |
| HostRuns.FailedLockWrite | internal/shim/install.go:56-64 | what that means for a failed lock write that leaves the old lock, an unreadable one, or the new one |
| HostRuns.InstallCanDisagree | internal/shim/install.go:42-66 | three concrete calls that break the agreement: the lock cannot be written, the copy stops between binary and hash, or the lock cannot be read after the truncation |
| HostRuns.InstallKeepsAgreement | internal/shim/install.go:29-67 | a successful install keeps lock and disk in agreement for all keys |
| HostRuns.UninstallKeepsAgreement | internal/shim/uninstall.go:11-33 | so does every uninstall whose lock write works |
| HostRuns.UninstallAgreesIff | internal/shim/uninstall.go:11-33 | after any uninstall lock and disk agree exactly if the binary was not removed, the lock was written, or the lock left behind agrees and no longer knows the binary |
| HostRuns.UninstallCanDisagree | internal/shim/uninstall.go:22-31 | a lock write that fails and leaves the old lock always breaks the agreement |
| HostRuns.RunsKeepAgreement | cmd/node-installer/install.go:72-134 | in every state reached by successful commands, each with its own options, lock and disk agree |
| HostRuns.AssetSettles | cmd/node-installer/install.go:96-112 | after its round, an asset's binary, lock entry and configuration mention are in place |
| HostRuns.AssetKeepsSettled | cmd/node-installer/install.go:96-112 | rounds of other runtimes keep it so |
| HostRuns.SettledIsFixed | cmd/node-installer/install.go:96-112 | a settled asset is left alone and reports no change |
| HostRuns.InstallTwice | cmd/node-installer/install.go:95-134 | a second run after a successful one, even with other runtime options, changes nothing and does not restart |
| HostRuns.InstallTwiceIff | cmd/node-installer/install.go:95-134 | over different assets the second run changes nothing exactly if no two assets have one runtime name; with two, it rewrites the lock and restarts |
| HostRuns.RunChanged | cmd/node-installer/install.go:95-117 | the loop reports a change exactly if the lock map is different afterwards |
| HostRuns.RestartsIffLockChanged | cmd/node-installer/install.go:104-133 | a successful run restarts once if the lock map changed and not at all otherwise |
| HostRuns.AssetSucceedsIff | cmd/node-installer/install.go:96-112 | exactly when a round succeeds, by the answers of the file system and the state of lock and configuration |
| HostRuns.UninstallSucceedsIff | cmd/node-installer/uninstall.go:65-95 | exactly when the command succeeds, and that it restarts exactly if the configuration mentions the runtime and could be written |
| HostRuns.RunInstallSucceedsIff | cmd/node-installer/install.go:95-133 | exactly when the command reports success, and that it restarts only after every asset is in place and something changed |
| HostRuns.RemoveReportIff | internal/containerd/configure.go:84-112 | for every text and every answer of the file system: the reported change is true exactly if nothing was read, the runtime was not mentioned, a failed write left the text alone, or the generated block is in the text |
| HostRuns.RemoveReportsBlindly | internal/containerd/configure.go:100-111 | a run that gets there: after an add, a removal whose block does not match, for other options or another order, reports a change although the file is the same |
| HostRuns.InstallThenUninstall | cmd/node-installer/uninstall.go:65-95 | for a fresh shim, install then uninstall, each with its own options, restores the lock map and every other file, leaves no binary and restarts twice; the configuration is restored exactly under the round-trip condition |
| HostRuns.FirstInstall | cmd/node-installer/install.go:72-134 | on a host without a lock file a served install of one asset succeeds: the binary is in place, the lock is exactly its entry, the runtime is configured, containerd restarts once, and lock and disk agree |
| HostRuns.DroppedOptionsOutliveShim | cmd/node-installer/uninstall.go:48-95 | install with options and uninstall without: both succeed and the lock is as before, but the options stay in the configuration |
| HostSync.AssetInStep | cmd/node-installer/install.go:100-111 | a successful round with the shim's own options adds it to lock and configuration together |
| HostSync.UninstallInStep | cmd/node-installer/uninstall.go:73-81 | a successful uninstall with the shim's own options removes it from both |
| HostSync.UninstallClearsIff | cmd/node-installer/uninstall.go:48-81 | with any options, a successful uninstall clears the configuration of the shim exactly if it generates the block written for it |
| HostSync.RunsStayInStep | cmd/node-installer/install.go:72-134 | along every successful run of shims that keep their options, the lock lists exactly the runtimes whose blocks follow the base text |
| HostSync.EverythingAgrees | cmd/node-installer/uninstall.go:65-95 | after any successful run of commands about shims that keep their own options, different for different shims: in the lock exactly if mentioned in the configuration, every entry's binary has its digest, and an empty lock means the original configuration byte for byte |
| Distro.DetectDistro | cmd/node-installer/detect.go:41-72 | an explicit path wins; otherwise a found distro location decides whatever the order, the default only if none is found, and an error only if that is missing too |
| Distro.PresetTable | cmd/node-installer/detect.go:28-39 | the known locations, word for word, with the file each preset edits, its preparation and its restarter |
| Distro.PresetsFitLocations | internal/preset/preset.go:45-105 | every preset edits the file it was detected by, copies its template from it, or creates the file |
| Distro.SetupMakesConfig | internal/preset/preset.go:48-105 | a successful setup makes the configuration exist, changes no existing file, and a new template equals the detected base byte for byte; a base that cannot be opened fails the setup without a trace, and a setup fails only on an unexaminable path or a refused call |
| Distro.DetectAndSetUp | cmd/node-installer/install.go:42-52 | for any order of locations: a found distro's configuration is returned exactly if its setup succeeds, which it does when every call is served, and a new template equals the file it was detected by; the default exactly if it exists and no distro was found |
| Manifest.ManifestDescribes | internal/controller/shim_controller.go:453-581 | read as a command line, the manifest's arguments have the operation as command, the shim as value of `-r` and the mounted host root as value of `-H`; node, shim and operation are recovered by the Job reader |
| Manifest.ManifestMetadata | internal/controller/shim_controller.go:411-565 | the manifest's labels and annotations, the runtime options of the spec, and a downloader for installs only, told the shim's name |
| Manifest.TemplateDeterminesWork | internal/controller/shim_controller.go:507-551 | the immutable template alone determines node, shim and operation |
| Manifest.FinishedKindSound | internal/controller/job_controller.go:159-167 | only Complete and Failed are reported, each backed by a true condition |
| Manifest.FinishedKindStable | internal/controller/job_controller.go:159-167 | conditions that come later never change the verdict |
| Manifest.FirstMatchIsFirst | internal/controller/shim_controller.go:362-373 | the first matching platform is chosen, and none only if none matches |
| Manifest.ArchesDisjoint | internal/controller/shim_controller.go:387-406 | no entry serves both an amd64 and an arm64 node |
| Manifest.FoldsIff | internal/controller/shim_controller.go:388-390 | names are compared up to the case of letters |
| Manifest.MatchesIffServes | internal/controller/shim_controller.go:387-406 | a platform matches exactly if the system is the node's and the architecture is the node's or its uname name, up to case |
| Manifest.ArtifactChosen | internal/controller/shim_controller.go:358-383 | in terms of the spec alone: the first platform that serves the node, else the one URL without a digest, else nothing |
| Manifest.ArtifactReachesJob | internal/controller/shim_controller.go:358-426 | the install Job downloads and verifies the artifact chosen for the node; with one URL it gets exactly that location and no digest; a non-empty platform list never falls back |
| JobNames.NameFits | internal/controller/shim_controller.go:484-493 | names have at most 63 characters and are cut exactly when longer (section 2.3.4 of RFC 1035) |
| JobNames.OperationsOfOnePair | internal/controller/shim_controller.go:484-493 | install and uninstall names of one pair differ exactly when node and shim names have at most 60 characters together |
| JobNames.DifferentOperations | internal/controller/shim_controller.go:484-493 | uncut names of different operations never collide |
| JobNames.SameOperation | internal/controller/shim_controller.go:484-493 | uncut names of one operation collide exactly for equal pairs or by a dash shift |
| JobNames.NodesOfOneShim | internal/controller/shim_controller.go:484-493 | for one shim, uncut names of different nodes differ |
| Api.MergeDescribes | internal/controller/shim_controller.go:328-335 | applying a manifest over a Job of the same template keeps the Job describing the same work |
| Api.MergeTakes | internal/controller/shim_controller.go:328-335 | an apply over a Job takes every label and annotation of the manifest and keeps all others, the template and the conditions |
| ProtocolSafety.WriteNodeSound | internal/controller/job_controller.go:130-148 | a label write, successful or not, keeps the store sound and the caller's copy faithful |
| ProtocolSafety.WriteShimSound | internal/controller/shim_controller.go:223 | so does a write of the shim |
| ProtocolSafety.JobStepSound | internal/controller/job_controller.go:60-128 | every call of the Job reconciler keeps the invariant |
| ProtocolSafety.PassStepSound | internal/controller/shim_controller.go:114-168 | every call of a Shim pass outside its loop keeps it |
| ProtocolSafety.LoopStepSound | internal/controller/shim_controller.go:259-277 | every decision of the rollout and deletion loops keeps it |
| ProtocolSafety.PatchStepSound | internal/controller/shim_controller.go:323-343 | applying the Job keeps it, even onto a Job of the same cut name |
| ProtocolSafety.DeployStepSound | internal/controller/shim_controller.go:280-344 | every call of a deployment keeps it |
| ProtocolSafety.FinalStepSound | internal/controller/shim_controller.go:709-728 | removing and ensuring the finalizer keeps it |
| ProtocolSafety.NextKeepsInv | internal/controller/shim_controller.go:114-178 | every step of every actor keeps the invariant |
| ProtocolSafety.RunKeepsInv | internal/controller/job_controller.go:60-128 | every run keeps it |
| ProtocolSafety.ProvisionedOnlyAfterInstall | internal/controller/job_controller.go:77-121 | in every interleaving a node is labelled provisioned for a shim only if a Job that ran the install of that shim on that node completed |
| ProtocolTheorems.StepRecords | internal/controller/job_controller.go:159-167 | whatever a step puts on record is stored right after it, work counts as completed only through a Job that got its Complete condition, and as applied only through a Job of its name that does it |
| ProtocolTheorems.MissingMeansNotFound | internal/controller/shim_controller.go:652-655 | NotFound goes on record only for the node at hand of a pass that was answered so |
| ProtocolTheorems.InstallBehindLabel | internal/controller/job_controller.go:77-121 | in every interleaving, behind every label `provisioned` there is a Job that was stored complete, placed on exactly that node and started as `install` with exactly that runtime name |
| ProtocolTheorems.NoLostUpdate | internal/controller/shim_controller.go:283-354 | relative to what is stored just before, a call of either controller changes at most its own shim's label on its own node |
| ProtocolTheorems.OtherShimsKeepLabel | internal/controller/job_controller.go:130-148 | a label no step is after keeps its value through every interleaving |
| ProtocolTheorems.UnlabelledOnlyAfterUninstall | internal/controller/job_controller.go:115-118 | a controller takes a label off only after a completed uninstall of that shim on that node |
| ProtocolTheorems.FinalizerSafety | internal/controller/shim_controller.go:145-155 | a shim loses its finalizer only while being deleted, in a pass which itself applied an uninstall Job or was answered NotFound for every listed node with its label; the object is then released |
| ProtocolTheorems.FinalizerNeverRestored | internal/controller/shim_controller.go:125-131 | on a released object the finalizer is not restored by any later step of any run |
| ProtocolTheorems.RemovedForGood | internal/controller/shim_controller.go:125-155 | the call that takes the finalizer off takes it off for good, over every continuation |
| ProtocolTheorems.ReportLandsIff | internal/controller/job_controller.go:94-121 | whatever others do between the read and the write of a node, a report of the Job controller lands exactly if the node was not written in between; else nothing is stored and the reconcile ends all the same |
| Controllers.DeployIsLocal | internal/controller/shim_controller.go:280-344 | a deployment depends only on its own node and Job |
| Controllers.DeployLeavesOthers | internal/controller/shim_controller.go:280-344 | and changes nothing else |
| Controllers.DeployOutcome | internal/controller/shim_controller.go:290-341 | what each ending leaves behind, also where a write is carried out while the caller sees an error: label and matching Job, nothing, a pending label without a Job, or the label failed |
| Controllers.DeployResult | internal/controller/shim_controller.go:280-344 | exactly when a deployment succeeds and when its error is NotFound |
| Controllers.DeployCreates | internal/controller/shim_controller.go:358-426 | the Job of a first install downloads what the spec says for the node |
| Controllers.UninstallIgnoresFetch | internal/controller/shim_controller.go:290-318 | shims that differ only in fetchStrategy uninstall identically |
| Controllers.ClearAllIgnoresFetch | internal/controller/shim_controller.go:646-661 | so does a whole deletion pass |
| Controllers.RolloutIsPerNode | internal/controller/shim_controller.go:259-277 | every listed node ends up and is reported as if it had been visited alone |
| Controllers.RolloutLeavesOthers | internal/controller/shim_controller.go:259-277 | nodes that are not listed are untouched |
| Controllers.ClearAllShape | internal/controller/shim_controller.go:646-661 | deletion handles labelled nodes in list order up to the first error other than NotFound |
| Controllers.ReadyIffAll | internal/controller/shim_controller.go:210-219 | the ready count equals the node count exactly when every listed node is provisioned |
| Controllers.ReadyIsCount | internal/controller/shim_controller.go:210-219 | the ready count is the number of listed nodes labelled `provisioned` |
| Controllers.Client.CountReady | internal/controller/shim_controller.go:207-219 | the counts written to the status |
| Controllers.Client.DeployJobOnNode | internal/controller/shim_controller.go:280-344 | the step-by-step deployment has the specified effect and result |
| Controllers.Client.RecreateRollout | internal/controller/shim_controller.go:259-277 | one attempt for every listed node that is neither provisioned nor pending; the joined error is nil exactly when none failed |
| Controllers.Client.HandleDeleteShim | internal/controller/shim_controller.go:646-661 | fails exactly at the first error other than NotFound, and otherwise covers the whole list |
| Refinement.DeployCalls | internal/controller/shim_controller.go:280-344 | the single calls of a deployment, uninterrupted, have exactly the effect and outcome of the body |
| Refinement.RolloutCalls | internal/controller/shim_controller.go:259-277 | for all answers, lost ones included, the calls of a whole rollout loop have exactly the effect and outcomes of the rollout |
| Refinement.ClearCalls | internal/controller/shim_controller.go:646-661 | those of a whole deletion loop have the effect of the deletion, and go on to remove the finalizer exactly if no error other than NotFound occurred |
| Passes.EnsureAdds | internal/controller/shim_controller.go:719-728 | a served ensure call on the stored version of an undeleted shim adds the finalizer and keeps the others |
| Passes.RemovalTakesOff | internal/controller/shim_controller.go:708-717 | a served removal call on the stored version takes the finalizer off, and the object goes away exactly if it was the last one |
| Passes.PassKeepsWay | internal/controller/shim_controller.go:114-178 | every way through a pass of an undeleted shim, whatever lists, RuntimeClasses and deployments answer, ends only through its ensure call |
| Passes.PassEnsuresFinalizer | internal/controller/shim_controller.go:125-131 | after a whole pass of an undeleted shim it holds the finalizer, and a deletion that follows leaves it stored and deleting |
| Passes.HeadCalls | internal/controller/shim_controller.go:114-155 | from its first call to its loop a pass stores the counts of its listing as the status, and the loop of a deleting shim is the deletion |
| Passes.RolloutPass | internal/controller/shim_controller.go:114-178 | a whole served pass of an undeleted shim stores the status, has the effect of the rollout and leaves the finalizer held |
| Passes.DeletionPass | internal/controller/shim_controller.go:145-155 | a whole served pass of a deleting shim has the effect of the deletion, and the finalizer goes exactly if no error other than NotFound occurred |
| Passes.RollingNeverStarts | internal/controller/shim_controller.go:157-173 | a rolling shim, or one whose RuntimeClass call fails, is not rolled out |
| Passes.ListingIsSelected | internal/controller/shim_controller.go:663-678 | only nodes that carry the shim's node selector are listed |
| Refinement.ObserveCalls | internal/controller/job_controller.go:60-128 | so have those of the Job reconciler |
| Refinement.OtherJobsIgnored | internal/controller/job_controller.go:77-79 | a Job that names no shim is ignored |
| Refinement.ReportOutcome | internal/controller/job_controller.go:88-121 | a Job reconcile makes the label `failed`, `provisioned`, absent or leaves it, by the Job's first finishing condition and operation, and touches no other label |
| Refinement.ReportProvisionsIff | internal/controller/job_controller.go:88-121 | it leaves the node provisioned exactly if its Job is a completed install, or is unfinished and the node said so before |
| Refinement.OldInstallRelabels | internal/controller/job_controller.go:105-114 | so an old completed install Job labels a node provisioned again after a completed uninstall |
| Convergence.DistanceFalls | internal/controller/shim_controller.go:259-344 | every effective action lowers the rank sum by exactly one, no other changes it, and every node stays in one of the four linked states |
| Convergence.Progress | internal/controller/shim_controller.go:259-344 | short of the goal, some effective action is possible |
| Convergence.StatusAtGoal | internal/controller/shim_controller.go:207-219 | the next status has ready equal to count exactly at rank zero |
| Convergence.Converges | internal/controller/job_controller.go:60-128 | over every schedule of whole controller actions on fresh reads, effective actions taken plus distance left is constant, at most three per node |
| Convergence.FreshConverges | internal/controller/shim_controller.go:259-344 | from unlabelled nodes a schedule provisions every node exactly when it has three effective actions per node, and never has more |
| Convergence.PassIsReconciles | internal/controller/shim_controller.go:259-277 | a rollout over a fresh listing is the sequence of the atomic actions on its nodes |
| Convergence.StuckMeansDone | internal/controller/shim_controller.go:207-344 | a run without further effective action has every node provisioned and the status says so |
| Convergence.ShortNamesSuffice | internal/controller/shim_controller.go:484-493 | uncut names make the Jobs of different nodes distinct |
| Convergence.DoomedForever | internal/controller/shim_controller.go:262-308 | a doomed node is never provisioned by any schedule of passes, completions and Job reconciles on this and other nodes |
| Convergence.RecoversIff | internal/controller/shim_controller.go:259-344 | any unprovisioned node can be provisioned by some schedule exactly if it is not doomed, and then a pass, a completion and a report do it |
| Convergence.RetryNeverRecovers | internal/controller/shim_controller.go:484-493 | in particular a node whose Job failed never recovers, because the retry reuses the Job |
| Convergence.TakenNameNeverRecovers | internal/controller/shim_controller.go:484-493 | nor does a node whose cut Job name is taken by a Job for other work |
| Convergence.DeployDoomsIff | internal/controller/shim_controller.go:300-341 | exactly which API answers doom a node: the pending label is stored, no Job exists or follows, and the label failed is not stored |
| Convergence.StaleListSetsBack | internal/controller/shim_controller.go:265-286 | acting on any old copy, a pass leaves a ready node ready exactly if the copy says pending or provisioned, and else sets it back to pending |
| Interleaved.CallAdvances | internal/controller/shim_controller.go:114-344 | every served call of either reconciler writes at most the node it holds, and leaves it in a linked state or marked by its own pass |
| Interleaved.StepFits | internal/controller/job_controller.go:60-128 | every faultless step keeps all nodes placed, at most one pass active and no other thread disturbed |
| Interleaved.InterleavedConverges | internal/controller/shim_controller.go:259-344 | over every interleaving of single faultless calls, what has landed plus what remains is constant, at most four per node |
| Interleaved.FreshRunConverges | internal/controller/shim_controller.go:207-219 | from a fresh cluster every node is provisioned exactly when four steps per node have landed, and never more land |
| Interleaved.LinkedBetweenDeployments | internal/controller/shim_controller.go:300-335 | outside the gap between label and Job of one deployment, every node is in one of the four linked states |
| InterleavedProgress.Drive | internal/controller/shim_controller.go:114-178 | a pass caught anywhere can be served to its end, and one that is due lands |
| InterleavedProgress.AlwaysProgress | internal/controller/job_controller.go:60-128 | short of the goal, whatever is under way, some faultless continuation lands a step |
| InterleavedProgress.StuckOnlyWhenDone | internal/controller/shim_controller.go:207-344 | an interleaving that no continuation gets further has every node provisioned |
| Deletion.StuckForever | internal/controller/shim_controller.go:646-661 | a node whose uninstall Job failed, or whose Job name is taken, stays labelled under every schedule of deletion passes, completions and reports |
| Deletion.ClearsIff | internal/controller/shim_controller.go:646-661 | the label of a deleting shim can go exactly if the node is not so stuck, and then a pass, a completion and a report take it off |

## Left out

- The configuration path and the binary directory are the same in all commands of a run; only the runtime options differ between them.
- Path cleaning: asset names are plain directory entries and the binary directory is already clean, as `ReadDir` and `path.Join` deliver them.
- Runtime names containing a newline: the text theorems are about newline-free names; such a name would break the configuration's line structure.
- Manifest.EqualFold: folds ASCII letters only, not Unicode.
- JSON syntax, `null` entries in the lock, file permissions and directories: the lock is its field map and the file system a map from path to contents.
- The internals of SHA-256: the digest is an arbitrary function, so agreement of lock and disk is agreement of digests.
- Restarting containerd, D-Bus and systemd: a counter and a failure flag.
- Writing labels into a nil map: nodes carry a label map, and a Job whose node is gone ends the reconcile without effect.
- RuntimeClass creation, owner references, volumes, images and job lifetimes: an accepted or refused call in the protocol, and no fields in the manifest.
- Convergence.RecoversIff: schedules do not delete Jobs, edit the shim or set its label by hand; a Job that a user or an optional time-to-live deletes is a step of the protocol, not of the convergence model.
- The rolling strategy: it only returns an error, which the protocol models as the end of the pass.
- Job templates are compared as a whole when a manifest is applied; defaulting by the API server is not modelled.
- Interleaved.InterleavedConverges: nobody else writes a node between a call's read and its write, because a version conflict is a failed call; what a conflict costs is `ReportLandsIff`.
- Liveness under failures, crashes or stale caches: the code does not provide it; `RecoversIff` and `StaleListSetsBack` say exactly where it is lost.
- Command line, environment and manager start-up: plumbing.
