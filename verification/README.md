# Tilecast: releases, runtime closure and the Browser Player host

A Dafny model of three parts of Tilecast, each proved over every history or run:

- **Coordinated releases.** A release is planned against the ones already
  published, fingerprints the inputs of each component, decides which components
  to build and which to carry forward, is assembled with an inventory and
  checksums, and is read back before it is published. `History.Valid` is a
  growing sequence of such releases; the theorems hold of every one.
- **The runtime closure of Tilecast Edge.** Two worklists: the packages the
  operating system is expected to provide, and the libraries a release carries
  because they are not among them.
- **The Browser Player host.** Operator commands with a crash at any await, the
  host's loop with the Runtime's reports and page events between any two awaits,
  and the Companion bridge with its timers.

| file | models |
|---|---|
| Text.dfy | the order Python sorts names in, cutting text at a separator |
| Versions.dfy | version names, update codes and tags |
| Plan.dfy, Aliases.dfy | which releases may be published, what they follow, the Server image aliases |
| Inputs.dfy | fingerprints of build inputs |
| Assemble.dfy, Collect.dfy, Build.dfy, Recheck.dfy | one release: collect, status, build, resume, checksums, verify |
| Reuse.dfy, Vouched.dfy | deciding what is carried forward and checking it again; exactly when, said of the earlier release, today's importer and the registry |
| History.dfy, Promises.dfy, Holders.dfy | the history of releases, its invariants, and what the aliases promise of it |
| Unseen.dfy | a history in which a documented rule fails |
| Witness.dfy | that the assumptions below hold together |
| Closure.dfy | the package closure and the carry plan |
| Commands.dfy, Runner.dfy, Outcomes.dfy | the command store, a command's way through the Player, and where every result comes from |
| Lifecycle.dfy, Reconcile.dfy, Host.dfy, Page.dfy | the host's flags, reconciliation, and the page's handlers and cycle over its fields |
| Cycle.dfy, Anchor.dfy, Recent.dfy | the loop as a machine over awaits, its theorems, what its clock is anchored to, and how recent the answers behind health are |
| Screen.dfy | what is on the screen, what a failure leaves alone, and when the server is asked |
| Episodes.dfy | runs in which the host does less than it is documented to |
| Bridge.dfy, Companion.dfy | the Companion bridge; what the Companion said and what became of it |

## Assumptions

SHA-256 over a file is a function to 64 hexadecimal digits (`HexDigests`);
SHA-256 over the texts of a fingerprint is injective, and canonical JSON tells
bodies apart (`Inputs.CollisionFree`). The two are separate because no injective
function has 64 digits. `Witness.HistoriesExist` builds a world in which all of
this holds, with commits that differ and a file digest that tells their builds
apart, and a history in it whose last release inherits a player. A published release does not change, a contract has
distinct component ids and asset names (`Assemble.WellFormed`), git paths hold no
NUL (`Inputs.GitListing`), and the release verifier reports the version, code and
channel of the release it was asked about (`History.ReportsItself`). The network,
git, dpkg, readelf, the registry, the clock, active hours and the storage of the
browser are parameters of a step or of a function.

## Where the code does less than its documentation says

- `release_reuse.py` promises that no newer published release holds a newer build
  of a carried component. `decide` looks only at the nearest release, so where
  that release has no build of the component an older one is carried past a newer
  one: `Unseen.NewerBuildIsPassedOver` is such a history, and
  `Promises.RuleNeedsTheNewestHolder` is the exact condition. Where a newest release
  was never promoted, `beta` itself can move to an older build that way
  (`Witness.BetaGoesBack`); it does exactly when `Promises.GoesBack` holds between
  its holders (`Holders.BetaGoesBackExactly`). `stable` never does.
- A version code does not name one version: `0.26.0` and `00.26.0` are both tags
  and share a code (`Versions.LeadingZerosShareACode`). The ordering rule still
  keeps published codes apart (`Plan.PublishingKeepsCodesDistinct`).
- `beta` can fall behind `stable` when a published Beta is never promoted
  (`Aliases.UnpromotedBetaLagsStable`); `Aliases.BetaLagsExactly` says when, in
  every history, and `Aliases.StepLags` which promotion does it.
- `reconcile.ts` says a failure at any step leaves the previous activation
  untouched. A failure to release what was pinned comes after the commit: the
  activation on disk is then the new one, and its generation is taken
  (`Cycle.FailureLeavesTheActivation`).
- `lifecycle.ts` says a clock discontinuity lasts until a fresh offset is
  anchored. A reconciliation that finds nothing changed anchors the clock and
  keeps the offset from before (`Episodes.ProofOnAnOldOffset`); one that was
  answered before the discontinuity anchors it with the offset of that answer;
  and one the discontinuity falls into while the server is asked anchors it with
  an offset half a gap off, since the clock is sampled once before the request
  and once after (`Episodes.ProofOnHalfAGap`: frozen for an hour, half an hour
  off). `Anchor.AnchoredOffset` is the exact condition for both samples, and for
  the second alone.
- `lifecycle.ts` says a confirmation and a current selection date from after the
  last discontinuity. Both flags are set when the step ends, so the session may
  have been accepted, and the selection answered, before it
  (`Episodes.HealthOnAnEarlierSession`, `Episodes.HealthOnAnEarlierSelection`;
  `Recent.HealthIsAsOldAsItsAnswers` says exactly when).
- `player.ts` shows an activation it no longer trusts again when a resting screen
  wakes, over the surface that says the screen is disabled
  (`Episodes.DisabledIsShownAgain`; `Cycle.OnlyWakingShowsUntrusted` is the exact
  step). Nothing is counted for it.
- `commands.ts` says a command's key is stored before it runs. That holds for the
  Host's own handlers; a provider is asked before anything is stored, so a reload
  can ask it again (`Runner.ProvidersMayBeAskedAgain`, exact in
  `Runner.AskedAgainExactly`).
- A command just written is forgotten at once when two hundred records carry a
  later time, as they do after the clock is set back
  (`Commands.SetBackClockForgets`, exact in `Commands.JustWrittenIsKept`).

## Model

| member | source | states |
|---|---|---|
| Versions.ParsedShape | scripts/release/release_version.py:56-77 | what an accepted name fixes: a unified code is the core code times 100 plus a slot from 1 to 99, Stable is slot 99, cores reach from the cutover to major 20, and no code passes the ceiling; a legacy code is the core code, below the cutover |
| Versions.AcceptedExactly | scripts/release/release_version.py:37-77 | the names accepted are exactly those of at most 64 characters spelled `major.minor.patch`, one to nine digits each, with minor and patch below 1000 and a plain suffix or none; from 0.26.0 on the suffix is `beta.1` to `beta.98` and majors end at 20 |
| Versions.TagsAreUnifiedNames | scripts/release/release_version.py:90-105 | the tags accepted are exactly `v` before each accepted unified name, and each parses to that version |
| Versions.CodeIsUpdateOrder | scripts/release/release_version.py:108-113 | for unified names the code, and `compare`, order exactly as (major, minor, patch, slot), with equality exactly when both agree |
| Versions.CutoverOnlyRaises | scripts/release/release_version.py:9-16 | every name from before the cutover compares below every unified one |
| Versions.NamesRoundTrip | scripts/release/release_version.py:56-77 | the name written for any core from the cutover on and any slot reads back as that core and slot, accepted exactly up to major 20 |
| Versions.LegacyIgnoresSuffix | scripts/release/release_version.py:65-66 | below the cutover any suffix a name has room for is accepted and does not count: the code is the legacy formula |
| Versions.LeadingZerosShareACode | scripts/release/release_version.py:37-39 | two different accepted unified names can carry one code |
| Plan.ListPublished | scripts/release/release_plan.py:39-50 | the published coordinated versions are exactly what the tags of the non-drafts parse to, newest first |
| Plan.Newest | scripts/release/release_plan.py:57-61 | in a newest-first list, the version found has the highest code of its channel, and none is found only when there is none |
| Plan.AliasesFor | scripts/release/release_plan.py:64-78 | an alias moves only to a newest release it tracks, `latest` with `stable`, and where codes are distinct to exactly that one |
| Plan.PlanRelease | scripts/release/release_plan.py:81-122 | refused exactly for a bad tag or a code not above what its channel must pass; a published tag is never refused; the state, the release followed and the nearest release are the right ones |
| Plan.ChannelsNeverShareACode | scripts/release/release_version.py:67-74 | a Stable and a Beta tag never have equal codes |
| Plan.PublishingKeepsCodesDistinct | scripts/release/release_plan.py:91-103 | publishing what the ordering rule allows keeps all published codes distinct |
| Aliases.AliasesNeverGoBack | scripts/release/release_plan.py:17-21 | over any interleaving of publications and promotions, codes stay distinct, each alias names a published release of its kind, `latest` is `stable`, and neither alias decreases between any two points |
| Aliases.AliasNamesNewestIffPromoted | scripts/release/release_plan.py:64-67 | an alias names the newest release it tracks exactly when that release has been promoted |
| Aliases.SettledAliases | scripts/release/release_plan.py:17-21 | `stable` and `latest` name the newest Stable and `beta` the newest of either kind exactly when those two have been promoted, and then `beta` is not behind `stable` |
| Aliases.StepLags | scripts/release/release_plan.py:64-78 | a step leaves `beta` behind `stable` exactly when it promotes the newest Stable below a newer published Beta with `beta` at something older, or `beta` was behind and the step does not promote the newest release |
| Aliases.BetaLagsExactly | scripts/release/release_plan.py:17-21 | in every history `beta` is behind `stable` exactly when such a promotion left it behind and the newest release has not been promoted since |
| Aliases.UnpromotedBetaLagsStable | scripts/release/release_plan.py:104-107 | a published Beta that was never promoted leaves `beta` behind `stable` after the next Stable |
| Aliases.BetaLagsAtTags | scripts/release/release_plan.py:104-107 | so it is with v0.26.0, v0.28.0-beta.1 without its promotion, and v0.27.0 |
| Text.LessExactly | scripts/release/release_inputs.py:137 | names sort by code point: one before another exactly when they agree up to a place where the first ends or has the smaller character |
| Inputs.MakeFingerprint | scripts/release/release_inputs.py:133-147 | collating the files in path order and digesting each group gives the fingerprint defined from the counted set alone |
| Inputs.OnlyCountedFilesMatter | scripts/release/release_inputs.py:73-89 | a digest is unchanged exactly when the contract entry is and every path that is not excluded, or is kept after all, is: a change to a kept path changes it, one to any other excluded path does not |
| Inputs.GroupsAreDirectories | scripts/release/release_inputs.py:92-98 | a file at the top is in the group of the root, one under apps or packages in that of its application or package, any other in that of its first directory |
| Inputs.JoinIsUnambiguous | scripts/release/release_inputs.py:137-140 | two sorted listings joined by newlines to equal texts are the same listing, even where paths contain newlines |
| Inputs.GroupTextIsUnambiguous | scripts/release/release_inputs.py:137-140 | a group's text is equal exactly when its files are |
| Inputs.GroupChanged | scripts/release/release_inputs.py:140-146 | a group's recorded digest, or its absence, is equal exactly when its counted files are |
| Inputs.DigestIsIdentity | scripts/release/release_inputs.py:141-147 | digests are equal exactly when the contract entry and every counted file are |
| Inputs.Differences | scripts/release/release_inputs.py:155-169 | nothing is reported exactly for a recorded, equal digest; otherwise the contract entry and the groups that differ, each once, the entry first and the groups in ascending order |
| Inputs.ReportedIsExact | scripts/release/release_inputs.py:155-169 | between fingerprints of two commits the report names the contract entry exactly when it changed and a group exactly when its files did, and never the unnamed change |
| Assemble.ParseChecksums | scripts/release/release_assemble.py:91-102 | fails exactly when some line is malformed; otherwise a name is recorded exactly when some line records it, with the digest of the last such line |
| Assemble.LineExactly | scripts/release/release_assemble.py:94-101 | a line is passed over exactly when it is blank, records a name exactly when it is 64 characters up to its first two spaces and then a name, stars before it dropped, and is malformed exactly otherwise |
| Assemble.ExpandsEach | scripts/release/release_assemble.py:62-63 | in an asset name the version stands wherever the placeholder did, and the text between is as it was |
| Assemble.LineReads | scripts/release/release_assemble.py:94-101 | a written checksum line reads back as its digest and name |
| Assemble.TextSplits | scripts/release/release_assemble.py:333-337 | the written text splits back into exactly the lines written |
| Assemble.ChecksumsRoundTrip | scripts/release/release_assemble.py:91-102 | reading the written checksums gives back every name with its digest |
| Collect.CollectFiles | scripts/release/release_assemble.py:105-147 | succeeds exactly when every source agrees with its own checksums, holds no unlisted tilecast- file, and no two sources disagree on an asset; the result is every asset any source holds |
| Collect.CollectsExactly | scripts/release/release_assemble.py:105-147 | files can be collected exactly when every source's checksums can be read and confirm the files it holds, no source holds a tilecast- file that neither the contract lists nor the release writes, and no two hold different files of an asset |
| Collect.CheckSource | scripts/release/release_assemble.py:124-130 | a source is refused exactly when its checksums are malformed or differ from a file it holds |
| Collect.AddSource | scripts/release/release_assemble.py:131-144 | one source joins what is collected, or is refused exactly for a stray file or a conflict with an earlier source |
| Collect.CollectedIsAllowed | scripts/release/release_assemble.py:263-266 | what is collected holds only assets of the contract, as some source holds them, so build never finds a stray file in it |
| Build.Statuses | scripts/release/release_assemble.py:267-270 | every component is listed once, in contract order, with its status, or a component is both carried and built |
| Build.StatusExactly | scripts/release/release_assemble.py:176-245 | a component is refused exactly when it is carried and was built too, carried when it is carried and was not, and otherwise listed as built exactly when all its files are there and the importer verified it without a problem, or its image is there |
| Build.Drop | scripts/release/release_assemble.py:277-284 | removes exactly the files of the components that are unavailable |
| Build.BuildRelease | scripts/release/release_assemble.py:257-317 | succeeds exactly when the inputs are for this version, every file is the contract's, no component is both carried and built and every required one is available; then the directory is the assembled release, and otherwise it is untouched |
| Build.BuildsExactly | scripts/release/release_assemble.py:257-288 | a release can be built exactly when the version is of its channel, the report is about it, every file is an asset or one the release writes itself, nothing carried was built too, and what the channel requires is carried or was built whole |
| Build.Assemblable | scripts/release/release_assemble.py:257-317 | whatever can be built has an assembled release |
| Build.OwnFilesAreKept | scripts/release/release_assemble.py:289-295 | every file the inventory lists is in the directory, is not dropped, and is not one the release writes itself |
| Build.BuildIsVerified | scripts/release/release_assemble.py:375-434 | what build assembles from a trustworthy plan is accepted by verify with the same report, exactly when every problem names a platform |
| Build.Resume | scripts/release/release_assemble.py:342-370 | the players are split into those the draft holds complete and verified and all others, and exactly the files of the former are copied |
| Build.CompleteIsBuilt | scripts/release/release_assemble.py:342-370 | a draft holds a player exactly when a release built from the draft's files with its report would list it as built |
| Build.OnlyBuiltNeverConflicts | scripts/release/release_assemble.py:188-209 | when only components the plan builds were built, no status is the carried-and-built error |
| Recheck.Verify | scripts/release/release_assemble.py:375-434 | accepts exactly when no check fails, and returns the inventory it read |
| Recheck.AcceptedFiles | scripts/release/release_assemble.py:384-402 | an accepted directory holds the files its inventory records, each as last recorded, with the inventory and the checksums, and nothing else |
| Recheck.AcceptedChecksums | scripts/release/release_assemble.py:403-411 | its checksums read back are those of every other file and of nothing else |
| Recheck.InventoryDecides | scripts/release/release_assemble.py:392-402 | two accepted directories with one inventory hold the same files, so none can be changed, added or taken away behind it |
| Recheck.AcceptedEntries | scripts/release/release_assemble.py:412-465 | every carried entry of an accepted release says which other release it is from and is no newer than this one, of a channel it may hold, and checkable; every built player is one the importer verified; what the channel requires is there; and no problem is about anything built here |
| Recheck.VerifyFiles | scripts/release/release_assemble.py:392-411 | no problem exactly when the directory holds the listed files and no others, each as recorded, and the checksums agree |
| Recheck.VerifyChecksums | scripts/release/release_assemble.py:403-411 | no problem exactly when the checksum file parses, covers every expected file with its digest and names nothing else |
| Recheck.VerifyEntries | scripts/release/release_assemble.py:412-431 | no problem exactly when every available entry is trustworthy or verified, required components are present and every reported problem is of a platform not carried |
| Reuse.OriginVerifier.Verify | scripts/release/release_reuse.py:232-267 | the answer is the one of a verifier without a cache for a release at hand; a download that arrived is kept, and one that failed is not remembered |
| Reuse.Decide | scripts/release/release_reuse.py:124-184 | with distinct component ids, each component is decided as it is decided alone, given only whether the release it needs had arrived by its turn; where each download does what it always does, that is the plan of the history |
| Reuse.FailedDownloadsOnlyBuild | scripts/release/release_reuse.py:245-250 | whatever downloads do within a run, a component whose release did not arrive by its turn is built, and every other is decided as if all had arrived |
| Reuse.PlannedIsReverified | scripts/release/release_reuse.py:382-396 | a decision to inherit passes reverify as long as nothing it was verified against changed |
| Vouched.CarriedExactly | scripts/release/release_reuse.py:124-184 | a component is carried exactly when it is pending, reuse applies, the release followed lists a build from the same inputs that the channel may hold and the nearest release has no newer build of, and that build stands today |
| Vouched.CarriedAs | scripts/release/release_reuse.py:168-178 | the plan then says of it what that release recorded, where it is, and what its files measure, or its image is, today |
| Vouched.VerifiesExactly | scripts/release/release_reuse.py:206-267 | a player stands exactly when the release that built it is at hand, its inventory is unchanged and holds it as built in that version, today's importer has it first of its platform at that version and code without a problem of the platform, and every file is as it was recorded |
| Vouched.ImageExactly | scripts/release/release_reuse.py:270-291 | the Server stands exactly when its digest is well formed and in the registry, as that version from that commit |
| Vouched.ReverifiedExactly | scripts/release/release_reuse.py:382-396 | a plan is accepted again exactly while what it was decided on stands and a player's files measure as planned |
| Vouched.GivenUpExactly | scripts/release/release_reuse.py:342-380 | reuse is given up exactly when it is off, nothing is followed, or something is pending and a release needed cannot be read; otherwise both are read where something is pending |
| History.StepKeepsInv | scripts/release/release_reuse.py:96-102 | publishing one more release keeps every entry grounded and undowngraded |
| History.InheritanceIsGrounded | scripts/release/release_reuse.py:149-178 | in every history an inherited entry names an earlier release that built the component itself, with equal version, code, channel, inputs and payload, so inheritance never chains; the contract entry and counted files at both commits are equal however many releases carried it |
| Vouched.InheritedExactly | scripts/release/release_reuse.py:139-178 | a published release carries a component exactly when it was pending, reuse applied, and what it was carried from could be and stood when it was planned |
| Vouched.CarriedPassedToday | scripts/release/release_reuse.py:207-211 | in every history, the report of a carried player's run over the release that built it has its platform at the entry's version and code and no problem of the platform; a carried Server image was in the registry as that version from the commit that built it |
| Vouched.OldEntriesReadTheSame | scripts/release/release_reuse.py:105-121 | an entry from before codes and channels were recorded reads as the one of its version's name |
| History.NothingIsDowngraded | scripts/release/release_reuse.py:118-121 | in every history no entry is newer than its release, and a Stable release lists only Stable builds |
| Promises.BuiltOrFollowed | scripts/release/release_reuse.py:159-163 | an entry has its release's own code, or that of the release followed, and then is no older than what the nearest release holds |
| Promises.CodesDistinct | scripts/release/release_plan.py:91-103 | the releases of a history have pairwise distinct codes |
| Promises.StablesMoveForward | scripts/release/release_plan.py:104-111 | between any two Stables of a history that hold a component it never goes to a lower code, whatever was published, promoted or missing between |
| Holders.StableNeverGoesBack | scripts/release/release_plan.py:17-21 | between any two points of any history of publications and promotions, no component that both holders of `stable` hold goes to a lower code |
| Promises.NewestNeverGoesBack | scripts/release/release_plan.py:104-111 | from one newest release of either kind to the next newest no component both hold goes to a lower code, even where the next is a Stable that follows an older Stable |
| Promises.GoesBackExactly | scripts/release/release_reuse.py:145-163 | from a release that was newest when published to any later one above it, a component goes back exactly when a release on the way inherited it from below, past a build of it |
| Holders.Holder | scripts/release/release_plan.py:64-78 | in every such history `stable` names a published Stable and `beta` a release that was the newest of either kind when it was published |
| Holders.BetaGoesBackExactly | scripts/release/release_plan.py:17-21 | between any two points, a component both holders of `beta` hold goes to a lower code exactly when a release on the way from one to the other inherited it from below, past a build of it |
| Witness.BetaGoesBack | scripts/release/release_reuse.py:22-23 | a history whose third release is never promoted, in which `beta` moves to an older build |
| Promises.BetasMoveForward | scripts/release/release_reuse.py:145-163 | between Betas above every published Stable a component never goes back, even across Betas that lack it |
| Promises.RuleNeedsTheNewestHolder | scripts/release/release_reuse.py:22-23 | the documented rule holds exactly when the newest earlier release holding the component is no newer, and so whenever the nearest release holds it |
| Unseen.NewerBuildIsPassedOver | scripts/release/release_reuse.py:22-23 | a valid history in which the documented rule fails: two builds of the Windows player from different commits, a Beta whose Windows build failed, and a Stable at a commit that takes the change back, which carries the first build past the second |
| Promises.DecidedIsTrusted | scripts/release/release_assemble.py:437-465 | whatever any run that follows a history decides to carry forward has no problem as an inherited entry of its release, whether or not the run is ever assembled |
| Promises.CarriedIsTrusted | scripts/release/release_assemble.py:437-465 | so has whatever a published release carries |
| Promises.EveryReleaseIsAccepted | scripts/release/release_assemble.py:375-380 | every release of a history is accepted when read back, exactly when each problem of its report names a platform |
| Promises.ResumedRunNeverConflicts | scripts/release/release_reuse.py:139-141 | a run that resumes a draft, carries only what is pending and builds only what it decided to build meets no carried-and-built error |
| Closure.Providers | apps/edge/release/runtime_closure.py:127-130 | a name's providers are exactly the installed packages that provide it |
| Closure.FindClosure | apps/edge/release/runtime_closure.py:118-141 | terminates; fails exactly when a baseline package is not installed, naming those; otherwise the least set with the baseline closed under dependencies and providers of virtual ones |
| Closure.LookAt | apps/edge/release/runtime_closure.py:179-191 | after one file every need of it is met, carried or noted, and only what must be carried is |
| Closure.PlanCarry | apps/edge/release/runtime_closure.py:167-195 | terminates; the libraries carried are the least set that leaves no file of the release needing another, each from its real path with its owner; fails exactly when a file reached needs a library that is nowhere, and lists exactly those needs |
| Closure.DependsMakeItWhole | apps/edge/release/runtime_closure.py:118-123 | where the dependencies of closure packages name what their libraries are linked against, closure libraries need only closure libraries |
| Closure.EveryLoadResolves | apps/edge/release/runtime_closure.py:9-24 | when closure libraries need only closure libraries and nothing is left unmet, every library any binary of the release loads, however far down, is found on a system with only the closure's packages |
| Closure.CopiedFromItsPlace | apps/edge/release/runtime_closure.py:189-191 | a library is copied from where its link leads, on record as its package's |
| Closure.FewerDoNotResolve | apps/edge/release/runtime_closure.py:167-173 | with any fewer libraries carried, some file of the release needs one that is not found |
| Commands.CommandStore.Get | apps/player-web/src/commands.ts:56-63 | on a clock that moves forward, finds what was last written for a key exactly as long as fewer than 200 other keys have been written since |
| Commands.CommandStore.Write | apps/player-web/src/commands.ts:65-83 | the store becomes the records, with the new one, that fewer than 200 are newer than, and so no more than 200 |
| Commands.CommandStore.Clear | apps/player-web/src/commands.ts:85-92 | every key is as if it had never been written |
| Commands.SortByTime | apps/player-web/src/commands.ts:75-79 | the listing by key, sorted stably by time, is ordered by time and then key and lists every record |
| Commands.JustWrittenIsKept | apps/player-web/src/commands.ts:71-81 | at most 200 records are left, and the one just written is among them exactly when fewer than 200 carry a later time, so always on a clock that moves forward |
| Commands.SetBackClockForgets | apps/player-web/src/commands.ts:78-81 | with 200 records of a later time a new key is forgotten as it is written |
| Commands.KeepsTheMostRecent | apps/player-web/src/commands.ts:36-37 | with a later time on each write the store holds exactly the keys written with fewer than 200 others since, each as last written |
| Runner.AtMostOnce | apps/player-web/src/commands.ts:16-18 | in every run with reloads, lost answers and repeated deliveries, between two calls of a key's handler the store had forgotten the key |
| Runner.TwoHundredOthersBetween | apps/player-web/src/commands.ts:16-18 | on a clock that moves forward, two hundred other keys are written between two calls of a key's handler |
| Runner.StoredIsNotAsked | apps/player-web/src/commands.ts:128-151 | a provider is asked only about a key that is not stored |
| Runner.ProvidersMayBeAskedAgain | apps/player-web/src/commands.ts:170-184 | a reload while a provider works leads to the same command being asked of it again |
| Runner.AskedAgainExactly | apps/player-web/src/commands.ts:127-184 | on a clock that moves forward, a delivered command is asked of a provider exactly when nothing was ever written for its key or 200 other keys were written since |
| Runner.ResultsAreStable | apps/player-web/src/commands.ts:129-150 | once a result is stored, every later report of the key carries it while it is remembered |
| Runner.CutShortIsInterrupted | apps/player-web/src/commands.ts:132-148 | a handler cut short by a reload is only ever reported as interrupted while its key is remembered |
| Runner.StoredBeforeReported | apps/player-web/src/commands.ts:195-209 | whatever is reported was stored first, unless records of a later time pushed it out as it was written |
| Outcomes.ReportedIsAccounted | apps/player-web/src/commands.ts:127-210 | whatever is stored or reported for a command is what was known of its key, interrupted where that was running; or, where nothing was, what its handler returned since, what a provider answered, or, exactly where there is no handler and no provider answered, that it is not supported |
| Outcomes.StoredIsAccounted | apps/player-web/src/commands.ts:141-208 | every result stored was stored for such a command, or was there when the run began |
| Outcomes.CalledRightly | apps/player-web/src/commands.ts:162-195 | a handler is called only for a command that has one, and providers are asked only about one that has none |
| Outcomes.StoredForTheFirst | apps/player-web/src/commands.ts:140-148 | a key keeps the identity it was first stored with, whatever command repeats it |
| Lifecycle.HostState.RequireReconfirmation | apps/player-web/src/lifecycle.ts:136-139 | nothing is healthy until reconfirmed, and proof of play is unaffected |
| Lifecycle.HostState.MarkClockDiscontinuity | apps/player-web/src/lifecycle.ts:146-149 | and nothing is counted until the clock is anchored |
| Lifecycle.DiscontinuityExactly | apps/player-web/src/lifecycle.ts:20-30 | a clock has not jumped exactly when the wall clock went as far as the monotonic one, to five seconds either way, and that did not go back |
| Lifecycle.HostState.MarkReconciled | apps/player-web/src/lifecycle.ts:152-156 | afterwards a play counts exactly when the page is in the foreground and an authorized, accepted activation is not at rest, and is healthy exactly when the binding was confirmed too |
| Lifecycle.HostState.RevokeLocalAuthority | apps/player-web/src/lifecycle.ts:159-163 | ends trust in what is shown, and with it proof and health |
| Reconcile.Store.ReconcileSelection | apps/player-web/src/reconcile.ts:68-197 | an empty key always commits; success is unchanged exactly when the key is the remembered one and the server's time is before the remembered limit, if any, and otherwise raises the generation by one and replaces key, validity, offset, versions, plan and activation together; each failure before the commit leaves everything, the one after it leaves the new activation and its generation |
| Host.Player.RuntimeResult | apps/player-web/src/player.ts:199-205 | a result about another activation changes nothing, and nothing but the Runtime's acceptance of the one held puts it on screen |
| Host.Player.Send | apps/player-web/src/player.ts:260-283 | what is sent is what is shown, and counts for nothing yet; what is held and trusted is untouched |
| Host.Player.EvaluateRest | apps/player-web/src/player.ts:286-315 | rest needs an activation, hides what is shown and lets nothing new count; waking shows what is held; nothing else changes |
| Host.Player.Visibility | apps/player-web/src/player.ts:494-502 | nothing is healthy until reconfirmed, what is on screen is as it was, and a play counts only on a visible page that was anchored |
| Host.Player.Freeze | apps/player-web/src/player.ts:505-511 | a frozen page neither counts nor is healthy, and what is on screen is as it was |
| Host.Player.Resume | apps/player-web/src/player.ts:514-523 | a page that was frozen neither counts nor is healthy until it is anchored again |
| Host.Player.TakeOver | apps/player-web/src/player.ts:645-649 | the new activation is held and trusted, shown unless the screen rests, and counts for nothing before it is accepted |
| Host.Player.FinishReconcile | apps/player-web/src/player.ts:650-653 | current and anchored; only what is shown can change besides, and health still needs the confirmation there was |
| Host.Player.Verified | apps/player-web/src/player.ts:682-686 | a missing resource ends trust and proof, and then no answer of the server still stands |
| Page.BrowserPlayer.OnEvent | apps/player-web/src/player.ts:199-227 | every report, page event and rest timer is one step of the machine and keeps its invariant |
| Page.BrowserPlayer.SlotOpened | apps/player-web/src/player.ts:585-603 | so is confirming a binding, or finding content of another |
| Page.BrowserPlayer.ServerAnswered | apps/player-web/src/reconcile.ts:101-107 | so is the server's answer, whether it still stands or a new activation is prepared |
| Page.BrowserPlayer.ActivationCommitted | apps/player-web/src/reconcile.ts:146-184 | so is the commit |
| Page.BrowserPlayer.PinsReleased | apps/player-web/src/player.ts:645-653 | so is the end of a reconciliation that commits |
| Page.BrowserPlayer.CycleError | apps/player-web/src/player.ts:810-861 | so is each way a cycle fails |
| Page.ReconcileAtOnce | apps/player-web/src/player.ts:620-657 | reconcileSelection and what the page does with its answer leave exactly what the machine does from Fetching on when no event falls between its steps, at whichever stage it fails |
| Cycle.RunKeepsInv | apps/player-web/src/player.ts:529-618 | in every state of every run: what is authorized is held and was last sent unless the screen rests, a resting screen shows no activation, where nothing is authorized the key is empty off the terminal paths, generations only rise, and content belongs to the binding confirmed |
| Cycle.ProofIsGrounded | apps/player-web/src/lifecycle.ts:111-119 | proof of play implies an activation held, last sent, and accepted by the Runtime while it has been the one sent, and not rejected since, with a reconciliation after every clock discontinuity |
| Cycle.HealthNeedsTheServer | apps/player-web/src/lifecycle.ts:122-128 | healthy evidence implies a confirmation and a reconciliation that completed with no reset since, and content of the confirmed binding |
| Cycle.RepairIsPending | apps/player-web/src/player.ts:659-687 | while trust is lost the key is empty, and the next reconciliation to complete holds a new authorized activation of a higher generation, sent unless the screen rests |
| Cycle.FailureLeavesTheActivation | apps/player-web/src/reconcile.ts:62-67 | a failed reconciliation leaves the key and the activation held, and leaves memory and disk as they were exactly when it had not committed |
| Screen.StaysOff | apps/player-web/src/player.ts:817-857 | after a 403, a page left for good, pairing that ended, content of another binding, or an unreachable server with nothing held, no activation is shown or trusted until a screen at rest wakes holding one or a reconciliation commits one |
| Screen.ShowsAgain | apps/player-web/src/player.ts:303-305 | those two show what was kept, or the new one, unless the screen rests, and nothing counts yet |
| Screen.DisabledKeeps | apps/player-web/src/player.ts:829-852 | a 403 shows its surface and keeps what is held, neither trusted nor counted |
| Screen.KeepsPlaying | apps/player-web/src/player.ts:814-828 | an unreachable server, or any other failure of a cycle, ends health and nothing else: what is held is shown, trusted and counted as before |
| Screen.FailedCommand | apps/player-web/src/commands.ts:199-207 | a command's reconciliation that fails changes nothing held |
| Screen.Discards | apps/player-web/src/player.ts:590-598 | content that is discarded is gone from the page and from disk, and another binding's from the screen before the binding is confirmed |
| Screen.LeftWithNothing | apps/player-web/src/player.ts:837-852 | a page that left after a 401 shows, holds and remembers nothing |
| Screen.WithdrawnFirst | apps/player-web/src/player.ts:833-841 | a 401, or another identity, ends trust at once and discards what is held before the page is left |
| Screen.AsksWhen | apps/player-web/src/player.ts:599-624 | the selection is asked for exactly when the binding is confirmed in the foreground or a command asks, and a check that is due has been made first |
| Screen.ConfirmedThen | apps/player-web/src/player.ts:599-603 | a confirmed page in the background only reports; in the foreground it checks what is due or asks |
| Screen.MissingEndsTrust | apps/player-web/src/player.ts:664-687 | a missing resource ends trust, proof and the key; a check that finds all of them changes nothing |
| Screen.ReloadsAgain | apps/player-web/src/player.ts:260-283 | an operator's reload sends the activation held again, to be accepted again |
| Screen.ForegroundIs | apps/player-web/src/player.ts:494-523 | the foreground is what the page's last events said |
| Anchor.RemembersTheLast | apps/player-web/src/reconcile.ts:190-195 | while anything is remembered it is the key, limit, versions and plan of the last answer committed |
| Anchor.UnchangedExactly | apps/player-web/src/reconcile.ts:94-107 | an answer commits nothing exactly when its key is that of the last answer committed, not given up since, and the server's time is before the limit that one gave, if any; one at or past the limit never does |
| Recent.HealthIsAsOldAsItsAnswers | apps/player-web/src/lifecycle.ts:36-44 | behind healthy evidence are a session asked for and accepted and a selection asked for and answered; something was reset after the session was accepted exactly when it was reset while the slot was opened or other content discarded, after the selection was answered exactly when while it was prepared or committed, and after either was asked for exactly when anywhere on the way |
| Episodes.HealthOnAnEarlierSession | apps/player-web/src/player.ts:569-602 | a run that is healthy on a session accepted before the page was hidden and shown |
| Episodes.HealthOnAnEarlierSelection | apps/player-web/src/player.ts:620-650 | a run that is healthy on a selection answered before the page was hidden and shown, and before it answers again |
| Anchor.OffsetIsMeasured | apps/player-web/src/reconcile.ts:74-82 | the offset counted by in any state of a run is the one the loop was entered with, or the server's time less the middle of two clock samples: the one taken as that reconciliation asked, and the one as its answer, a change, arrived |
| Anchor.AnchoredOffset | apps/player-web/src/lifecycle.ts:141-145 | after a discontinuity an anchored clock means a reconciliation completed, but both samples of the offset were taken after it exactly when one since was asked, found a change and committed it, and the second alone exactly when one was answered since; where only the second was, the discontinuity fell while the server was asked |
| Episodes.ProofOnAnOldOffset | apps/player-web/src/player.ts:645-651 | a run from entering the loop in which the clock jumps a minute, the selection is what it was, and health resumes on an offset a minute off |
| Episodes.ProofOnHalfAGap | apps/player-web/src/reconcile.ts:74-82 | a run in which the page is frozen for an hour while the server is asked, and plays count on an offset half an hour off |
| Cycle.OnlyWakingShowsUntrusted | apps/player-web/src/player.ts:303-305 | a step shows an activation that is not authorized exactly when a screen at rest wakes holding one |
| Episodes.DisabledIsShownAgain | apps/player-web/src/player.ts:829-847 | a run in which a screen at rest is disabled with a 403 and its waking shows the kept activation over the disabled surface |
| Bridge.CompanionBridge.Receive | apps/player-web/src/companion-bridge.ts:89-131 | a message of another connection changes nothing; an answer settles its own request; a bye disconnects |
| Bridge.CompanionBridge.Refresh | apps/player-web/src/companion-bridge.ts:143-161 | a refresh waits at most once, and only while connected |
| Bridge.CompanionBridge.Invoke | apps/player-web/src/companion-bridge.ts:163-198 | a call is settled at once when disconnected, and otherwise pending with its own id and timer |
| Bridge.CompanionBridge.Disconnect | apps/player-web/src/companion-bridge.ts:223-240 | every pending call is settled as disconnected, its timer cleared, and the provider removed |
| Bridge.CompanionBridge.TimerFires | apps/player-web/src/companion-bridge.ts:147-183 | an invoke's timer settles that call alone; a refresh's disconnects |
| Bridge.EveryCallSettlesOnce | apps/player-web/src/companion-bridge.ts:163-214 | under any interleaving each call is settled exactly once or waits with a running timer of its own, keeps its one outcome, and nothing waits or is offered without a connection |
| Companion.EveryOutcomeIsAccounted | apps/player-web/src/companion-bridge.ts:163-240 | every outcome is the Companion's own answer to the call on the live connection, a timeout where the call's own timer fired, or disconnected where the connection was lost while it waited or there was none when it was made |
| Companion.AnsweredAsReceived | apps/player-web/src/companion-bridge.ts:200-214 | an answer in time settles its call with exactly what was received, and leaves every other call waiting |
| Companion.LostExactly | apps/player-web/src/companion-bridge.ts:109-128 | a connection is lost exactly by its own bye or by a refresh nobody answered |
| Companion.ConnectedBy | apps/player-web/src/companion-bridge.ts:93-108 | while connected, the connection is the one whose hello came first |
| Companion.OffersTheLast | apps/player-web/src/companion-bridge.ts:111-121 | the capabilities offered are those this connection described last |
| Companion.RefreshWaits | apps/player-web/src/companion-bridge.ts:143-161 | a refresh waits with its own deadline until this connection describes itself or is lost |
| Bridge.TimerSettles | apps/player-web/src/companion-bridge.ts:176-183 | a pending call is settled when its timer fires, whatever the Companion does |
| Bridge.SilenceSettlesAll | apps/player-web/src/companion-bridge.ts:147-150 | an unanswered refresh settles every pending call and leaves no timer, request or provider |

## Left out

- Release notes, command lines and reason strings: text with no further meaning.
- Compiling globs to patterns: the counted paths are given by two arbitrary predicates per profile.
- Reading git, GitHub, the registry, dpkg, ldconfig and readelf, and running the release verifier: their answers are inputs.
- Inventory fields that nothing decides on (group, label, reason, external items, the audit record of a plan): they cannot change a decision or a check.
- Universal newlines and byte encodings: a checksum file is its text after Python has read it; writing and reading the inventory is lossless.
- An unavailable component is told from the Server by its kind; the code does it by the id "server", which the contract gives to its one image.
- History.SuppliedBy: two image payloads are the same when tag and digest are, because the image name is always the current contract's.
- Publishing is one step after planning: two release workflows racing each other are not modelled.
- The promotion script's own comparison of image versions, a second guard on the same aliases.
- Closure: parsing dependency fields and the baseline file, copying the files, the record and the licences.
- Keys of commands that start with U+FFFF fall outside the range the store lists and evicts; the model lists every key.
- Runner.StoredIsNotAsked: providers get no at-most-once claim, because the code stores nothing before it asks; `Runner.AskedAgainExactly` says when one is asked again.
- In a history, whether a release can be downloaded is a function of its tag; downloads that fail within one run are in `Reuse.Decide` and `Reuse.FailedDownloadsOnlyBuild` only.
- A server time that does not parse, and the rounding of an offset kept as a floating-point number; it is a real number here.
- Unseen.NewerBuildIsPassedOver: its contract lists two of the components that contract.json lists, the Server and the x86_64 Windows player, as they are listed there.
- Results are stored as a handler returned them; cutting codes to 80 and messages to 240 characters is not modelled.
- What happens before the loop is entered: a result for a status surface can then set the accepted flag before the restored activation is sent. `Cycle.Enters` is the state the loop starts in.
- Planning a presentation, downloading resources, the rest policy and storage: an answer, a success or a decision of a step. That the check of resources on disk looks at media and not at widget frames is therefore not visible.
- Reconcile.Store.ReconcileSelection: the stages succeed or fail as given; why they do is not modelled.
- The gap between the end of a reconciliation and the page taking it over holds only promise callbacks, so no event is placed in it.
- A page that is hidden or closed ends the loop; nothing after that is modelled.
- Heartbeat contents, the display, the start button, shell updates and Activity records: reporting over the flags modelled here.
- Messages that fail validation never reach the Companion bridge, and its request ids are numbers where the code writes page-N.
- Bridge.CompanionBridge.Disconnect: the order in which pending calls fail is not modelled, since no caller can observe it.
