# A verified model of the interviews tool

The tool runs technical interviews: it builds a broken environment and proves its faults work, serves it to a
candidate, logs hints, hands out take-homes without their answers, and cleans up after itself in an AWS account.
This project models the parts of it where a mistake loses evidence, strands something that bills, or leaks an answer
key, and proves what the code guarantees whatever scripts, providers, file systems and other processes answer.

`dafny verify dfyconfig.toml` checks everything.

| files | what they model |
|---|---|
| `Scenario`, `Lifecycle`, `Engine`, `EngineTraces` | the debugging engine: up, break, status, fix, down, prove, and the fault record they keep |
| `Ledger`, `AppendHint`, `Merge` | the hint ledger: lockfile protocol, atomic replacement, merging |
| `Processes`, `Session` | the live session's background processes: start with rollback, stop |
| `Reaper` | the account sweep over IAM roles and instance profiles |
| `Globs`, `Leak`, `Bundle` | candidate globs, fail-closed classification, the candidate drop and its gate |
| `Encoding`, `Decimal`, `Variants`, `Target`, `Commands` | variant resolution, the bytes hashed for seeds and names, the environment and variant a later command acts on |
| `Rewriter`, `Args`, `Marker`, `Reconcile` | the stderr filter, permuted arguments, the current-session marker, the remote listing |
| `Wrappers`, `Order` | options; byte-wise string order and sorted keys |

How it is modelled:

- Code that changes state is a class or a method with the same loops and exits. Whatever it asks of the outside
  (a script, a file operation, a kill, an API call, the clock) is answered arbitrarily; such an answer is recorded (a
  trace, a log of what was seen, a `failed` flag) so that a contract can also say a call did not give up without cause.
- Theorems about runs are about relations between worlds. The class methods prove that every call is a step of the
  relation, so the run theorems speak about them.
- Library behaviour the theorems do not depend on is a function parameter: single-segment path matching, path
  cleaning, the digest, the random draw, template rendering, the warning pattern and its unquoting.
- Strings are byte strings. Go's 64-bit int is explicit where it wraps or bounds a value.

## What turned out false

Each of these has a lemma at a concrete input and, beside it, a lemma with the exact condition under which the code
does meet the property.

- The fault record can miss a fault: when the save right after an inject fails (`Lifecycle.RecordFailureLoses`), when
  `Up` cannot read the old state back over a broken cluster (`Lifecycle.UnreadStateLoses`), and after `Prove` stops
  early with faults it injected unrecorded (`Lifecycle.StoppedProofLoses`). `Lifecycle.RunsKeepTheRecord` shows that
  these results are exactly the ones that do; a `Break` that runs to the end repairs the record.
- A teardown that cannot read the state leaves it live over an empty cluster (`Lifecycle.UnreadTeardownStaysLive`), and
  no other does (`Lifecycle.TeardownStamps`).
- A later command without `--set` can miss the environment and act on other parameters: `env up p --seed s --set
  port=80` records no session, and `env status p --seed s` derives the directory of the variant without overrides
  (`Commands.DerivedWorkdirIsMissed`). It acts on what was built exactly when the problem resolves without overrides and
  the directory is given, recorded with the session, or derived under the same name
  (`Commands.LaterCommandsSeeTheVariant`, `Commands.DerivedNamesCoincide`).
- A valid integer parameter whose span exceeds a 64-bit int panics when it is drawn (`Variants.WideBoundsPanic`, exactly
  so by `Variants.NoOverridesNeverFails`). A session that pinned one with `--set` starts, and every later command without
  that `--set` panics (`Commands.PinnedWideBoundsCrashLater`).
- A successful session start can leave a process no pidfile names (`Processes.UnrecordedForwarderIsAnOrphan`): the app
  forwarder whose pidfile write was answered with an error, and nothing else (`Processes.CallsOwnTheirOrphans`).
- The seed and name hashes distinguish part lists only while parts are shorter than 2^32 bytes
  (`Encoding.SomePartsCollide`, `Encoding.DecodableMeansShort`).
- Naming a ledger twice doubles a hint whose time zone had to be decoded into a location of its own
  (`Merge.NamedTwiceDoubles`, exactly so by `Merge.RereadChangesNothing`).
- `parsePermuted` misreads a flag whose value is the literal `--` when a positional follows it and flags follow that
  (`Args.DashDashSeedMisread`, exactly so by `Args.ParsePermuted`).
- A review ends a session and leaves the marker on it (`Marker.ReviewedTakeHome`, `Marker.ReviewedStaysCurrent`); a
  delivery takes over from a session that was current only because it was the only open one
  (`Marker.UnmarkedSessionIsLost`, `Marker.DeliverTakesOver`); a `start` still building reopens its session when it was
  ended meanwhile (`Marker.LateStartReopens`, `Marker.ReopenedIsCurrent`).
- The stray hosts differ between a full and a filtered listing exactly when an ended session that never was
  provisioned has a host under its seed (`Reconcile.LocalSeedOnAHost`, `Reconcile.SameStraysEitherWay`).

## Model

| member | source | states |
|---|---|---|
| `Scenario.PackFaults` | internal/debug/scenario.go:27-35 | the faults of a pack, all of them, in order |
| `Scenario.PackSorted` | internal/debug/scenario.go:27-35 | a pack of well-formed faults is strictly sorted by id, so no id is in it twice |
| `Scenario.Lookup` | internal/debug/scenario.go:43-50 | the lookup by id |
| `Scenario.FindById` | internal/debug/scenario.go:43-50 | a listed fault of a well-formed scenario is what its id finds |
| `Scenario.LoadFaults` | internal/debug/scenario.go:124-154 | no issue exactly when there is an entry and every one is a valid fault directory; then ids are unique and sorted and every entry's fault is loaded |
| `Engine.Engine.VerifyWait` | internal/debug/engine.go:323-340 | failed verifies, a poll interval apart, up to the one that decides; cancelled only if the caller gave up, a timeout only if not, and past the deadline |
| `Engine.Engine.Up` | internal/debug/engine.go:266-298 | healthy only after detect, mkdir, provider and a passing verify in that order; the record written keeps faults of a live state of the same pack; each failure ends on the answer that caused it |
| `Engine.Engine.Break` | internal/debug/engine.go:411-438 | what is in the cluster and what is on disk after every outcome, and the trace: each inject followed by its save before the next inject |
| `Engine.Engine.Status` | internal/debug/engine.go:441-456 | one line per recorded fault in record order, each read off its own check; no unknown id under the invariant |
| `Engine.Engine.RunCheck` | internal/debug/engine.go:460-470 | exit 0 is fixed, the reserved status is cannot-run, anything else broken |
| `Engine.ReadingMeans` | internal/debug/engine.go:460-470 | only exit 0 reads as fixed and only exit 2 as cannot-run |
| `Engine.Engine.Fix` | internal/debug/engine.go:475-507 | which fixes ran, in order, fast exactly when several recorded faults are fixed at once, and how far it got |
| `Engine.Engine.Down` | internal/debug/engine.go:353-398 | what the teardown leaves of cluster, state and workdir in each of its endings, and the answer it ended on |
| `Engine.Engine.ListLeft` | internal/debug/engine.go:375-397 | names what is left in order; removes the workdir only when it holds nothing and the state file is gone |
| `Engine.Engine.SettleFor` | internal/debug/prove.go:113-121 | the longest settle, no less than the default |
| `Engine.Engine.ProveOne` | internal/debug/prove.go:58-102 | proved only after inject, settle, broken check, fix, and broken checks up to a fixed one; otherwise the answer it stopped on |
| `Engine.Engine.Converge` | internal/debug/prove.go:79-102 | polls, a poll interval apart, until the check reads fixed; gives up on convergence only past the fault's own deadline, with the caller still waiting |
| `Engine.Engine.Prove` | internal/debug/prove.go:13-56 | success means the whole proof trace happened and the record is the whole pack; every other ending names, in the trace, the answer it stopped on, everything before it proved; every outcome is a lifecycle step |
| `Engine.Engine.ProveTogether` | internal/debug/prove.go:34-53 | the whole pack in, then the recovery exactly as far as it went |
| `Engine.Engine.Recover` | internal/debug/prove.go:38-53 | after the longest settle: verify failing, every recorded fault fixed, verify passing, or the answer that stopped it |
| `EngineTraces.GreenGateProves` | internal/debug/prove.go:13-56 | a green gate saw a healthy bring-up, then every fault proved alone, in pack order and each right behind the one before, then every fault injected and recorded, verify failing, every fault fixed, and verify failing only until it passed at the end |
| `EngineTraces.DyingIsAResult` | internal/debug/engine.go:411-438 | dying between any two operations of a break leaves the world one of its results leaves, so the run theorems cover it |
| `EngineTraces.BreakTraceIsFaithful` | internal/debug/engine.go:411-438 | replaying a break's trace gives the world it left |
| `EngineTraces.BreakMissesAtMostTheLast` | internal/debug/engine.go:411-438 | wherever a break dies, between any two operations, the record misses at most one fault, and that one has no inject after it |
| `Lifecycle.RecordPrefix` | internal/debug/engine.go:430-432 | recording a prefix of the pack over a prefix keeps the longer one |
| `Lifecycle.HealthyUpRecords` | internal/debug/engine.go:283-297 | a healthy bring-up leaves a live state of this pack and these overrides, with the faults a live state of the same pack named if it could be read; any other changes no state |
| `Lifecycle.TeardownStamps` | internal/debug/engine.go:365-374 | after a teardown a state is live exactly when it was and could not be read; its pack, overrides and faults stay; one torn down before is untouched |
| `Lifecycle.UnreadTeardownStaysLive` | internal/debug/engine.go:369-374 | a live state the teardown could not read |
| `Lifecycle.TeardownLeaves` | internal/debug/engine.go:342-398 | what Up put in is gone, everything else is as it was, and whatever is not an empty directory is named, in order |
| `Lifecycle.OnlyBringUpRevives` | internal/debug/engine.go:283-297 | only a healthy bring-up, a gate's included, makes a state live |
| `Lifecycle.TornDownStaysDown` | internal/debug/engine.go:365-374 | over every run, what was torn down stays so until the next healthy bring-up |
| `Lifecycle.RunsKeepTheRecord` | internal/debug/engine.go:266-298 | over every run the record is a prefix of the pack in injection order, and it names everything in the cluster after every call exactly when no call had a losing result |
| `Lifecycle.CoveredMeans` | internal/debug/engine.go:441-456 | then no live state means no fault in the cluster, and every recorded id is a known pack fault |
| `Lifecycle.BreakAllRepairs` | internal/debug/engine.go:411-438 | a break that runs to the end names the whole pack whatever the record missed before |
| `Lifecycle.RecordFailureLoses` | internal/debug/engine.go:430-435 | a save failing right after an inject loses that fault |
| `Lifecycle.UnreadStateLoses` | internal/debug/engine.go:283-297 | an unreadable previous state loses the faults it named |
| `Lifecycle.StoppedProofLoses` | internal/debug/prove.go:58-75 | a proof that stops after its first inject loses that fault |
| `Lifecycle.ProveKeeps` | internal/debug/prove.go:13-56 | which early endings of a proof leave faults unrecorded, exactly; a green one leaves the whole pack recorded |
| `Lifecycle.RunsKeepEvidence` | internal/debug/engine.go:346-398 | no run without a purge removes or rewrites anything a session left in the workdir |
| `Ledger.AtMostOneHolder` | internal/grading/score.go:92-112 | under every interleaving at most one call is inside the lock |
| `Ledger.LedgerIsCommits` | internal/grading/score.go:116-134 | the ledger is the first content plus the committed hints in rename order, at every moment |
| `Ledger.ReturnsMatchCommits` | internal/grading/score.go:116-134 | a call that returned nil committed exactly once, one that returned an error never |
| `Ledger.ReadersSeeGrowingPrefixes` | internal/fileio/fileio.go:17-41 | an unlocked reader finds a whole ledger, and later readers see all earlier ones saw |
| `Ledger.AbandonedLockFreezes` | internal/grading/score.go:92-112 | a lockfile whose holder is gone stays and nothing is written any more |
| `AppendHint.Workdir.LockHints` | internal/grading/score.go:92-112 | takes the lock, or fails on an error or past the deadline, with other processes running in between |
| `AppendHint.Workdir.LoadHints` | internal/grading/score.go:146-162 | a missing ledger is empty, an unreadable one an error |
| `AppendHint.Workdir.WriteAtomic` | internal/fileio/fileio.go:17-41 | every operation of the temporary file and rename is a protocol step |
| `AppendHint.Workdir.Unlock` | internal/grading/score.go:98-101 | the lockfile is gone unless removing it failed |
| `AppendHint.Workdir.AppendHint` | internal/grading/score.go:116-134 | nil means the hint is in the ledger once, an error that it is not, and nothing another call wrote is lost; the lock is released unless it could not be removed |
| `AppendHint.CallOutcome` | internal/grading/score.go:114-134 | what a finished call may conclude from any run it was part of |
| `Merge.MergeHints` | internal/grading/score.go:166-179 | the loops compute the specified merge |
| `Merge.MergeIsSessionOrder` | internal/grading/score.go:164-179 | no hint twice, none lost or invented, sorted by minute, ties in order of first appearance |
| `Merge.DedupOrder` | internal/grading/score.go:166-176 | deduplication keeps the order of first appearance |
| `Merge.SortedDetermined` | internal/grading/score.go:177 | a sorted list is determined by what each minute holds, in order |
| `Merge.Absorb` | internal/cli/grade.go:88-107 | merging a merge with one more ledger is merging all of them |
| `Merge.FoldIsNary` | internal/cli/grade.go:88-107 | merging two at a time, as the sheet does, is the n-ary merge |
| `Merge.RemergeChangesNothing` | internal/grading/score.go:166-179 | merging the same loaded hints in again changes nothing |
| `Merge.RereadChangesNothing` | internal/grading/score.go:164-165 | loading a ledger again and merging it in changes nothing exactly when no hint's location was decoded for it alone |
| `Merge.NamedTwiceDoubles` | internal/grading/score.go:164-165 | one hint logged at +05:30 in a ledger named twice |
| `Merge.MergeIsIdempotent` | internal/grading/score.go:166-179 | a merged ledger merges to itself |
| `Processes.CallsOwnTheirOrphans` | internal/session/session.go:222-414 | a call orphans nothing but a process whose kill, or a forwarder whose pidfile write, was answered with an error; a successful start orphans exactly such a forwarder that lives and is in no pidfile all the same |
| `Processes.OneRecordedGeneration` | internal/session/session.go:523-574 | over every run in which no kill and no write of a forwarder's pidfile is answered with an error, nothing is orphaned and everything alive belongs to the last start that succeeded and was not stopped |
| `Processes.NothingOutlivesItsCall` | internal/session/session.go:614-630 | after a failed start or a stop nothing is alive, and a failed start leaves only pidfiles it could not remove |
| `Processes.UnrecordedForwarderIsAnOrphan` | internal/session/session.go:385-399 | a forwarder whose pidfile write failed, alive on its own after a stop that ended everything recorded |
| `Session.Manager.LivePids` | internal/session/session.go:547-574 | every recorded process still alive, or an error |
| `Session.Manager.RefuseIfRunning` | internal/session/session.go:523-543 | refuses over a live recorded process or an error; otherwise the stale pidfiles are gone |
| `Session.Manager.StartProcess` | internal/session/session.go:675-686 | the pid is returned even when recording it failed |
| `Session.Manager.WaitListening` | internal/session/session.go:498-516 | an answer on the port, or a dead process, a cancellation, or a deadline that passed |
| `Session.Manager.Cleanup` | internal/session/session.go:614-630 | afterwards only processes that could not be killed are alive, only pidfiles that could not be removed remain, and the tmux session is gone unless ending it failed |
| `Session.Manager.CheckRecorder` | internal/session/session.go:374-383 | a recorder that died ends a candidate-owned session and is dropped, pidfile and all, from a local one |
| `Session.Manager.Preflight` | internal/session/session.go:222-308 | everything that can refuse before a process exists: options, live processes, ports in use, tokens, the app, the tmux session |
| `Session.Manager.StartListeners` | internal/session/session.go:357-368 | both listeners launched and recorded, tracked even when recording one failed |
| `Session.Manager.StartForwarder` | internal/session/session.go:385-399 | the app is announced unless there is none or its forwarder failed; every process is in a pidfile but possibly a forwarder whose pidfile write was answered with an error |
| `Session.Manager.Finish` | internal/session/session.go:401-413 | the record is written, or everything is rolled back |
| `Session.Manager.Start` | internal/session/session.go:222-414 | every outcome is a step of the process model; success means usable options, both listener ports found free before any process existed, session, listeners answering, the recorder seen running where it is mandatory, the record, and no pidfile write refused but possibly the forwarder's; refusal and rollback have a cause |
| `Session.Manager.Stop` | internal/session/session.go:700-732 | every recorded live process killed or named as not killed, none but recorded ones signalled, pidfiles and tmux session gone or an error noted |
| `Reaper.ProfilesInUse` | infra/aws/account/reaper/handler.py:108-125 | exactly the profile ARNs some instance that is not terminated carries |
| `Reaper.Iam.DropProfile` | infra/aws/account/reaper/handler.py:152-155 | roles removed before the delete; a failure leaves at most this profile stripped or gone |
| `Reaper.Iam.DropRole` | infra/aws/account/reaper/handler.py:171-173 | inline policies deleted before the role, which no profile holds |
| `Reaper.Iam.SweepIam` | infra/aws/account/reaper/handler.py:132-175 | a complete sweep leaves exactly the specified account and reports exactly what it deleted, profiles first; one that dies leaves a partial one; no call names anything outside the prefix |
| `Reaper.EarlierSweepsDoNotMatter` | infra/aws/account/reaper/handler.py:132-175 | whatever an earlier sweep did before it ended, a complete later one leaves what it would have left alone |
| `Reaper.SecondSweepDeletesNothing` | infra/aws/account/reaper/handler.py:132-175 | a second sweep finds nothing doomed |
| `Reaper.RolesGoWithTheirProfiles` | infra/aws/account/reaper/handler.py:132-138 | a role goes exactly when it is eligible and every profile holding it is doomed |
| `Reaper.ProfilesThatStayAreUntouched` | infra/aws/account/reaper/handler.py:85-105 | a profile goes exactly when prefix, tags, age and disuse all agree; the others keep their roles |
| `Reaper.NoDanglingRoles` | infra/aws/account/reaper/handler.py:132-175 | wherever a sweep stops, no profile holds a role that is gone |
| `Reaper.OneCompleteSweepDecides` | infra/aws/account/reaper/handler.py:178-211 | over every run of sweeps, dead ones included, with others changing what no sweep is after in between, a complete one leaves what it would have left had no sweep run before it |
| `Reaper.QuietOutside` | infra/aws/account/reaper/handler.py:57-60 | with nothing else changing, time moving forward is all a run needs |
| `Globs.SplitJoins` | internal/leak/glob.go:22 | splitting a path loses nothing and leaves no slash in a segment |
| `Globs.MatchMeansLinesUp` | internal/leak/glob.go:41-59 | the backtracking matcher accepts exactly the names that can be cut into one fitting run per pattern segment |
| `Globs.PatternsInARow` | internal/leak/glob.go:41-59 | a concatenated pattern matches exactly what splits between its halves |
| `Globs.AdjacentAnyCollapses` | internal/leak/glob.go:41-59 | a second adjacent `**` changes nothing |
| `Globs.UnderDirectory` | internal/leak/glob.go:9-12 | `dir/**` matches the directory and everything under it |
| `Globs.CompileGlob` | internal/leak/glob.go:18-35 | which patterns compile, and to what |
| `Globs.HasAnyMeans` | internal/leak/glob.go:27-29 | two stars anywhere in a segment |
| `Leak.ProtectedMeans` | internal/leak/leak.go:125-140 | protected is exactly: a segment, at any depth, that is not plain ASCII or spells interviewer or faults in any mix of capitals, or one of the three spec files at the root |
| `Leak.FoldsInAnyCase` | internal/leak/leak.go:64-74 | case folding against a name without capitals is: the same length, and each character the name's or that letter's capital |
| `Leak.VisibleMeans` | internal/leak/leak.go:111-123 | visible is exactly: not protected, and lined up with some glob; so no visible path has an unpublishable segment |
| `Leak.NewClassifier` | internal/leak/leak.go:93-108 | which glob lists are accepted |
| `Leak.AcceptableMeans` | internal/leak/leak.go:93-108 | acceptable is: every segment compiles and none is unpublishable |
| `Leak.RefusedGlobsLoseNothing` | internal/leak/leak.go:90-92 | a glob refused for spelling out a protected directory could only have matched protected paths |
| `Leak.ScanTree` | internal/leak/leak.go:167-216 | the four lists of a scan, exactly; an error exactly when the walk met one |
| `Leak.ScanPartitions` | internal/leak/leak.go:150-164 | every file is on one of the two lists, candidate exactly when regular and classified visible |
| `Leak.UnmatchedMeans` | internal/leak/leak.go:205-214 | a glob is reported unmatched exactly when it lines up with no candidate path |
| `Leak.ScanInventsNothing` | internal/leak/leak.go:150-164 | nothing is listed that was not walked |
| `Bundle.WrittenPaths` | internal/bundle/gate.go:25-34 | the files the walk could look at |
| `Bundle.CheckGate` | internal/bundle/gate.go:41-91 | when the gate passes, exactly, and which files it names otherwise |
| `Bundle.PassingMeans` | internal/bundle/gate.go:36-40 | in a tree that passed, every file outside .git but the front page is regular and visible, and none holds a forbidden marker |
| `Bundle.ContainsMeans` | internal/bundle/gate.go:83-87 | a marker anywhere in the bytes |
| `Bundle.ScanIsAFixedPoint` | internal/leak/leak.go:167-216 | scanning a tree written from a scan's candidates gives that scan back with nothing withheld |
| `Bundle.Drop.WriteFiles` | internal/bundle/bundle.go:84-114 | every candidate file as rendered, or a cause |
| `Bundle.DropMeans` | internal/bundle/bundle.go:84-114 | each candidate file of a drop: a template's rendering or the file's own bytes, executable exactly when it was |
| `Bundle.Drop.EnsureEmptyDir` | internal/bundle/bundle.go:170-182 | refuses anything with contents and leaves it alone |
| `Bundle.Drop.Gate` | internal/bundle/gate.go:41-91 | over a drop the gate stops nothing but a forbidden marker: its path checks reject no candidate file |
| `Bundle.Drop.Write` | internal/bundle/bundle.go:51-65 | a drop that succeeds is complete and clean; one that fails leaves no output; without failures every unmarked problem is written |
| `Encoding.HashParts` | internal/variant/variant.go:120-129 | the bytes written into the hash |
| `Encoding.TwoParts` | internal/variant/variant.go:120-129 | two short parts, byte for byte |
| `Encoding.DecodableMeansShort` | internal/variant/variant.go:118-129 | the bytes give the part list back exactly when every part is shorter than 2^32 bytes |
| `Encoding.EncodeInjective` | internal/variant/variant.go:118-119 | no two lists of short parts are hashed from the same bytes |
| `Encoding.LongPartsCollide` | internal/variant/variant.go:124 | with a length truncated to 32 bits, a part of NULs collides with empty parts |
| `Encoding.SomePartsCollide` | internal/variant/variant.go:124 | two different lists hashed from the same bytes |
| `Decimal.AtoiPrint` | internal/variant/variant.go:93-96 | a printed int reads back, and has no plus sign and no leading zero |
| `Decimal.AtoiMeans` | internal/variant/variant.go:93-96 | what reads as an int: an optional sign, digits, and a 64-bit value |
| `Decimal.ReadDigitsMeans` | internal/variant/variant.go:93-96 | digits read as what they say |
| `Variants.ValidateParam` | internal/content/validate.go:107-168 | no issue exactly for the specs the manifest rules allow |
| `Variants.Resolve` | internal/variant/variant.go:32-58 | the loop computes the specified resolution, errors included |
| `Variants.ResolvedMeans` | internal/variant/variant.go:32-84 | it succeeds exactly when every parameter does alone, and holds each one's own value |
| `Variants.ResolvedValue` | internal/variant/variant.go:60-116 | each value: the override as read, else the default, else a draw over the choices or the span from the bytes of problem, interview and parameter name |
| `Variants.ReadableOverridesConvert` | internal/variant/variant.go:86-107 | every override that reads as its type and is allowed is accepted |
| `Variants.ParamsAreIndependent` | internal/variant/variant.go:1-5 | a value never depends on another parameter's spec or override |
| `Variants.SeedsAreDistinct` | internal/variant/variant.go:110-116 | different problem, interview or parameter, different seed bytes |
| `Variants.ParamTotal` | internal/variant/variant.go:60-84 | one valid parameter: in range, or a panic exactly when its span overflows |
| `Variants.ResolveSucceeds` | internal/variant/variant.go:32-107 | for valid specs, exactly when resolution succeeds; every value satisfies its spec |
| `Variants.NoOverridesNeverFails` | internal/variant/variant.go:60-84 | without overrides there is no error, and a panic exactly when some span overflows |
| `Variants.WideBoundsPanic` | internal/variant/variant.go:77 | bounds 0 to the largest int are valid and panic |
| `Variants.ConvertPrinted` | internal/variant/variant.go:86-107 | a value's printed form converts to the value |
| `Variants.PrintedOverridesReproduce` | internal/variant/variant.go:32-107 | overriding any parameters with their printed values reproduces all of them |
| `Variants.EnvName` | internal/debug/engine.go:156-166 | the name, from at most twenty bytes of the problem and the digest of the parts |
| `Variants.EnvPartsSpelled` | internal/debug/engine.go:161-164 | part by part: problem, id, then every parameter in name order, each name before its printed value |
| `Variants.EnvPartsDetermineVariant` | internal/debug/engine.go:161-164 | the parts hashed are the problem, the id and the printed parameters, no more and no less |
| `Variants.EnvBytesDetermineVariant` | internal/debug/engine.go:151-166 | two variants are named from the same bytes exactly when problem, id and printed parameters agree |
| `Variants.SameEnvBytesSameParams` | internal/debug/engine.go:151-155 | over valid specs, two resolved variants are named from the same bytes exactly when problem, id and parameters agree |
| `Target.CutMeans` | internal/cli/common.go:284-287 | a pair is cut at its first equals sign, an empty name refused |
| `Target.ParseOverrides` | internal/cli/common.go:278-291 | the loop computes the specified map |
| `Target.LastPairWins` | internal/cli/common.go:278-291 | every pair has to parse, and the last one for a name counts |
| `Target.WrittenOverridesParseBack` | internal/cli/common.go:278-291 | overrides written as `--set` values parse to the same overrides |
| `Target.LayerOverrides` | internal/cli/common.go:352-361 | recorded overrides are layered under given ones; the shortcut for equal maps never changes the answer |
| `Commands.ResolveTarget` | internal/cli/common.go:367-395 | the seed named or current, and the directory given or recorded |
| `Commands.ResolveProblem` | internal/cli/common.go:317-364 | every refusal in order; the directory given, recorded or derived from the given overrides alone; the variant layered from what is recorded there |
| `Commands.ActsWhereTold` | internal/cli/common.go:367-395 | a given seed and directory win; else the current session's seed, and the recorded directory, or the derived one when none is recorded |
| `Commands.ActsOnWhatIsRecorded` | internal/cli/common.go:343-364 | the variant of the overrides recorded there under the given ones, or with a warning of the given ones alone |
| `Commands.NoSessionMeans` | internal/cli/common.go:368-375 | refused for want of a session exactly when no seed is given and none is current |
| `Commands.BadSetMeans` | internal/cli/common.go:322-325 | refused over a pair exactly when one does not parse |
| `Commands.LateRefusals` | internal/cli/common.go:326-342 | the three refusals over the problem, each exactly when |
| `Commands.StopsMean` | internal/cli/common.go:343-351 | past them, it stops exactly when the given overrides alone do not resolve, or it needs a cache directory and has none |
| `Commands.LaterCommandsSeeTheVariant` | internal/cli/common.go:307-316 | without flags, the variant an environment was built with in its directory, exactly when the problem resolves without overrides and the command looks in that directory |
| `Commands.DerivedNamesCoincide` | internal/debug/engine.go:123-129 | a derived directory is that of the overridden variant exactly when the digests coincide; unless the digest collides, exactly when the overrides changed no parameter |
| `Commands.SameCommandAgain` | internal/cli/common.go:343-361 | the same command line acts on what it built, in the same place |
| `Commands.StartedSessionsAreFound` | internal/cli/common.go:386-393 | a started session is found again without flags exactly when the problem resolves without overrides |
| `Commands.DerivedWorkdirIsMissed` | internal/cli/common.go:347-351 | an environment brought up with `--set` and no session record, missed by the next command without it |
| `Commands.PinnedWideBoundsCrashLater` | internal/cli/common.go:343-346 | a started session that no later command can act on without its `--set` |
| `Target.GivenWinsOverRecorded` | internal/cli/common.go:352-361 | given, then recorded, then whatever no override gives |
| `Target.WarnedMeansStale` | internal/cli/common.go:355-358 | recorded overrides are dropped exactly when one of them no longer fits the specs |
| `Rewriter.LinesAppend` | internal/debug/runner.go:70-82 | more input extends the unfinished line only |
| `Rewriter.LinesAccount` | internal/debug/runner.go:64-69 | lines and rest are the input |
| `Rewriter.LinesEndOnce` | internal/debug/runner.go:70-82 | each line ends in its only newline, and the rest has none |
| `Rewriter.PlainInputPasses` | internal/debug/runner.go:61-64 | input without a warning line comes out byte for byte |
| `Rewriter.WarningIsReplaced` | internal/debug/runner.go:94-104 | a warning between plain lines comes out unquoted behind "warning: ", and no other byte changes |
| `Rewriter.UnreadableWarningPasses` | internal/debug/runner.go:99-102 | one that cannot be unquoted passes as it is |
| `Rewriter.StderrLines.Write` | internal/debug/runner.go:70-83 | finished lines are out, rewritten; the unfinished one is kept |
| `Rewriter.StderrLines.Flush` | internal/debug/runner.go:86-92 | everything received has come out, rewritten line by line |
| `Rewriter.CopyStderr` | internal/debug/runner.go:106-117 | the output depends on the bytes, not on how they were cut |
| `Args.ParsePermuted` | internal/cli/common.go:216-237 | the same as one scan from left to right, exactly when no boundary is misread |
| `Args.PermutedIsScan` | internal/cli/common.go:210-237 | the same of the specification of the loop |
| `Args.PlainScan` | internal/cli/common.go:210-237 | only positionals scan to themselves |
| `Args.TerminatorEndsFlags` | internal/cli/common.go:213-215 | everything behind the terminator is positional |
| `Args.JoinedFlagIsAssigned` | internal/cli/common.go:216-237 | `--name=value` assigns the value |
| `Args.FlagIsAssigned` | internal/cli/common.go:216-237 | `--name value` assigns the value |
| `Args.SwitchIsSet` | internal/cli/common.go:216-237 | a switch alone is true |
| `Args.BadFlagFails` | internal/cli/common.go:219-221 | a flag nobody defined, or without its value, fails the command line |
| `Args.MisreadBoundary` | internal/cli/common.go:227-229 | what a misread boundary does |
| `Args.DashDashSeedMisread` | internal/cli/common.go:227-229 | `--seed -- x --json` reads a flag as a positional |
| `Marker.Home.Current` | internal/interview/interview.go:333-363 | the marked session if it loads, else the only open one |
| `Marker.Home.SetCurrentIfIdle` | internal/interview/interview.go:275-280 | moves the marker exactly when no other open session is current |
| `Marker.Home.ClearCurrent` | internal/interview/interview.go:286-300 | drops the marker only from the named seed |
| `Marker.Home.RemoveSession` | internal/interview/interview.go:252-270 | forgets the record and the marker with it |
| `Marker.Home.StartSession` | internal/cli/interview.go:143-151 | record, then marker |
| `Marker.Home.EndSession` | internal/cli/interview.go:241-253 | closed record, then the marker let go |
| `Marker.Home.StageSession` | internal/cli/interview.go:758-768 | a review closes the record and nothing else |
| `Marker.Home.DeliverSession` | internal/cli/bundle.go:124-133 | record, then the marker if idle |
| `Marker.MarkedStaysCurrent` | internal/interview/interview.go:272-280 | which calls move the marker off an open session, exactly |
| `Marker.StartedStaysCurrent` | internal/interview/interview.go:330-332 | over every run a started session stays current until ended, reviewed, removed, or another start |
| `Marker.EndedStaysGone` | internal/interview/interview.go:282-285 | over every run an ended session is never current again unless an open record is written for its seed, by another start or delivery or by a start still building |
| `Marker.LateStartReopens` | internal/cli/interview.go:172-176 | a start that finishes after its session was ended |
| `Marker.ReopenedIsCurrent` | internal/cli/interview.go:172-176 | when a session reopened like that is current again, exactly |
| `Marker.Home.FinishStart` | internal/cli/interview.go:172-176 | the last save of a start, whatever happened to the record meanwhile |
| `Marker.FallbackNeedsOneOpen` | internal/interview/interview.go:330-363 | without a marked session, current resolves exactly when one is open |
| `Marker.RemovedIsForgotten` | internal/interview/interview.go:252-270 | a removed session has no record, no marker and is not current; other records stay |
| `Marker.BrokenMarkIsNoMark` | internal/interview/interview.go:334-339 | a marker on a broken record leaves the only open session current |
| `Marker.DeliverTakesOver` | internal/interview/interview.go:275-280 | a delivery leaves the current open session current exactly when the marker names it |
| `Marker.UnmarkedSessionIsLost` | internal/cli/bundle.go:128-133 | a delivery beside the only open, unmarked session |
| `Marker.ReviewedStaysCurrent` | internal/cli/interview.go:758-768 | a reviewed session is current exactly when the marker names it |
| `Marker.ReviewedTakeHome` | internal/cli/interview.go:758-768 | a marked take-home, reviewed |
| `Reconcile.Settle` | internal/cli/discover.go:74-118 | rows settled in place and in order, then one row per unclaimed host |
| `Reconcile.DisagreementsAreStranded` | internal/cli/discover.go:71-101 | every disagreement about a provisioned session is stranded, and a reachable one exactly when stopped or past its ttl |
| `Reconcile.OnlyProvisionedSettle` | internal/cli/discover.go:83-85 | sessions that are not provisioned keep their rows |
| `Reconcile.ListedStranded` | internal/cli/interview.go:571-619 | by itself a session is stranded exactly when provisioned, open and past its ttl, counted from its provisioning if known |
| `Reconcile.HostRowMeans` | internal/cli/discover.go:103-117 | an unclaimed host of a session recorded here is still up after its end, any other is elsewhere |
| `Reconcile.UnclaimedMeans` | internal/cli/discover.go:104-116 | the added rows, exactly; all of them demand action |
| `Reconcile.LocalRows` | internal/cli/interview.go:315-333 | the rows listed, and every seed ever recorded |
| `Reconcile.StrayHosts` | internal/cli/doctor.go:187-200 | the stray rows of the filtered listing, in order, and what they are as a set |
| `Reconcile.StraysAreAboutHosts` | internal/cli/doctor.go:187-200 | a stray demands action and is about a host the account reports or a session claims |
| `Reconcile.SameStraysEitherWay` | internal/cli/doctor.go:187-200 | the strays are the same with ended sessions listed or filtered, exactly when each ended one with a host was provisioned |
| `Reconcile.LocalSeedOnAHost` | internal/cli/doctor.go:187-200 | a local session that ended and a host under its seed |

## Left out

- A failed inject is taken to have put nothing in the cluster; a script that breaks something and then exits non-zero is not modelled.
- One engine works on one workdir at a time, with one pack; two engines sharing a workdir are not modelled, and `Lifecycle.RunsKeepTheRecord` is about runs with one pack (a state of another pack is discarded by `Up`, which `Engine.Engine.Prove` covers). Provenance, script environments and template rendering are left out.
- Running a script takes time: the clock moves by at least one tick, which is what makes the polling loops end.
- `Scenario.LoadFaults`: does not say which of several issues is reported; the pack cross-check (`checkPacks`) and the environment spec are left out.
- `Engine.Engine.Down`: a failed removal of the workdir or of a rendered entry may leave any part of it, so its contract says nothing about what is left there.
- In the ledger the content of the file is a list of hints or torn; JSON encoding is not modelled, which offsets Go decodes into a location of their own is the library's, and nobody deletes the lockfile by hand.
- In the session a kill that reports success ends its process, pids are not recycled, and pidfiles are written by this manager alone. tmux, ttyd, asciinema and the evidence pass are outcomes, not behaviour; the tokens, URLs, kubeconfig and pane logs are left out.
- `Session.Manager.Stop`: the final evidence pass and the removal of the candidate kubeconfig are left out.
- The IAM sweep is the only writer while it runs, between sweeps others leave alone what it dooms, and a listing names each entity once; paging, attached managed policies and the instance termination pass (`reapable`, one branch per tag) are left out.
- `Bundle.Drop.Write`: models the directory form; the archive form, which packs the same directory, and what git puts under .git are left out.
- File modes other than the executable bit, and directories other than .git, do not appear in a drop's tree.
- `Commands.ResolveProblem`: takes which session is current as an answer; that answer is `Marker.Home.Current`.
- Commands on the session marker are atomic but for the last save of a start, which is a call of its own.
- A call killed part-way is a step of its own for `Break` only (`EngineTraces.DyingIsAResult`); the others' results describe the same worlds, without a proof that they describe every one.
- The digest and the random generator are parameters: that different bytes give different digests is not claimed.
- `Marker.Home.Current`: a record that fails to decode counts as broken; read errors of the registry directory are left out.
- Row texts, ages and the order in which a listing is finally printed are left out of `Reconcile`.
- Terraform, the AWS command line, docker, kind and kubectl, the proxy, the rubric, redteam and sheet code, template linting, YAML and JSON decoding and help texts are left out: network clients, presentation, or one-branch rules.
