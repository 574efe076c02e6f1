/**
 The engine (internal/debug/engine.go, internal/debug/prove.go). Scripts, the
 provider, the file system and cancellation answer as they like; every script,
 provider call and state write is appended to the trace with its answer.
 */
module Engine {
  import opened Wrappers
  import opened Order
  import opened Scenario
  import L = Lifecycle

  type State = L.State

  datatype CheckState = Fixed | Broken | CannotRun

  /** check.sh exits with this when it could not look at all. */
  const CHECK_CANNOT_RUN_EXIT := 2

  /** A script's outcome: exit 0, another exit status, or no process behind the error. */
  datatype Exit = Zero | Status(code: int) | NoProcess

  datatype FaultStatus = FaultStatus(id: string, title: string, tier: string, state: CheckState)

  datatype Event =
    | Detected(ok: bool)
    | MadeWorkdir(ok: bool)
    | LoadFailed                             // state.json could not be read
    | RemovedEntry(name: string, ok: bool)
    | RemovedWorkdir(ok: bool)
    | Listed(ok: bool)
    | Statted(there: bool)                   // is the state file there
    | StatFailed
    | Cancel                                 // the caller gave up
    | ProviderUp(ok: bool)
    | ProviderDown(ok: bool)
    | Verify(ok: bool)
    | Inject(id: string, ok: bool)
    | Check(id: string, exit: Exit)
    | Fix(id: string, fast: bool, ok: bool)
    | Save(st: State, ok: bool)

  datatype WaitEnd = Passed | WaitCancelled | TimedOut

  datatype StatusResult = StatusRefused | UnknownId(k: nat) | Statuses(out: seq<FaultStatus>)

  datatype ProofEnd = FaultProved | NoInject | NoBreak | CannotCheck | NoFix | NoConvergence | ProofCancelled

  datatype Recovery =
    | Recovered
    | StillPasses
    | FixStopped(fix: FixResult)
    | NoRecovery(end: WaitEnd)
    | RecoveryCancelled

  datatype FixResult = FixRefused | NothingInjected | UnknownFault(k: nat) | FixFailed(k: nat) | FixedAll

  function Reading(exit: Exit): CheckState {
    match exit
    case Zero => Fixed
    case Status(code) => if code == CHECK_CANNOT_RUN_EXIT then CannotRun else Broken
    case NoProcess => Broken
  }

  /** Only exit 0 says fixed and only exit 2 says nothing; any other end of the script is the fault still there. */
  lemma ReadingMeans(exit: Exit)
    ensures Reading(exit) == Fixed <==> exit == Zero
    ensures Reading(exit) == CannotRun <==> exit == Status(2)
    ensures Reading(exit) == Broken <==> exit == NoProcess || (exit.Status? && exit.code != 2)
  {
  }

  // ---------------------------------------------------------------- traces

  function StateAfter(st: State, ids: seq<string>, k: nat): State
    requires k <= |ids|
  {
    st.(injected := L.Record(st.injected, ids[..k]))
  }

  function Noted(st: State, id: string): State {
    if id in st.injected then st else st.(injected := st.injected + [id])
  }

  /** Each fault is injected, then recorded, before the next one is touched. */
  function Progress(st: State, ids: seq<string>, k: nat): seq<Event>
    requires k <= |ids|
  {
    if k == 0 then []
    else Progress(st, ids, k - 1) + [Inject(ids[k - 1], true), Save(StateAfter(st, ids, k), true)]
  }

  function BreakTrace(st: State, ids: seq<string>, r: L.BreakResult): seq<Event>
    requires L.BreakPossible(ids, r)
  {
    match r
    case BreakRefused => []
    case InjectFailed(k, saved) => Progress(st, ids, k) + [Inject(ids[k], false), Save(StateAfter(st, ids, k), saved)]
    case RecordFailed(k) => Progress(st, ids, k) + [Inject(ids[k], true), Save(StateAfter(st, ids, k + 1), false)]
    case BrokeAll => Progress(st, ids, |ids|)
  }

  function Fixes(ids: seq<string>, fast: bool, k: nat): seq<Event>
    requires k <= |ids|
  {
    seq(k, i requires 0 <= i < k => Fix(ids[i], fast, true))
  }

  ghost predicate AllVerify(t: seq<Event>, ok: bool) {
    forall e | e in t :: e == Verify(ok)
  }

  /** n waits of d each. */
  function Times(n: nat, d: nat): nat {
    if n == 0 then 0 else Times(n - 1, d) + d
  }

  /** Failed verifies up to the one that decided. */
  ghost predicate WaitTrace(t: seq<Event>, passed: bool) {
    && t != []
    && AllVerify(t[..|t| - 1], false)
    && t[|t| - 1] == Verify(passed)
  }

  const BROUGHT_UP: seq<Event> := [Detected(true), MadeWorkdir(true), ProviderUp(true)]

  /** A bring-up that succeeded: the provider, verify until it passes, then the record. */
  ghost predicate HealthyTrace(t: seq<Event>, loadFailed: bool) {
    var tail := if loadFailed then 2 else 1;
    && |t| >= 3 + 1 + tail
    && t[..3] == BROUGHT_UP
    && WaitTrace(t[3..|t| - tail], true)
    && (loadFailed ==> t[|t| - 2] == LoadFailed)
    && t[|t| - 1].Save? && t[|t| - 1].ok
  }

  /** How a bring-up that failed ended. */
  ghost predicate FailedUpTrace(t: seq<Event>, r: L.UpResult) {
    match r
    case UpFailed(Detecting) => t == [Detected(false)]
    case UpFailed(MakingWorkdir) => t == [Detected(true), MadeWorkdir(false)]
    case UpFailed(BringingUp) => t == [Detected(true), MadeWorkdir(true), ProviderUp(false)]
    case UpFailed(_) =>
      && |t| > 3 && t[..3] == BROUGHT_UP
      && WaitTrace(WithoutCancel(t[3..]), r.stage.ChoosingPack?)
    case UpUnsaved => t != [] && t[|t| - 1].Save? && !t[|t| - 1].ok
    case Healthy(_) => true
  }

  function WithoutCancel(t: seq<Event>): seq<Event> {
    if t != [] && t[|t| - 1] == Cancel then t[..|t| - 1] else t
  }

  /** One fault proved alone: injected, seen broken, fixed, seen broken until seen fixed. */
  ghost predicate FaultProof(id: string, t: seq<Event>) {
    && |t| >= 4
    && t[0] == Inject(id, true)
    && t[1].Check? && t[1].id == id && Reading(t[1].exit) == Broken
    && t[2] == Fix(id, false, true)
    && (forall i | 3 <= i < |t| - 1 :: t[i].Check? && t[i].id == id && Reading(t[i].exit) == Broken)
    && t[|t| - 1] == Check(id, Zero)
  }

  ghost predicate Proofs(ids: seq<string>, parts: seq<seq<Event>>) {
    |parts| == |ids| && forall i | 0 <= i < |ids| :: FaultProof(ids[i], parts[i])
  }

  ghost predicate FaultProofs(ids: seq<string>, t: seq<Event>) {
    exists parts :: Proofs(ids, parts) && t == Flatten(parts)
  }

  /** After the bring-up and the single proofs: the whole pack goes in, verify fails, every fault is fixed. */
  function FullCycle(st: State, ids: seq<string>): seq<Event> {
    Progress(st, ids, |ids|) + FixAll(ids)
  }

  function FixAll(ids: seq<string>): seq<Event> {
    [Verify(false)] + Fixes(ids, |ids| > 1, |ids|)
  }

  ghost predicate IsGate(st: State, ids: seq<string>, up: seq<Event>, proofs: seq<Event>, recovery: seq<Event>) {
    && (HealthyTrace(up, false) || HealthyTrace(up, true)) && up[|up| - 1] == Save(st, true)
    && FaultProofs(ids, proofs)
    && WaitTrace(recovery, true)
  }

  /** A green gate: bring-up, each fault proved, the full cycle, and verify passing at the end. */
  ghost predicate ProvedTrace(ids: seq<string>, t: seq<Event>) {
    exists st, up, proofs, recovery ::
      && IsGate(st, ids, up, proofs, recovery)
      && t == up + proofs + FullCycle(st, ids) + recovery
  }

  /** What a fix run did, result by result; refused over a live state means it could not be read. */
  function FixTrace(ids: seq<string>, fast: bool, r: FixResult): seq<Event>
    requires FixPossible(ids, r)
  {
    match r
    case FixRefused => [LoadFailed]
    case NothingInjected => []
    case UnknownFault(k) => Fixes(ids, fast, k)
    case FixFailed(k) => Fixes(ids, fast, k) + [Fix(ids[k], fast, false)]
    case FixedAll => Fixes(ids, fast, |ids|)
  }

  predicate FixPossible(ids: seq<string>, r: FixResult) {
    match r
    case UnknownFault(k) => k < |ids|
    case FixFailed(k) => k < |ids|
    case _ => true
  }

  /** How the whole pack's recovery went, once it was in. */
  ghost predicate RecoveryTrace(why: Recovery, ids: seq<string>, t: seq<Event>) {
    match why
    case RecoveryCancelled => t == [Cancel]
    case StillPasses => t == [Verify(true)]
    case FixStopped(fix) =>
      && FixPossible(ids, fix) && !fix.FixedAll? && !fix.NothingInjected?
      && t == [Verify(false)] + FixTrace(ids, |ids| > 1, fix)
    case NoRecovery(end) => !end.Passed? && FixedThenWaited(ids, t, false)
    case Recovered => FixedThenWaited(ids, t, true)
  }

  /** Verify failed, every fault was fixed, and verify was waited for. */
  ghost predicate FixedThenWaited(ids: seq<string>, t: seq<Event>, passed: bool) {
    exists w :: WaitTrace(WithoutCancel(w), passed) && (passed ==> WithoutCancel(w) == w) && t == FixAll(ids) + w
  }

  /** Everything a gate did after the bring-up, whichever way it ended. */
  ghost predicate CycleOf(r: L.ProveResult, st: State, ids: seq<string>, t: seq<Event>) {
    match r
    case NothingToProve => false
    case ProveUp(_) => false
    case ProveFault(_, _) => exists parts :: GateStoppedAt(ids, parts) && t == Flatten(parts)
    case ProveBreak(_, broke) =>
      && !broke.BrokeAll? && L.BreakPossible(ids, broke)
      && exists parts ::
           Proofs(ids, parts)
           && t == Flatten(parts) + if broke.BreakRefused? then [LoadFailed] else BreakTrace(st, ids, broke)
    case ProveLate(_) =>
      exists parts, why, late ::
        && Proofs(ids, parts) && RecoveryTrace(why, ids, late) && why != Recovered
        && t == Flatten(parts) + (Progress(st, ids, |ids|) + late)
    case Proved(_) => CycleTrace(st, ids, t)
  }

  /** Everything a gate did, whichever way it ended. */
  ghost predicate GateOf(r: L.ProveResult, ids: seq<string>, t: seq<Event>) {
    match r
    case NothingToProve => t == []
    case ProveUp(up) => FailedUpTrace(t, up)
    case _ =>
      r.up.Healthy? && exists st, built, cycle ::
        && HealthyTrace(built, r.up.loadFailed) && built[|built| - 1] == Save(st, true)
        && CycleOf(r, st, ids, cycle) && t == built + cycle
  }

  /** How the proof of one fault stopped short. */
  ghost predicate ProofStopped(id: string, end: ProofEnd, t: seq<Event>) {
    && t != [] && t[0] == Inject(id, !end.NoInject?)
    && var last := t[|t| - 1];
    match end
    case FaultProved => false
    case NoInject => |t| == 1
    case NoBreak => |t| == 2 && last == Check(id, Zero)
    case CannotCheck => last.Check? && last.id == id && Reading(last.exit) == CannotRun
    case NoFix => |t| == 3 && last == Fix(id, false, false)
    case NoConvergence => |t| > 3 && last.Check? && last.id == id && Reading(last.exit) == Broken
    case ProofCancelled => last == Cancel
  }

  ghost predicate ProvedSoFar(ids: seq<string>, i: nat, parts: seq<seq<Event>>, before: seq<Event>, t: seq<Event>) {
    i <= |ids| && Proofs(ids[..i], parts) && t == before + Flatten(parts)
  }

  /** All faults before the last part proved, that one not. */
  ghost predicate GateStoppedAt(ids: seq<string>, parts: seq<seq<Event>>) {
    && 0 < |parts| <= |ids|
    && (forall i | 0 <= i < |parts| - 1 :: FaultProof(ids[i], parts[i]))
    && Unproved(ids[|parts| - 1], parts[|parts| - 1])
  }

  ghost predicate Unproved(id: string, t: seq<Event>) {
    exists end :: ProofStopped(id, end, t)
  }

  /** The answer a teardown ended on. */
  predicate DownEndsWith(r: L.DownResult, e: Event) {
    match r
    case ProviderFailed(_) => e == ProviderDown(false)
    case PurgeFailed(_) => e == RemovedWorkdir(false)
    case Purged => e == RemovedWorkdir(true)
    case OwnedLeft => e.RemovedEntry? && e.name in L.ENGINE_OWNED && !e.ok
    case Unstamped => e.Save? && !e.ok && e.st.tornDownAt.Some?
    case Unlisted(_) => e == Listed(false)
    case TornDown(_, kept) => if kept != [] then e == Listed(true) else e == Statted(true) || e == StatFailed
    case EmptyingFailed => e == RemovedWorkdir(false)
    case Emptied => e == RemovedWorkdir(true)
  }

  /** One status line: the recorded id, the pack's own words for it, and what its check answered. */
  predicate StatusOf(faults: seq<Fault>, id: string, line: FaultStatus, e: Event) {
    && line.id == id
    && var f := Find(faults, id);
    && f.Some? && line.title == f.value.title && line.tier == f.value.tier
    && e.Check? && e.id == f.value.id && line.state == Reading(e.exit)
  }

  // ---------------------------------------------------------------- the engine

  class Engine {
    const faults: seq<Fault>
    const pack: Option<string>              // the variant's fault_pack, when it is a string
    const overrides: map<string, string>
    const settle: nat
    const pollInterval: nat
    const fixTimeout: nat
    const verifyTimeout: nat

    var disk: Option<State>
    var cluster: set<string>
    var files: map<string, L.Node>
    var trace: seq<Event>
    var clock: nat
    var cancelled: bool                     // the caller has given up

    constructor (faults: seq<Fault>, pack: Option<string>, overrides: map<string, string>,
                 settle: nat, pollInterval: nat, fixTimeout: nat, verifyTimeout: nat, w: L.World, clock: nat)
      ensures this.faults == faults && this.pack == pack && this.overrides == overrides
      ensures World() == w && trace == []
    {
      this.faults, this.pack, this.overrides := faults, pack, overrides;
      this.settle, this.pollInterval := settle, pollInterval;
      this.fixTimeout, this.verifyTimeout := fixTimeout, verifyTimeout;
      this.disk, this.cluster, this.files := w.disk, w.cluster, w.files;
      this.trace, this.clock, this.cancelled := [], clock, false;
    }

    function World(): L.World
      reads this
    {
      L.World(disk, cluster, files)
    }

    function PackName(): string {
      if pack.Some? then pack.value else ""
    }

    function PackIds(): seq<string> {
      L.PackIds(faults, PackName())
    }

    // ------------------------------------------------------------ the outside

    /** A script runs: time passes, and the caller may give up meanwhile. */
    method Elapse()
      modifies this`clock, this`cancelled
      ensures clock > old(clock) && (old(cancelled) ==> cancelled)
    {
      var spent: int := *;
      var gaveUp: bool := *;
      cancelled := cancelled || gaveUp;
      clock := clock + 1 + (if spent < 0 then 0 else spent);
    }

    method RunInject(f: Fault) returns (ok: bool)
      modifies this`clock, this`cancelled, this`trace, this`cluster
      ensures trace == old(trace) + [Inject(f.id, ok)] && clock > old(clock)
      ensures cluster == if ok then old(cluster) + {f.id} else old(cluster)
    {
      Elapse();
      ok := *;
      trace := trace + [Inject(f.id, ok)];
      if ok {
        cluster := cluster + {f.id};
      }
    }

    method RunFix(f: Fault, fast: bool) returns (ok: bool)
      modifies this`clock, this`cancelled, this`trace
      ensures trace == old(trace) + [Event.Fix(f.id, fast, ok)] && clock > old(clock)
    {
      Elapse();
      ok := *;
      trace := trace + [Event.Fix(f.id, fast, ok)];
    }

    /** check: runs check.sh and maps its exit status. */
    method RunCheck(f: Fault) returns (s: CheckState, ghost exit: Exit)
      modifies this`clock, this`cancelled, this`trace
      ensures trace == old(trace) + [Check(f.id, exit)] && clock > old(clock)
      ensures s == Reading(exit)
    {
      Elapse();
      var answer: Exit := *;
      exit := answer;
      trace := trace + [Check(f.id, answer)];
      if answer.Zero? {
        s := Fixed;
      } else if answer.Status? && answer.code == CHECK_CANNOT_RUN_EXIT {
        s := CannotRun;
      } else {
        s := Broken;
      }
    }

    method RunVerify() returns (ok: bool)
      modifies this`clock, this`cancelled, this`trace
      ensures trace == old(trace) + [Verify(ok)] && clock > old(clock)
    {
      Elapse();
      ok := *;
      trace := trace + [Verify(ok)];
    }

    /** WriteAtomic swaps the file in whole or leaves the previous one. */
    method SaveState(st: State) returns (ok: bool)
      modifies this`disk, this`trace
      ensures trace == old(trace) + [Save(st, ok)]
      ensures disk == if ok then Some(st) else old(disk)
    {
      ok := *;
      trace := trace + [Save(st, ok)];
      if ok {
        disk := Some(st);
      }
    }

    method LoadState() returns (st: Option<State>, failed: bool)
      modifies this`trace
      ensures st == if failed then None else disk
      ensures trace == if failed then old(trace) + [LoadFailed] else old(trace)
    {
      failed := *;
      if failed {
        trace := trace + [LoadFailed];
      }
      st := if failed then None else disk;
    }

    /** The state to act on; without one, either there is none that is live or it could not be read. */
    method LiveState() returns (st: Option<State>)
      modifies this`trace
      ensures st.Some? ==> disk == st && st.value.Live() && trace == old(trace)
      ensures st.None? ==> Refusal(old(trace))
    {
      var failed;
      st, failed := LoadState();
      if st.Some? && !st.value.Live() {
        st := None;
      }
    }

    /** Why a command that needs a live state did nothing. */
    ghost predicate Refusal(before: seq<Event>)
      reads this
    {
      (trace == before && !L.HasLiveState(World())) || trace == before + [LoadFailed]
    }

    /** Waits, unless the caller has given up or does so before the time is over. */
    method Sleep(d: nat) returns (ok: bool)
      modifies this`clock, this`cancelled, this`trace
      ensures clock >= old(clock) && (old(cancelled) ==> cancelled)
      ensures d == 0 ==> ok && clock == old(clock)
      ensures ok ==> clock >= old(clock) + d
      ensures !ok ==> cancelled
      ensures d > 0 && old(cancelled) ==> !ok
      ensures trace == if ok then old(trace) else old(trace) + [Cancel]
    {
      ok := true;
      if d > 0 {
        var gaveUp: bool := *;
        cancelled := cancelled || gaveUp;
        ok := !cancelled;
        if ok {
          clock := clock + d;
        } else {
          trace := trace + [Cancel];
        }
      }
    }

    method Cancelled() returns (yes: bool)
      modifies this`trace
      ensures yes == cancelled
      ensures trace == if yes then old(trace) + [Cancel] else old(trace)
    {
      yes := cancelled;
      if yes {
        trace := trace + [Cancel];
      }
    }

    // ------------------------------------------------------------ up

    /** Polls verify until it passes, the caller gives up, or the deadline is behind. */
    method VerifyWait() returns (end: WaitEnd, ghost t: seq<Event>)
      modifies this`clock, this`cancelled, this`trace
      ensures trace == old(trace) + t && clock >= old(clock)
      ensures WaitTrace(WithoutCancel(t), end.Passed?)
      ensures end.WaitCancelled? <==> t[|t| - 1] == Cancel
      ensures end.WaitCancelled? ==> cancelled
      ensures end.TimedOut? ==> clock > old(clock) + verifyTimeout && !cancelled
      ensures clock >= old(clock) + Times(|WithoutCancel(t)| - 1, pollInterval)
    {
      var deadline := clock + verifyTimeout;
      t := [];
      while true
        invariant trace == old(trace) + t && clock >= old(clock)
        invariant AllVerify(t, false)
        invariant clock >= old(clock) + Times(|t|, pollInterval)
        decreases deadline + 1 - clock
      {
        var ok := RunVerify();
        PolledOnce(t, ok);
        t := t + [Verify(ok)];
        if ok {
          return Passed, t;
        }
        var gone := Cancelled();
        if gone {
          return WaitCancelled, t + [Cancel];
        }
        if clock > deadline {
          return TimedOut, t;
        }
        var slept := Sleep(pollInterval);
        if !slept {
          return WaitCancelled, t + [Cancel];
        }
      }
    }

    method Detect() returns (ok: bool)
      modifies this`trace
      ensures trace == old(trace) + [Detected(ok)]
    {
      ok := *;
      trace := trace + [Detected(ok)];
    }

    method MakeWorkdir() returns (ok: bool)
      modifies this`trace
      ensures trace == old(trace) + [MadeWorkdir(ok)]
    {
      ok := *;
      trace := trace + [MadeWorkdir(ok)];
    }

    /** The environment comes up and verifies, or the stage that failed. */
    method BringUp() returns (failed: Option<L.UpStage>, ghost t: seq<Event>)
      modifies this`clock, this`cancelled, this`trace, this`files
      ensures L.SameOutside(L.ENGINE_OWNED, old(files), files)
      ensures trace == old(trace) + t
      ensures failed.Some? ==> !failed.value.ChoosingPack? && FailedUpTrace(t, L.UpFailed(failed.value))
      ensures failed.None? ==> |t| > 3 && t[..3] == BROUGHT_UP && WaitTrace(t[3..], true)
    {
      var ok := Detect();
      if !ok {
        return Some(L.Detecting), [Detected(false)];
      }
      ok := MakeWorkdir();
      if !ok {
        return Some(L.MakingWorkdir), [Detected(true), MadeWorkdir(false)];
      }
      ok := ProviderUp();
      if !ok {
        return Some(L.BringingUp), [Detected(true), MadeWorkdir(true), Event.ProviderUp(false)];
      }
      assert trace == old(trace) + BROUGHT_UP;
      var end;
      ghost var waited;
      end, waited := VerifyWait();
      Regroup(old(trace), BROUGHT_UP, waited);
      t := BROUGHT_UP + waited;
      assert t[..3] == BROUGHT_UP && t[3..] == waited;
      failed := if end.Passed? then None else Some(L.Verifying);
    }

    /** Creates the environment, waits for it, and records it without forgetting faults still in it. */
    method Up() returns (r: L.UpResult, ghost t: seq<Event>)
      modifies this
      ensures L.UpStep(PackName(), overrides, old(World()), r, World())
      ensures trace == old(trace) + t
      ensures FailedUpTrace(t, r)
      ensures r == L.UpFailed(L.ChoosingPack) ==> pack.None?
      ensures r.Healthy? ==>
        && pack.Some? && HealthyTrace(t, r.loadFailed)
        && t[|t| - 1] == Save(L.Rebuilt(old(World()), PackName(), overrides, r.loadFailed), true)
    {
      var stage;
      stage, t := BringUp();
      if stage.Some? {
        return L.UpFailed(stage.value), t;
      }
      if pack.None? {
        LastIsVerify(t[3..]);
        assert t[3..][|t| - 4] == t[|t| - 1];
        return L.UpFailed(L.ChoosingPack), t;
      }
      var injected := [];
      var prev, failed := LoadState();
      if prev.Some? && prev.value.Live() && prev.value.pack == pack.value {
        injected := prev.value.injected;
      }
      var st := L.State(pack.value, overrides, injected, None);
      var ok := SaveState(st);
      ghost var tail := if failed then [LoadFailed, Save(st, ok)] else [Save(st, ok)];
      Regroup(old(trace), t, tail);
      assert trace == old(trace) + t + tail;
      UpPieces(t, tail);
      t := t + tail;
      return if ok then L.Healthy(failed) else L.UpUnsaved, t;
    }

    /** The provider may render into the workdir and write its kubeconfig; faults already in stay in. */
    method ProviderUp() returns (ok: bool)
      modifies this`clock, this`cancelled, this`trace, this`files
      ensures trace == old(trace) + [Event.ProviderUp(ok)]
      ensures L.SameOutside(L.ENGINE_OWNED, old(files), files)
    {
      Elapse();
      ok := *;
      var rendered: L.Node := *;
      var kubeconfig: bool := *;
      files := files["rendered" := rendered];
      if kubeconfig {
        files := files["kubeconfig" := L.File];
      }
      trace := trace + [Event.ProviderUp(ok)];
    }

    // ------------------------------------------------------------ break

    /** Injects the recorded pack in id order, recording each fault as it lands. */
    method Break() returns (r: L.BreakResult)
      requires WellFormed(faults)
      modifies this`disk, this`cluster, this`trace, this`clock, this`cancelled
      ensures L.BreakStep(faults, old(World()), r, World())
      ensures r.BreakRefused? ==> Refusal(old(trace))
      ensures !r.BreakRefused? ==>
        var st := old(disk).value;
        trace == old(trace) + BreakTrace(st, L.PackIds(faults, st.pack), r)
    {
      var live := LiveState();
      if live.None? {
        return L.BreakRefused;
      }
      var pack := PackFaults(faults, live.value.pack);
      r := InjectAll(live.value, pack);
    }

    method InjectAll(st0: State, pack: seq<Fault>) returns (r: L.BreakResult)
      requires disk == Some(st0)
      modifies this`disk, this`cluster, this`trace, this`clock, this`cancelled
      ensures !r.BreakRefused? && L.BreakPossible(Ids(pack), r)
      ensures disk == Some(StateAfter(st0, Ids(pack), L.Recorded(Ids(pack), r)))
      ensures cluster == old(cluster) + Elems(Ids(pack)[..L.Landed(Ids(pack), r)])
      ensures trace == old(trace) + BreakTrace(st0, Ids(pack), r)
    {
      ghost var ids := Ids(pack);
      assert ids[..0] == [];
      var st := st0;
      var i := 0;
      while i < |pack|
        invariant 0 <= i <= |pack| == |ids|
        invariant st == StateAfter(st0, ids, i) && disk == Some(st)
        invariant cluster == old(cluster) + Elems(ids[..i])
        invariant trace == old(trace) + Progress(st0, ids, i)
      {
        NextState(st0, ids, i);
        var landed, saved;
        st, landed, saved := InjectOne(st, pack[i]);
        if !landed {
          return L.InjectFailed(i, saved);
        }
        if !saved {
          return L.RecordFailed(i);
        }
        i := i + 1;
      }
      return L.BrokeAll;
    }

    /** One fault goes in; whether or not it did, what is known so far is written out. */
    method InjectOne(st: State, f: Fault) returns (next: State, landed: bool, saved: bool)
      modifies this`disk, this`cluster, this`trace, this`clock, this`cancelled
      ensures next == if landed then Noted(st, f.id) else st
      ensures disk == if saved then Some(next) else old(disk)
      ensures cluster == if landed then old(cluster) + {f.id} else old(cluster)
      ensures trace == old(trace) + [Inject(f.id, landed), Save(next, saved)]
    {
      next := st;
      landed := RunInject(f);
      if landed && f.id !in next.injected {
        next := next.(injected := next.injected + [f.id]);
      }
      saved := SaveState(next);
    }

    // ------------------------------------------------------------ status, fix

    /** Checks every recorded fault, in record order. */
    method Status() returns (r: StatusResult)
      modifies this`trace, this`clock, this`cancelled
      ensures r.StatusRefused? ==> Refusal(old(trace))
      ensures WellFormed(faults) && L.Inv(faults, PackName(), World()) ==> !r.UnknownId?
      ensures r.Statuses? ==>
        && L.HasLiveState(World())
        && |trace| == |old(trace)| + |r.out| && old(trace) <= trace
        && |r.out| == |disk.value.injected|
        && forall i | 0 <= i < |r.out| ::
             StatusOf(faults, disk.value.injected[i], r.out[i], trace[|old(trace)| + i])
    {
      var live := LiveState();
      if live.None? {
        return StatusRefused;
      }
      var injected := live.value.injected;
      var out: seq<FaultStatus> := [];
      for k := 0 to |injected|
        invariant |out| == k && |trace| == |old(trace)| + k && old(trace) <= trace
        invariant forall i | 0 <= i < k ::
          StatusOf(faults, injected[i], out[i], trace[|old(trace)| + i])
      {
        var f := Lookup(faults, injected[k]);
        if f.None? {
          if WellFormed(faults) && L.Inv(faults, PackName(), World()) {
            assert PackIds()[k] == injected[k];
            PackIdKnown(faults, PackName(), k);
            assert false;
          }
          return UnknownId(k);
        }
        var s, _ := RunCheck(f.value);
        out := out + [FaultStatus(injected[k], f.value.title, f.value.tier, s)];
      }
      return Statuses(out);
    }

    /** Applies one documented fix, or with no id every recorded one, fast when there are several. */
    method Fix(id: string) returns (r: FixResult)
      modifies this`trace, this`clock, this`cancelled
      ensures clock >= old(clock)
      ensures r.FixRefused? ==> Refusal(old(trace))
      ensures !r.FixRefused? ==>
        && L.HasLiveState(World())
        && var ids := if id != "" then [id] else disk.value.injected;
        && var fast := id == "" && |ids| > 1;
        && (r.NothingInjected? <==> ids == [])
        && match r
           case UnknownFault(k) => k < |ids| && Find(faults, ids[k]).None? && trace == old(trace) + Fixes(ids, fast, k)
           case FixFailed(k) =>
             k < |ids| && trace == old(trace) + Fixes(ids, fast, k) + [Event.Fix(ids[k], fast, false)]
           case NothingInjected => trace == old(trace)
           case FixedAll => trace == old(trace) + Fixes(ids, fast, |ids|)
           case FixRefused => true
    {
      var live := LiveState();
      if live.None? {
        return FixRefused;
      }
      var ids := live.value.injected;
      var fast := false;
      if id != "" {
        ids := [id];
      } else if |ids| > 1 {
        fast := true;
      }
      if |ids| == 0 {
        return NothingInjected;
      }
      for k := 0 to |ids|
        invariant trace == old(trace) + Fixes(ids, fast, k) && clock >= old(clock)
      {
        var f := Lookup(faults, ids[k]);
        if f.None? {
          return UnknownFault(k);
        }
        FindSound(faults, ids[k]);
        var ok := RunFix(f.value, fast);
        if !ok {
          return FixFailed(k);
        }
        assert Fixes(ids, fast, k + 1) == Fixes(ids, fast, k) + [Event.Fix(ids[k], fast, true)];
      }
      return FixedAll;
    }

    // ------------------------------------------------------------ down

    /** Tears the environment down, keeping the record and everything a session left; purge keeps nothing. */
    method Down(purge: bool) returns (r: L.DownResult)
      modifies this
      ensures L.DownStep(purge, old(World()), r, World())
      ensures old(trace) < trace && DownEndsWith(r, trace[|trace| - 1])
    {
      var ok := ProviderDown();
      if !ok {
        return L.ProviderFailed(cluster);
      }
      if purge {
        ok := RemoveWorkdir();
        return if ok then L.Purged else L.PurgeFailed(disk.None?);
      }
      var owned := ["rendered", "kubeconfig"];
      for i := 0 to 2
        invariant disk == old(disk) && cluster == {} && old(trace) < trace
        invariant L.SameOutside(L.ENGINE_OWNED, old(files), files)
        invariant forall j | 0 <= j < i :: owned[j] !in files
      {
        ghost var before := files;
        ok := RemoveEntry(owned[i]);
        SameOutsideMore(owned[i], L.ENGINE_OWNED, before, files);
        if !ok {
          return L.OwnedLeft;
        }
      }
      assert "rendered" == owned[0] && "kubeconfig" == owned[1];
      assert files == old(files) - L.ENGINE_OWNED;
      ghost var now := clock;
      var st, failed := LoadState();
      if st.Some? && st.value.Live() {
        ok := SaveState(st.value.(tornDownAt := Some(clock)));
        if !ok {
          return L.Unstamped;
        }
      }
      assert World() == L.World(L.Stamped(old(disk), failed, now), {}, old(files) - L.ENGINE_OWNED);
      r := ListLeft(failed);
    }

    /** Names what is left in the workdir; one that holds nothing, the state file included, is removed. */
    method ListLeft(failed: bool) returns (r: L.DownResult)
      modifies this`files, this`disk, this`trace
      ensures old(trace) < trace && DownEndsWith(r, trace[|trace| - 1])
      ensures r == L.Unlisted(failed) || r == L.TornDown(failed, L.Kept(files)) || r.Emptied? || r.EmptyingFailed?
      ensures r.Unlisted? || r.TornDown? ==> World() == old(World())
      ensures r.Emptied? || r.EmptyingFailed? ==> old(disk) == None && L.Kept(old(files)) == [] && disk == None
      ensures r.Emptied? ==> files == map[]
    {
      var ok: bool := *;
      trace := trace + [Listed(ok)];
      if !ok {
        return L.Unlisted(failed);
      }
      var kept := L.Kept(files);
      if |kept| == 0 {
        var there := StatState();
        if there == Some(false) {
          ok := RemoveWorkdir();
          return if ok then L.Emptied else L.EmptyingFailed;
        }
      }
      return L.TornDown(failed, kept);
    }

    /** Whether the state file is there, if that can be told. */
    method StatState() returns (there: Option<bool>)
      modifies this`trace
      ensures there.Some? ==> there.value == disk.Some? && trace == old(trace) + [Statted(there.value)]
      ensures there.None? ==> trace == old(trace) + [StatFailed]
    {
      var told: bool := *;
      there := if told then Some(disk.Some?) else None;
      trace := trace + [if told then Statted(disk.Some?) else StatFailed];
    }

    method ProviderDown() returns (ok: bool)
      modifies this`clock, this`cancelled, this`trace, this`cluster
      ensures trace == old(trace) + [Event.ProviderDown(ok)]
      ensures if ok then cluster == {} else cluster <= old(cluster)
    {
      Elapse();
      ok := *;
      var gone: set<string> := *;
      cluster := if ok then {} else cluster - gone;
      trace := trace + [Event.ProviderDown(ok)];
    }

    /** os.RemoveAll on one entry; a failure may leave some of it behind. */
    method RemoveEntry(name: string) returns (ok: bool)
      modifies this`files, this`trace
      ensures trace == old(trace) + [RemovedEntry(name, ok)]
      ensures ok ==> files == old(files) - {name}
      ensures L.SameOutside({name}, old(files), files)
    {
      ok := *;
      trace := trace + [RemovedEntry(name, ok)];
      if ok {
        files := files - {name};
      } else {
        var left: L.Node := *;
        if name in files {
          files := files[name := left];
        }
      }
    }

    /** os.RemoveAll on the workdir; a failure may have removed any part of it. */
    method RemoveWorkdir() returns (ok: bool)
      modifies this`files, this`disk, this`trace
      ensures trace == old(trace) + [RemovedWorkdir(ok)]
      ensures ok ==> files == map[] && disk == None
      ensures disk == None || disk == old(disk)
    {
      ok := *;
      trace := trace + [RemovedWorkdir(ok)];
      var stateGone: bool := *;
      if ok {
        files, disk := map[], None;
      } else {
        files := *;
        if stateGone {
          disk := None;
        }
      }
    }

    // ------------------------------------------------------------ prove

    /** The longest settle of the faults, and no less than the default. */
    method SettleFor(fs: seq<Fault>) returns (most: nat)
      ensures most >= settle
      ensures forall f | f in fs :: most >= f.settleSeconds
      ensures most == settle || exists f | f in fs :: most == f.settleSeconds
    {
      most := settle;
      for i := 0 to |fs|
        invariant most >= settle
        invariant forall j | 0 <= j < i :: most >= fs[j].settleSeconds
        invariant most == settle || exists j | 0 <= j < i :: most == fs[j].settleSeconds
      {
        if fs[i].settleSeconds > most {
          most := fs[i].settleSeconds;
        }
      }
    }

    /** One fault alone: it must break the check when injected and converge once fixed. */
    method ProveOne(f: Fault) returns (end: ProofEnd, ghost t: seq<Event>)
      modifies this`cluster, this`trace, this`clock, this`cancelled
      ensures cluster == if end.NoInject? then old(cluster) else old(cluster) + {f.id}
      ensures trace == old(trace) + t
      ensures end.FaultProved? ==> FaultProof(f.id, t)
      ensures !end.FaultProved? ==> ProofStopped(f.id, end, t)
      ensures !end.NoInject? && !end.ProofCancelled? ==>
        clock >= old(clock) + settle && clock >= old(clock) + f.settleSeconds
    {
      var ok := RunInject(f);
      t := [Inject(f.id, ok)];
      if !ok {
        return NoInject, t;
      }
      var settleTime := SettleFor([f]);
      ok := Sleep(settleTime);
      if !ok {
        return ProofCancelled, t + [Cancel];
      }
      var s, exit := RunCheck(f);
      t := t + [Check(f.id, exit)];
      if s.CannotRun? {
        return CannotCheck, t;
      }
      if s.Fixed? {
        return NoBreak, t;
      }
      ok := RunFix(f, false);
      t := t + [Event.Fix(f.id, false, ok)];
      if !ok {
        return NoFix, t;
      }
      end, t := Converge(f, t, old(trace));
    }

    /** Polls the check after the documented fix until it reads fixed. */
    method Converge(f: Fault, ghost t0: seq<Event>, ghost before: seq<Event>)
      returns (end: ProofEnd, ghost t: seq<Event>)
      requires trace == before + t0
      requires |t0| == 3 && t0[0] == Inject(f.id, true) && t0[2] == Event.Fix(f.id, false, true)
      requires t0[1].Check? && t0[1].id == f.id && Reading(t0[1].exit) == Broken
      modifies this`trace, this`clock, this`cancelled
      ensures trace == before + t && clock >= old(clock)
      ensures !end.NoInject?
      ensures end.FaultProved? ==> FaultProof(f.id, t)
      ensures !end.FaultProved? ==> ProofStopped(f.id, end, t)
      ensures end.NoConvergence? ==>
        clock > old(clock) + (if f.fixTimeoutSeconds > 0 then f.fixTimeoutSeconds else fixTimeout) && !cancelled
      ensures end.FaultProved? || end.NoConvergence? ==> clock >= old(clock) + Times(|t| - |t0| - 1, pollInterval)
    {
      t := t0;
      var timeout: nat := if f.fixTimeoutSeconds > 0 then f.fixTimeoutSeconds else fixTimeout;
      var deadline := clock + timeout;
      while true
        invariant trace == before + t && clock >= old(clock)
        invariant |t| >= 3 && t[..3] == t0
        invariant forall i | 3 <= i < |t| :: t[i].Check? && t[i].id == f.id && Reading(t[i].exit) == Broken
        invariant clock >= old(clock) + Times(|t| - |t0|, pollInterval)
        decreases deadline + 1 - clock
      {
        var now, answer := RunCheck(f);
        t := t + [Check(f.id, answer)];
        assert t[..3] == t0;
        if now.Fixed? {
          assert t[0] == t0[0] && t[1] == t0[1] && t[2] == t0[2];
          return FaultProved, t;
        }
        if now.CannotRun? {
          return CannotCheck, t;
        }
        var gone := Cancelled();
        if gone {
          return ProofCancelled, t + [Cancel];
        }
        if clock > deadline {
          return NoConvergence, t;
        }
        var ok := Sleep(pollInterval);
        if !ok {
          return ProofCancelled, t + [Cancel];
        }
      }
    }

    /** The next fault alone, behind the proofs there already are. */
    method ProveNext(pack: seq<Fault>, i: nat, ghost parts: seq<seq<Event>>, ghost before: seq<Event>)
      returns (end: ProofEnd, ghost longer: seq<seq<Event>>)
      requires i < |pack| && ProvedSoFar(Ids(pack), i, parts, before, trace)
      modifies this`cluster, this`trace, this`clock, this`cancelled
      ensures cluster == if end.NoInject? then old(cluster) else old(cluster) + {pack[i].id}
      ensures trace == before + Flatten(longer)
      ensures end.FaultProved? ==> ProvedSoFar(Ids(pack), i + 1, longer, before, trace)
      ensures !end.FaultProved? ==> GateStoppedAt(Ids(pack), longer)
    {
      ghost var ids := Ids(pack);
      ghost var t;
      end, t := ProveOne(pack[i]);
      longer := parts + [t];
      if end.FaultProved? {
        ExtendProofs(ids, i, parts, t, before);
      } else {
        StopProofs(ids, i, parts, t, end, before);
      }
    }

    /** Every fault alone, in order; stops at the first that fails its proof. */
    method ProveEach(pack: seq<Fault>) returns (ok: bool, injects: nat, ghost parts: seq<seq<Event>>)
      modifies this`cluster, this`trace, this`clock, this`cancelled
      ensures injects <= |pack| && (ok ==> injects == |pack|)
      ensures cluster == old(cluster) + Elems(Ids(pack)[..injects])
      ensures trace == old(trace) + Flatten(parts)
      ensures if ok then Proofs(Ids(pack), parts) else GateStoppedAt(Ids(pack), parts)
    {
      ghost var ids := Ids(pack);
      assert ids[..0] == [] && ids[..|ids|] == ids;
      injects, parts := 0, [];
      while injects < |pack|
        invariant injects <= |pack|
        invariant cluster == old(cluster) + Elems(ids[..injects])
        invariant ProvedSoFar(ids, injects, parts, old(trace), trace)
      {
        NextElems(ids, injects);
        var end;
        end, parts := ProveNext(pack, injects, parts, old(trace));
        if !end.FaultProved? {
          return false, if end.NoInject? then injects else injects + 1, parts;
        }
        injects := injects + 1;
      }
      return true, injects, parts;
    }

    /** With the whole pack in: verify has to fail, and fixing everything has to bring it back. */
    method Recover(pack: seq<Fault>) returns (why: Recovery, ghost late: seq<Event>)
      modifies this`trace, this`clock, this`cancelled
      ensures trace == old(trace) + late
      ensures L.HasLiveState(World()) ==> RecoveryTrace(why, disk.value.injected, late)
      ensures !why.RecoveryCancelled? ==>
        clock >= old(clock) + settle && forall f | f in pack :: clock >= old(clock) + f.settleSeconds
    {
      var settleTime := SettleFor(pack);
      var slept := Sleep(settleTime);
      if !slept {
        return RecoveryCancelled, [Cancel];
      }
      var verified := RunVerify();
      if verified {
        return StillPasses, [Event.Verify(true)];
      }
      why, late := FixUp(old(trace));
    }

    /** Fixes every recorded fault and waits for verify to pass again. */
    method FixUp(ghost before: seq<Event>) returns (why: Recovery, ghost late: seq<Event>)
      requires trace == before + [Event.Verify(false)]
      modifies this`trace, this`clock, this`cancelled
      ensures trace == before + late && clock >= old(clock)
      ensures !why.RecoveryCancelled? && !why.StillPasses?
      ensures L.HasLiveState(World()) ==> RecoveryTrace(why, disk.value.injected, late)
    {
      var fixed := Fix("");
      ghost var ids := if L.HasLiveState(World()) then disk.value.injected else [];
      ghost var live := L.HasLiveState(World());
      if !fixed.FixedAll? && !fixed.NothingInjected? {
        late := if live then [Event.Verify(false)] + FixTrace(ids, |ids| > 1, fixed) else trace[|before|..];
        if live {
          Regroup(before, [Event.Verify(false)], FixTrace(ids, |ids| > 1, fixed));
        }
        return FixStopped(fixed), late;
      }
      Regroup(before, [Event.Verify(false)], Fixes(ids, |ids| > 1, |ids|));
      assert trace == before + FixAll(ids);
      var end;
      ghost var waited;
      end, waited := VerifyWait();
      Regroup(before, FixAll(ids), waited);
      late := FixAll(ids) + waited;
      if end.Passed? {
        assert WithoutCancel(waited) == waited;
        assert FixedThenWaited(ids, late, true);
        return Recovered, late;
      }
      assert WaitTrace(WithoutCancel(waited), false);
      assert FixedThenWaited(ids, late, false);
      return NoRecovery(end), late;
    }

    /** The gate: every fault proved alone, then the whole pack breaks and recovers. */
    method Prove() returns (r: L.ProveResult, ghost t: seq<Event>)
      requires WellFormed(faults)
      modifies this
      ensures r.NothingToProve? <==> pack.None? || PackIds() == []
      ensures trace == old(trace) + t
      ensures L.ProveStep(faults, PackName(), overrides, old(World()), r, World())
      ensures L.OwnRecordIsPrefix(faults, PackName(), old(World())) ==> GateOf(r, PackIds(), t)
      ensures r.Proved? && L.OwnRecordIsPrefix(faults, PackName(), old(World())) ==>
        ProvedTrace(PackIds(), t) && L.HasLiveState(World()) && disk.value.injected == PackIds()
    {
      if this.pack.None? {
        return L.NothingToProve, [];
      }
      var pack := PackFaults(faults, this.pack.value);
      assert |PackIds()| == |pack|;
      if |pack| == 0 {
        return L.NothingToProve, [];
      }
      ghost var w := World();
      var up;
      ghost var built;
      up, built := Up();
      if !up.Healthy? {
        return L.ProveUp(up), built;
      }
      ghost var cycle;
      r, cycle := ProveCycles(w, up, pack);
      Regroup(old(trace), built, cycle);
      t := built + cycle;
      if L.OwnRecordIsPrefix(faults, PackName(), w) {
        ghost var st := L.Rebuilt(w, PackName(), overrides, up.loadFailed);
        assert HealthyTrace(built, r.up.loadFailed) && built[|built| - 1] == Save(st, true);
        if r.Proved? {
          GateTrace(st, PackIds(), built, cycle, up.loadFailed);
        }
      }
    }

    method ProveCycles(ghost w: L.World, up: L.UpResult, pack: seq<Fault>)
      returns (r: L.ProveResult, ghost cycle: seq<Event>)
      requires WellFormed(faults) && this.pack.Some? && pack == InPack(faults, this.pack.value)
      requires up.Healthy? && L.UpStep(PackName(), overrides, w, up, World())
      modifies this`disk, this`cluster, this`trace, this`clock, this`cancelled
      ensures trace == old(trace) + cycle
      ensures (r.Proved? || r.ProveFault? || r.ProveBreak? || r.ProveLate?) && r.up == up
      ensures L.ProveStep(faults, PackName(), overrides, w, r, World())
      ensures L.OwnRecordIsPrefix(faults, PackName(), w) ==> CycleOf(r, old(disk).value, PackIds(), cycle)
      ensures r.Proved? && L.OwnRecordIsPrefix(faults, PackName(), w) ==>
        L.HasLiveState(World()) && disk.value.injected == PackIds()
    {
      ghost var mid := World();
      ghost var ids := PackIds();
      var ok, injects, parts := ProveEach(pack);
      if !ok {
        assert World().(cluster := w.cluster) == mid;
        return L.ProveFault(up, injects), Flatten(parts);
      }
      assert ids[..|ids|] == ids;
      ghost var packed := mid.(cluster := mid.cluster + Elems(ids));
      var broke, why;
      ghost var together;
      broke, why, together := ProveTogether(pack);
      assert L.BreakStep(faults, packed, broke, World());
      Regroup(old(trace), Flatten(parts), together);
      cycle := Flatten(parts) + together;
      r := if !broke.BrokeAll? then L.ProveBreak(up, broke)
           else if !why.Recovered? then L.ProveLate(up)
           else L.Proved(up);
      if L.OwnRecordIsPrefix(faults, PackName(), w) {
        L.HealthyRecordsOwnPack(faults, PackName(), overrides, w, up, mid);
        if broke.BrokeAll? {
          L.BreakRecordsAll(faults, PackName(), packed, World());
          TogetherLinesUp(mid.disk.value, ids, parts, why, together);
        }
      }
    }

    /** The whole pack at once: it goes in, verify fails, the fixes bring it back. */
    method ProveTogether(pack: seq<Fault>) returns (broke: L.BreakResult, why: Recovery, ghost together: seq<Event>)
      requires WellFormed(faults)
      modifies this`disk, this`cluster, this`trace, this`clock, this`cancelled
      ensures L.BreakStep(faults, old(World()), broke, World())
      ensures trace == old(trace) + together
      ensures broke.BreakRefused? && L.HasLiveState(World()) ==> together == [LoadFailed]
      ensures !broke.BreakRefused? && !broke.BrokeAll? ==>
        together == BreakTrace(old(disk).value, L.PackIds(faults, old(disk).value.pack), broke)
      ensures broke.BrokeAll? ==>
        TogetherTrace(old(disk).value, L.PackIds(faults, old(disk).value.pack), World(), why, together)
    {
      why := RecoveryCancelled;
      broke := Break();
      if broke.BreakRefused? {
        together := trace[|old(trace)|..];
      } else {
        ghost var st := old(disk).value;
        together := BreakTrace(st, L.PackIds(faults, st.pack), broke);
        if broke.BrokeAll? {
          ghost var late;
          why, late := Recover(pack);
          Regroup(old(trace), together, late);
          together := together + late;
        }
      }
    }
  }

  /** The pack injected and recorded, then the recovery as it went. */
  ghost predicate TogetherTrace(st: State, ids: seq<string>, w: L.World, why: Recovery, t: seq<Event>) {
    exists late ::
      && t == Progress(st, ids, |ids|) + late
      && (L.HasLiveState(w) && L.Injected(w) == ids ==> RecoveryTrace(why, ids, late))
  }

  /** What the whole pack went through continues the proofs of its faults. */
  lemma TogetherLinesUp(st: State, ids: seq<string>, parts: seq<seq<Event>>, why: Recovery, together: seq<Event>)
    requires Proofs(ids, parts)
    requires exists late :: together == Progress(st, ids, |ids|) + late && RecoveryTrace(why, ids, late)
    ensures exists late ::
      && RecoveryTrace(why, ids, late)
      && Flatten(parts) + together == Flatten(parts) + (Progress(st, ids, |ids|) + late)
    ensures why.Recovered? ==> CycleTrace(st, ids, Flatten(parts) + together)
  {
    var late :| together == Progress(st, ids, |ids|) + late && RecoveryTrace(why, ids, late);
    if why.Recovered? {
      var w :| WaitTrace(WithoutCancel(w), true) && WithoutCancel(w) == w && late == FixAll(ids) + w;
      FourInARow2(Flatten(parts), Progress(st, ids, |ids|), FixAll(ids), w);
      assert FaultProofs(ids, Flatten(parts));
    }
  }

  lemma FourInARow2(a: seq<Event>, b: seq<Event>, c: seq<Event>, d: seq<Event>)
    ensures a + (b + (c + d)) == a + (b + c) + d
  {
  }

  /** What a green gate does once the environment is up. */
  ghost predicate CycleTrace(st: State, ids: seq<string>, t: seq<Event>) {
    exists proofs, recovery ::
      && FaultProofs(ids, proofs) && WaitTrace(recovery, true)
      && t == proofs + FullCycle(st, ids) + recovery
  }

  /** The pieces of a green gate line up into one proved trace. */
  lemma GateTrace(st: State, ids: seq<string>, up: seq<Event>, cycle: seq<Event>, loadFailed: bool)
    requires HealthyTrace(up, loadFailed) && up[|up| - 1] == Save(st, true)
    requires CycleTrace(st, ids, cycle)
    ensures ProvedTrace(ids, up + cycle)
  {
    var proofs, recovery :| FaultProofs(ids, proofs) && WaitTrace(recovery, true)
                            && cycle == proofs + FullCycle(st, ids) + recovery;
    assert IsGate(st, ids, up, proofs, recovery);
    FourInARow(up, proofs, FullCycle(st, ids), recovery);
  }

  lemma FourInARow(a: seq<Event>, b: seq<Event>, c: seq<Event>, d: seq<Event>)
    ensures a + b + c + d == a + (b + c + d)
  {
  }

  lemma NextElems(ids: seq<string>, i: nat)
    requires i < |ids|
    ensures Elems(ids[..i + 1]) == Elems(ids[..i]) + {ids[i]}
  {
    assert ids[..i + 1] == ids[..i] + [ids[i]];
  }

  lemma {:induction false} FindSound(faults: seq<Fault>, id: string)
    ensures Find(faults, id).Some? ==> Find(faults, id).value.id == id
  {
    if faults != [] && faults[0].id != id {
      FindSound(faults[1..], id);
    }
  }

  lemma NextState(st: State, ids: seq<string>, i: nat)
    requires i < |ids|
    ensures StateAfter(st, ids, i + 1) == Noted(StateAfter(st, ids, i), ids[i])
    ensures Elems(ids[..i + 1]) == Elems(ids[..i]) + {ids[i]}
  {
    assert ids[..i + 1][..i] == ids[..i];
    NextElems(ids, i);
  }

  lemma SameOutsideMore(name: string, owned: set<string>, a: map<string, L.Node>, b: map<string, L.Node>)
    requires name in owned && L.SameOutside({name}, a, b)
    ensures L.SameOutside(owned, a, b)
  {
    assert a - owned == (a - {name}) - owned;
    assert b - owned == (b - {name}) - owned;
  }

  lemma ExtendProofs(ids: seq<string>, i: nat, parts: seq<seq<Event>>, t: seq<Event>, before: seq<Event>)
    requires i < |ids| && FaultProof(ids[i], t)
    requires Proofs(ids[..i], parts)
    ensures ProvedSoFar(ids, i + 1, parts + [t], before, before + Flatten(parts) + t)
  {
    assert (parts + [t])[..i] == parts;
    Regroup(before, Flatten(parts), t);
    forall j | 0 <= j < i
      ensures FaultProof(ids[..i + 1][j], (parts + [t])[j])
    {
      assert FaultProof(ids[..i][j], parts[j]);
    }
  }

  lemma StopProofs(ids: seq<string>, i: nat, parts: seq<seq<Event>>, t: seq<Event>, end: ProofEnd, before: seq<Event>)
    requires i < |ids|
    requires Proofs(ids[..i], parts) && ProofStopped(ids[i], end, t)
    ensures GateStoppedAt(ids, parts + [t])
    ensures before + Flatten(parts) + t == before + Flatten(parts + [t])
  {
    assert (parts + [t])[..i] == parts;
    Regroup(before, Flatten(parts), t);
    forall j | 0 <= j < i
      ensures FaultProof(ids[j], (parts + [t])[j])
    {
      assert FaultProof(ids[..i][j], parts[j]);
    }
  }

  lemma UpPieces(t: seq<Event>, tail: seq<Event>)
    requires |t| >= 3
    ensures (t + tail)[..3] == t[..3]
    ensures (t + tail)[3..|t + tail| - |tail|] == t[3..]
    ensures forall i | 0 <= i < |tail| :: (t + tail)[|t| + i] == tail[i]
  {
  }

  /** One more poll, and what it makes of the wait when it ends here, given up or not. */
  lemma PolledOnce(t: seq<Event>, ok: bool)
    requires AllVerify(t, false)
    ensures var more := t + [Verify(ok)];
            && WaitTrace(more, ok) && WithoutCancel(more) == more && (!ok ==> AllVerify(more, false))
            && WithoutCancel(more + [Cancel]) == more
  {
    var more := t + [Verify(ok)];
    assert more[..|more| - 1] == t;
    assert (more + [Cancel])[..|more|] == more;
  }

  lemma LastIsVerify(t: seq<Event>)
    requires WaitTrace(t, true)
    ensures WithoutCancel(t) == t
  {
  }
}
