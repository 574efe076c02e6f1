/**
 The lifecycle of one debugging environment, as a relation between worlds: the
 state file, what the cluster really holds, and the other entries of the
 workdir. Every answer the outside gives (scripts, provider, file system) shows
 up in the result of a call, so a run is a list of calls with their results.

 The theorems are about every run: what the record says, what it may miss, and
 exactly which results make it miss something.
 */
module Lifecycle {
  import opened Wrappers
  import opened Order
  import opened Scenario

  /** workdir/state.json. */
  datatype State = State(pack: string, overrides: map<string, string>, injected: seq<string>, tornDownAt: Option<nat>) {
    predicate Live() {
      tornDownAt.None?
    }
  }

  /** A workdir entry other than state.json. */
  datatype Node = File | EmptyDir | FullDir

  /** cluster: the faults whose inject succeeded since the environment was built. */
  datatype World = World(disk: Option<State>, cluster: set<string>, files: map<string, Node>)

  /** What Up puts in a workdir and Down takes out again. */
  const ENGINE_OWNED: set<string> := {"rendered", "kubeconfig"}

  predicate HasLiveState(w: World) {
    w.disk.Some? && w.disk.value.Live()
  }

  function Injected(w: World): seq<string> {
    if HasLiveState(w) then w.disk.value.injected else []
  }

  // ---------------------------------------------------------------- results

  datatype UpStage = Detecting | MakingWorkdir | BringingUp | Verifying | ChoosingPack

  datatype UpResult =
    | UpFailed(stage: UpStage)
    | UpUnsaved
    | Healthy(loadFailed: bool)      // loadFailed: the previous state could not be read back

  /** Counts are faults of the pack, in injection order. */
  datatype BreakResult =
    | BreakRefused
    | InjectFailed(k: nat, saved: bool)   // k injected and recorded, then fault k would not inject
    | RecordFailed(k: nat)                // k injected and recorded, fault k injected and not recorded
    | BrokeAll

  datatype DownResult =
    | ProviderFailed(left: set<string>)   // a teardown that failed may have taken any of the faults with it
    | PurgeFailed(stateGone: bool)
    | Purged
    | OwnedLeft
    | Unstamped
    | Unlisted(loadFailed: bool)
    | TornDown(loadFailed: bool, kept: seq<string>)
    | EmptyingFailed
    | Emptied

  datatype ProveResult =
    | NothingToProve
    | ProveUp(up: UpResult)
    | ProveFault(up: UpResult, injects: nat)        // injects succeeded when a single fault failed its proof
    | ProveBreak(up: UpResult, broke: BreakResult)
    | ProveLate(up: UpResult)                       // verify still passes, a fix failed, or no recovery
    | Proved(up: UpResult)

  datatype Call =
    | Up(up: UpResult)
    | Break(broke: BreakResult)
    | Down(purge: bool, down: DownResult)
    | Prove(proved: ProveResult)
    | ReadOnly                                       // status, fix and verify

  // ---------------------------------------------------------------- transitions

  /** Appends the ids not recorded yet, in order. */
  function Record(injected: seq<string>, ids: seq<string>): seq<string> {
    if ids == [] then injected
    else
      var before := Record(injected, ids[..|ids| - 1]);
      var id := ids[|ids| - 1];
      if id in before then before else before + [id]
  }

  function PackIds(faults: seq<Fault>, pack: string): seq<string> {
    Ids(InPack(faults, pack))
  }

  function Rebuilt(w: World, pack: string, overrides: map<string, string>, loadFailed: bool): State {
    var keep := !loadFailed && HasLiveState(w) && w.disk.value.pack == pack;
    State(pack, overrides, if keep then w.disk.value.injected else [], None)
  }

  ghost predicate SameOutside(owned: set<string>, a: map<string, Node>, b: map<string, Node>) {
    a - owned == b - owned
  }

  ghost predicate UpStep(pack: string, overrides: map<string, string>, w: World, r: UpResult, w': World) {
    && w'.cluster == w.cluster
    && SameOutside(ENGINE_OWNED, w.files, w'.files)
    && w'.disk == if r.Healthy? then Some(Rebuilt(w, pack, overrides, r.loadFailed)) else w.disk
  }

  /** How many injects of ids succeeded, and how many of those are on disk. */
  function Landed(ids: seq<string>, r: BreakResult): nat {
    match r
    case BreakRefused => 0
    case InjectFailed(k, _) => k
    case RecordFailed(k) => k + 1
    case BrokeAll => |ids|
  }

  function Recorded(ids: seq<string>, r: BreakResult): nat {
    match r
    case BreakRefused => 0
    case InjectFailed(k, _) => k
    case RecordFailed(k) => k
    case BrokeAll => |ids|
  }

  predicate BreakPossible(ids: seq<string>, r: BreakResult) {
    match r
    case InjectFailed(k, _) => k < |ids|
    case RecordFailed(k) => k < |ids|
    case _ => true
  }

  ghost predicate BreakStep(faults: seq<Fault>, w: World, r: BreakResult, w': World) {
    if r.BreakRefused? then w' == w
    else
      && HasLiveState(w)
      && var st := w.disk.value;
      var ids := PackIds(faults, st.pack);
      && BreakPossible(ids, r)
      && w' == World(
        Some(st.(injected := Record(st.injected, ids[..Recorded(ids, r)]))),
        w.cluster + Elems(ids[..Landed(ids, r)]),
        w.files)
  }

  function Stamped(disk: Option<State>, loadFailed: bool, at: nat): Option<State> {
    if disk.Some? && disk.value.Live() && !loadFailed then Some(disk.value.(tornDownAt := Some(at))) else disk
  }

  /** The entries worth naming after a teardown. */
  function Kept(files: map<string, Node>): seq<string> {
    SortedKeys(set name | name in files && !files[name].EmptyDir?)
  }

  ghost predicate DownStep(purge: bool, w: World, r: DownResult, w': World) {
    match r
    case ProviderFailed(left) =>
      left <= w.cluster && w' == w.(cluster := left)
    case PurgeFailed(stateGone) =>
      && purge && w'.cluster == {} && w'.disk == if stateGone then None else w.disk
    case Purged =>
      purge && w' == World(None, {}, map[])
    case OwnedLeft =>
      && !purge && w'.cluster == {} && w'.disk == w.disk
      && SameOutside(ENGINE_OWNED, w.files, w'.files)
    case Unstamped =>
      !purge && HasLiveState(w) && w' == World(w.disk, {}, w.files - ENGINE_OWNED)
    case Unlisted(loadFailed) =>
      !purge && exists at :: w' == World(Stamped(w.disk, loadFailed, at), {}, w.files - ENGINE_OWNED)
    case TornDown(loadFailed, kept) =>
      && !purge && kept == Kept(w'.files)
      && exists at :: w' == World(Stamped(w.disk, loadFailed, at), {}, w.files - ENGINE_OWNED)
    case EmptyingFailed =>
      && !purge && w.disk.None? && Kept(w.files - ENGINE_OWNED) == []
      && w'.cluster == {} && w'.disk == None
    case Emptied =>
      && !purge && w.disk.None? && Kept(w.files - ENGINE_OWNED) == []
      && w' == World(None, {}, map[])
  }

  ghost predicate ProveStep(faults: seq<Fault>, pack: string, overrides: map<string, string>,
                            w: World, r: ProveResult, w': World) {
    var ids := PackIds(faults, pack);
    match r
    case NothingToProve =>
      w' == w
    case ProveUp(up) =>
      !up.Healthy? && UpStep(pack, overrides, w, up, w')
    case ProveFault(up, n) =>
      && up.Healthy? && n <= |ids|
      && UpStep(pack, overrides, w, up, w'.(cluster := w.cluster))
      && w'.cluster == w.cluster + Elems(ids[..n])
    case ProveBreak(up, broke) =>
      && up.Healthy? && !broke.BrokeAll?
      && exists mid: World ::
           && UpStep(pack, overrides, w, up, mid)
           && BreakStep(faults, mid.(cluster := mid.cluster + Elems(ids)), broke, w')
    case ProveLate(up) =>
      && up.Healthy?
      && exists mid: World ::
           && UpStep(pack, overrides, w, up, mid)
           && BreakStep(faults, mid.(cluster := mid.cluster + Elems(ids)), BrokeAll, w')
    case Proved(up) =>
      && up.Healthy?
      && exists mid: World ::
           && UpStep(pack, overrides, w, up, mid)
           && BreakStep(faults, mid.(cluster := mid.cluster + Elems(ids)), BrokeAll, w')
  }

  ghost predicate Step(faults: seq<Fault>, pack: string, overrides: map<string, string>,
                       w: World, call: Call, w': World) {
    match call
    case Up(r) => UpStep(pack, overrides, w, r, w')
    case Break(r) => BreakStep(faults, w, r, w')
    case Down(purge, r) => DownStep(purge, w, r, w')
    case Prove(r) => ProveStep(faults, pack, overrides, w, r, w')
    case ReadOnly => w' == w
  }

  // ---------------------------------------------------------------- the record

  /** The record is a prefix of the pack in injection order, and only pack faults were ever injected. */
  ghost predicate Inv(faults: seq<Fault>, pack: string, w: World) {
    var ids := PackIds(faults, pack);
    && (HasLiveState(w) ==> w.disk.value.pack == pack && w.disk.value.injected <= ids)
    && w.cluster <= Elems(ids)
  }

  /** A live state of this pack names a prefix of it; one of another pack is discarded by the next bring-up. */
  ghost predicate OwnRecordIsPrefix(faults: seq<Fault>, pack: string, w: World) {
    HasLiveState(w) && w.disk.value.pack == pack ==> w.disk.value.injected <= PackIds(faults, pack)
  }

  /** Nothing is in the cluster that the record does not name. */
  ghost predicate Covered(w: World) {
    w.cluster <= Elems(Injected(w))
  }

  /** The results after which the record misses a fault, read off the world before the call. */
  ghost predicate Loses(faults: seq<Fault>, pack: string, w: World, call: Call) {
    var ids := PackIds(faults, pack);
    match call
    case Up(r) => LosesUp(w, r)
    case Break(RecordFailed(k)) => k < |ids| && ids[k] !in Injected(w)
    case Prove(ProveFault(up, n)) => LosesUp(w, up) || n > |KeptRecord(w, up)|
    case Prove(ProveBreak(up, _)) => |KeptRecord(w, up)| < |ids|
    case _ => false
  }

  /** Up could not read the record back and wrote an empty one over faults that are in there. */
  ghost predicate LosesUp(w: World, r: UpResult) {
    r.Healthy? && r.loadFailed && w.cluster != {}
  }

  ghost function KeptRecord(w: World, r: UpResult): seq<string> {
    if r.Healthy? && r.loadFailed then [] else Injected(w)
  }

  /** Re-recording a prefix over a prefix keeps the longer one: nothing is dropped or doubled. */
  lemma {:induction false} RecordPrefix(ids: seq<string>, p: nat, m: nat)
    requires Sorted(ids) && p <= |ids| && m <= |ids|
    ensures Record(ids[..p], ids[..m]) == ids[..if p < m then m else p]
  {
    if m == 0 {
      assert ids[..m] == [];
    } else {
      RecordPrefix(ids, p, m - 1);
      assert ids[..m][..m - 1] == ids[..m - 1];
      SortedDistinct(ids);
      var before := ids[..if p < m - 1 then m - 1 else p];
      if p < m {
        assert ids[m - 1] !in before;
        assert ids[..m] == ids[..m - 1] + [ids[m - 1]];
      } else {
        assert ids[..p][m - 1] == ids[m - 1];
      }
    }
  }

  /** A prefix of the pack covers another exactly when it is at least as long. */
  lemma PrefixCovers(ids: seq<string>, n: nat, m: nat)
    requires Sorted(ids) && n <= |ids| && m <= |ids|
    ensures Elems(ids[..n]) <= Elems(ids[..m]) <==> n <= m
  {
    SortedDistinct(ids);
    if n <= m {
      assert forall i | 0 <= i < n :: ids[..m][i] == ids[i];
    } else {
      assert ids[..n][m] == ids[m];
      assert ids[m] in Elems(ids[..n]);
      assert ids[m] !in Elems(ids[..m]);
    }
  }

  lemma UpKeeps(faults: seq<Fault>, pack: string, overrides: map<string, string>, w: World, r: UpResult, w': World)
    requires WellFormed(faults) && Inv(faults, pack, w) && UpStep(pack, overrides, w, r, w')
    ensures Inv(faults, pack, w')
    ensures Injected(w') == KeptRecord(w, r)
    ensures Covered(w) ==> (Covered(w') <==> !LosesUp(w, r))
  {
  }

  lemma BreakKeeps(faults: seq<Fault>, pack: string, w: World, r: BreakResult, w': World)
    requires WellFormed(faults) && Inv(faults, pack, w) && BreakStep(faults, w, r, w')
    ensures Inv(faults, pack, w')
    ensures var ids := PackIds(faults, pack);
            var p := |Injected(w)|;
            !r.BreakRefused? ==>
              && BreakPossible(ids, r) && p <= |ids|
              && Injected(w') == ids[..if p < Recorded(ids, r) then Recorded(ids, r) else p]
  {
    if !r.BreakRefused? {
      var ids := PackIds(faults, pack);
      PackSorted(faults, pack);
      var p := |w.disk.value.injected|;
      assert w.disk.value.injected == ids[..p];
      RecordPrefix(ids, p, Recorded(ids, r));
      assert Elems(ids[..Landed(ids, r)]) <= Elems(ids) by {
        assert ids[..|ids|] == ids;
        PrefixCovers(ids, Landed(ids, r), |ids|);
      }
    }
  }

  lemma BreakCovers(faults: seq<Fault>, pack: string, w: World, r: BreakResult, w': World)
    requires WellFormed(faults) && Inv(faults, pack, w) && BreakStep(faults, w, r, w')
    requires Covered(w)
    ensures Covered(w') <==> !Loses(faults, pack, w, Break(r))
  {
    if !r.BreakRefused? {
      var ids := PackIds(faults, pack);
      PackSorted(faults, pack);
      BreakKeeps(faults, pack, w, r, w');
      var p := |Injected(w)|;
      var n, m := Landed(ids, r), Recorded(ids, r);
      var q := if p < m then m else p;
      assert Injected(w) == ids[..p];
      PrefixCovers(ids, p, q);
      PrefixCovers(ids, n, q);
      assert Covered(w') <==> n <= q;
      if r.RecordFailed? {
        SortedDistinct(ids);
        if r.k < p {
          assert ids[..p][r.k] == ids[r.k];
        }
        assert ids[r.k] in Injected(w) <==> r.k < p;
      }
    }
  }

  /** A break that runs to the end repairs any record: it names the whole pack. */
  lemma BreakAllRepairs(faults: seq<Fault>, pack: string, w: World, w': World)
    requires WellFormed(faults) && Inv(faults, pack, w) && BreakStep(faults, w, BrokeAll, w')
    ensures Injected(w') == PackIds(faults, pack)
    ensures w'.cluster == Elems(PackIds(faults, pack))
    ensures Covered(w')
  {
    var ids := PackIds(faults, pack);
    BreakKeeps(faults, pack, w, BrokeAll, w');
    assert ids[..|ids|] == ids;
    assert |Injected(w)| <= |ids|;
  }

  /** A healthy bring-up records this pack, whatever was recorded before. */
  lemma HealthyRecordsOwnPack(faults: seq<Fault>, pack: string, overrides: map<string, string>, w: World, r: UpResult,
                              w': World)
    requires OwnRecordIsPrefix(faults, pack, w) && UpStep(pack, overrides, w, r, w') && r.Healthy?
    ensures HasLiveState(w') && w'.disk.value.pack == pack && w'.disk.value.injected <= PackIds(faults, pack)
  {
  }

  lemma BreakRecordsAll(faults: seq<Fault>, pack: string, w: World, w': World)
    requires WellFormed(faults) && HasLiveState(w) && w.disk.value.pack == pack
    requires w.disk.value.injected <= PackIds(faults, pack) && BreakStep(faults, w, BrokeAll, w')
    ensures HasLiveState(w') && w'.disk.value.injected == PackIds(faults, pack)
  {
    var ids := PackIds(faults, pack);
    var p := |w.disk.value.injected|;
    PackSorted(faults, pack);
    assert w.disk.value.injected == ids[..p] && ids[..|ids|] == ids;
    RecordPrefix(ids, p, |ids|);
  }

  lemma DownKeeps(faults: seq<Fault>, pack: string, purge: bool, w: World, r: DownResult, w': World)
    requires Inv(faults, pack, w) && DownStep(purge, w, r, w')
    ensures Inv(faults, pack, w')
    ensures Covered(w) ==> Covered(w')
  {
  }

  lemma ProveKeeps(faults: seq<Fault>, pack: string, overrides: map<string, string>, w: World, r: ProveResult,
                   w': World)
    requires WellFormed(faults) && Inv(faults, pack, w) && ProveStep(faults, pack, overrides, w, r, w')
    ensures Inv(faults, pack, w')
    ensures Covered(w) ==> (Covered(w') <==> !Loses(faults, pack, w, Prove(r)))
    ensures r.Proved? ==> Injected(w') == PackIds(faults, pack) && Covered(w')
  {
    match r {
      case NothingToProve =>
      case ProveUp(up) => UpKeeps(faults, pack, overrides, w, up, w');
      case ProveFault(up, n) => ProveFaultKeeps(faults, pack, overrides, w, r, w');
      case ProveBreak(up, broke) => ProveBreakKeeps(faults, pack, overrides, w, r, w');
      case ProveLate(up) => ProveWholeKeeps(faults, pack, overrides, w, up, w');
      case Proved(up) => ProveWholeKeeps(faults, pack, overrides, w, up, w');
    }
  }

  lemma ProveBreakKeeps(faults: seq<Fault>, pack: string, overrides: map<string, string>, w: World, r: ProveResult,
                        w': World)
    requires WellFormed(faults) && Inv(faults, pack, w) && ProveStep(faults, pack, overrides, w, r, w') && r.ProveBreak?
    ensures Inv(faults, pack, w')
    ensures Covered(w) ==> (Covered(w') <==> !Loses(faults, pack, w, Prove(r)))
  {
    var ids := PackIds(faults, pack);
    var mid: World :| UpStep(pack, overrides, w, r.up, mid)
                      && BreakStep(faults, mid.(cluster := mid.cluster + Elems(ids)), r.broke, w');
    UpKeeps(faults, pack, overrides, w, r.up, mid);
    PartialBreak(faults, pack, mid.(cluster := mid.cluster + Elems(ids)), r.broke, w');
  }

  lemma ProveWholeKeeps(faults: seq<Fault>, pack: string, overrides: map<string, string>, w: World, up: UpResult,
                        w': World)
    requires WellFormed(faults) && Inv(faults, pack, w) && ProveStep(faults, pack, overrides, w, Proved(up), w')
    ensures Inv(faults, pack, w') && Injected(w') == PackIds(faults, pack) && Covered(w')
  {
    var ids := PackIds(faults, pack);
    var mid: World :| UpStep(pack, overrides, w, up, mid)
                      && BreakStep(faults, mid.(cluster := mid.cluster + Elems(ids)), BrokeAll, w');
    UpKeeps(faults, pack, overrides, w, up, mid);
    BreakAllRepairs(faults, pack, mid.(cluster := mid.cluster + Elems(ids)), w');
    BreakKeeps(faults, pack, mid.(cluster := mid.cluster + Elems(ids)), BrokeAll, w');
  }

  lemma ProveFaultKeeps(faults: seq<Fault>, pack: string, overrides: map<string, string>, w: World, r: ProveResult,
                        w': World)
    requires WellFormed(faults) && Inv(faults, pack, w) && ProveStep(faults, pack, overrides, w, r, w') && r.ProveFault?
    ensures Inv(faults, pack, w')
    ensures Covered(w) ==> (Covered(w') <==> !Loses(faults, pack, w, Prove(r)))
  {
    var ids, mid := PackIds(faults, pack), w'.(cluster := w.cluster);
    PackSorted(faults, pack);
    assert ids[..|ids|] == ids;
    UpKeeps(faults, pack, overrides, w, r.up, mid);
    PrefixCovers(ids, r.injects, |ids|);
    assert Injected(mid) == ids[..|Injected(mid)|];
    PrefixCovers(ids, r.injects, |Injected(mid)|);
    assert Injected(w') == Injected(mid);
  }

  /** With the whole pack in the cluster, a break that stops early leaves it covered only if it already was. */
  lemma PartialBreak(faults: seq<Fault>, pack: string, w: World, r: BreakResult, w': World)
    requires WellFormed(faults) && Inv(faults, pack, w) && BreakStep(faults, w, r, w')
    requires w.cluster == Elems(PackIds(faults, pack)) && !r.BrokeAll?
    ensures Inv(faults, pack, w')
    ensures Covered(w') <==> |Injected(w)| == |PackIds(faults, pack)|
  {
    var ids := PackIds(faults, pack);
    PackSorted(faults, pack);
    BreakKeeps(faults, pack, w, r, w');
    assert ids[..|ids|] == ids;
    assert w'.cluster == Elems(ids) by {
      if !r.BreakRefused? {
        PrefixCovers(ids, Landed(ids, r), |ids|);
      }
    }
    assert Injected(w') == ids[..|Injected(w')|];
    PrefixCovers(ids, |ids|, |Injected(w')|);
  }

  // ---------------------------------------------------------------- runs

  ghost predicate IsRun(faults: seq<Fault>, pack: string, overrides: map<string, string>,
                        run: seq<World>, calls: seq<Call>) {
    && |run| == |calls| + 1
    && forall i | 0 <= i < |calls| :: Step(faults, pack, overrides, run[i], calls[i], run[i + 1])
  }

  lemma StepKeeps(faults: seq<Fault>, pack: string, overrides: map<string, string>, w: World, call: Call, w': World)
    requires WellFormed(faults) && Inv(faults, pack, w) && Step(faults, pack, overrides, w, call, w')
    ensures Inv(faults, pack, w')
    ensures Covered(w) ==> (Covered(w') <==> !Loses(faults, pack, w, call))
  {
    match call {
      case Up(r) => UpKeeps(faults, pack, overrides, w, r, w');
      case Break(r) =>
        BreakKeeps(faults, pack, w, r, w');
        if Covered(w) {
          BreakCovers(faults, pack, w, r, w');
        }
      case Down(purge, r) => DownKeeps(faults, pack, purge, w, r, w');
      case Prove(r) => ProveKeeps(faults, pack, overrides, w, r, w');
      case ReadOnly =>
    }
  }

  lemma {:induction false} InvAt(faults: seq<Fault>, pack: string, overrides: map<string, string>,
                                 run: seq<World>, calls: seq<Call>, n: nat)
    requires WellFormed(faults) && IsRun(faults, pack, overrides, run, calls)
    requires Inv(faults, pack, run[0]) && n <= |calls|
    ensures Inv(faults, pack, run[n])
  {
    if n > 0 {
      InvAt(faults, pack, overrides, run, calls, n - 1);
      StepKeeps(faults, pack, overrides, run[n - 1], calls[n - 1], run[n]);
    }
  }

  lemma {:induction false} CoveredAt(faults: seq<Fault>, pack: string, overrides: map<string, string>,
                                     run: seq<World>, calls: seq<Call>, n: nat)
    requires WellFormed(faults) && IsRun(faults, pack, overrides, run, calls)
    requires Inv(faults, pack, run[0]) && Covered(run[0]) && n <= |calls|
    requires forall i | 0 <= i < n :: !Loses(faults, pack, run[i], calls[i])
    ensures Covered(run[n])
  {
    if n > 0 {
      CoveredAt(faults, pack, overrides, run, calls, n - 1);
      InvAt(faults, pack, overrides, run, calls, n - 1);
      StepKeeps(faults, pack, overrides, run[n - 1], calls[n - 1], run[n]);
    }
  }

  /**
   Over every run: the record is always a prefix of the pack in injection
   order, and the record names everything in the cluster after every call
   exactly when no call had one of the losing results.
   */
  lemma RunsKeepTheRecord(faults: seq<Fault>, pack: string, overrides: map<string, string>,
                          run: seq<World>, calls: seq<Call>)
    requires WellFormed(faults)
    requires IsRun(faults, pack, overrides, run, calls)
    requires Inv(faults, pack, run[0]) && Covered(run[0])
    ensures forall i | 0 <= i < |run| :: Inv(faults, pack, run[i])
    ensures (forall i | 0 <= i < |run| :: Covered(run[i]))
       <==> (forall i | 0 <= i < |calls| :: !Loses(faults, pack, run[i], calls[i]))
  {
    forall i | 0 <= i < |run|
      ensures Inv(faults, pack, run[i])
    {
      InvAt(faults, pack, overrides, run, calls, i);
    }
    if forall i | 0 <= i < |run| :: Covered(run[i]) {
      forall i | 0 <= i < |calls|
        ensures !Loses(faults, pack, run[i], calls[i])
      {
        assert Covered(run[i]) && Covered(run[i + 1]);
        StepKeeps(faults, pack, overrides, run[i], calls[i], run[i + 1]);
      }
    }
    if forall i | 0 <= i < |calls| :: !Loses(faults, pack, run[i], calls[i]) {
      forall i | 0 <= i < |run|
        ensures Covered(run[i])
      {
        CoveredAt(faults, pack, overrides, run, calls, i);
      }
    }
  }

  /** With no live state nothing is in the cluster, and status only ever meets pack faults. */
  lemma CoveredMeans(faults: seq<Fault>, pack: string, w: World)
    requires WellFormed(faults) && Inv(faults, pack, w) && Covered(w)
    ensures !HasLiveState(w) ==> w.cluster == {}
    ensures forall id | id in w.cluster :: id in Injected(w)
    ensures forall id | id in Injected(w) :: Find(faults, id).Some? && Find(faults, id).value in InPack(faults, pack)
  {
    var ids := PackIds(faults, pack);
    forall id | id in Injected(w)
      ensures Find(faults, id).Some? && Find(faults, id).value in InPack(faults, pack)
    {
      var i :| 0 <= i < |Injected(w)| && Injected(w)[i] == id;
      assert Injected(w) <= ids;
      assert ids[i] == id;
      PackIdKnown(faults, pack, i);
    }
  }

  /** The save that fails right after a first inject is a real way to lose a fault. */
  lemma RecordFailureLoses(f: Fault, w: World, w': World)
    requires f.packs == ["p"]
    requires w == World(Some(State("p", map[], [], None)), {}, map[])
    requires w' == w.(cluster := {f.id})
    ensures WellFormed([f]) && Inv([f], "p", w) && Covered(w)
    ensures BreakStep([f], w, RecordFailed(0), w')
    ensures !Covered(w')
  {
    assert InPack([f][1..], "p") == [];
    assert InPack([f], "p") == [f];
    var ids := PackIds([f], "p");
    assert ids == [f.id] && ids[..1] == [f.id] && ids[..0] == [];
    assert f.id in Elems(ids[..1]);
    assert w'.cluster == {} + Elems(ids[..1]);
    assert f.id in w'.cluster && f.id !in Elems(Injected(w'));
  }

  /** So is a previous state that could not be read back: Up writes an empty record over faults still in there. */
  lemma UnreadStateLoses(f: Fault, w: World, w': World)
    requires f.packs == ["p"]
    requires w == World(Some(State("p", map[], [f.id], None)), {f.id}, map[])
    requires w' == w.(disk := Some(State("p", map[], [], None)))
    ensures WellFormed([f]) && Inv([f], "p", w) && Covered(w)
    ensures UpStep("p", map[], w, Healthy(true), w')
    ensures !Covered(w')
  {
    assert InPack([f][1..], "p") == [];
    assert InPack([f], "p") == [f];
    var ids := PackIds([f], "p");
    assert ids == [f.id];
    assert f.id in Elems(ids) && f.id in Elems(Injected(w));
    assert f.id in w'.cluster && f.id !in Elems(Injected(w'));
  }

  /** And a proof that stops after its first inject, which Prove does not record. */
  lemma StoppedProofLoses(f: Fault, w: World, w': World)
    requires f.packs == ["p"]
    requires w == World(None, {}, map[])
    requires w' == World(Some(State("p", map[], [], None)), {f.id}, map[])
    ensures WellFormed([f]) && Inv([f], "p", w) && Covered(w)
    ensures ProveStep([f], "p", map[], w, ProveFault(Healthy(false), 1), w')
    ensures !Covered(w')
  {
    assert InPack([f][1..], "p") == [];
    assert InPack([f], "p") == [f];
    var ids := PackIds([f], "p");
    assert ids == [f.id] && ids[..1] == [f.id];
    assert Elems(ids[..1]) == {f.id};
    assert w'.(cluster := {}) == World(Some(Rebuilt(w, "p", map[], false)), {}, map[]);
    assert f.id in w'.cluster && f.id !in Elems(Injected(w'));
  }

  // ---------------------------------------------------------------- what a call leaves of the record

  /**
   A healthy bring-up leaves a live state of this pack with these overrides,
   naming what a live state of the same pack named before, if it could be read.
   */
  lemma HealthyUpRecords(pack: string, overrides: map<string, string>, w: World, r: UpResult, w': World)
    requires UpStep(pack, overrides, w, r, w')
    ensures r.Healthy? ==>
      && w'.disk.Some? && w'.disk.value.tornDownAt == None
      && w'.disk.value.pack == pack && w'.disk.value.overrides == overrides
      && w'.disk.value.injected ==
         (if !r.loadFailed && w.disk.Some? && w.disk.value.tornDownAt == None && w.disk.value.pack == pack
          then w.disk.value.injected else [])
    ensures !r.Healthy? ==> w'.disk == w.disk
  {
  }

  /**
   A teardown keeps the record and says the environment is gone: afterwards the
   state is live only when it was and could not be read. What it was built
   from and what was injected stay, and one torn down before is left alone.
   */
  lemma TeardownStamps(w: World, r: DownResult, w': World)
    requires DownStep(false, w, r, w') && (r.TornDown? || r.Unlisted?)
    ensures w'.cluster == {}
    ensures HasLiveState(w') <==> HasLiveState(w) && r.loadFailed
    ensures w.disk.None? <==> w'.disk.None?
    ensures w.disk.Some? ==>
      && w'.disk.value.pack == w.disk.value.pack && w'.disk.value.overrides == w.disk.value.overrides
      && w'.disk.value.injected == w.disk.value.injected
      && (w.disk.value.tornDownAt.Some? ==> w'.disk == w.disk)
      && (w.disk.value.tornDownAt.None? && !r.loadFailed ==> w'.disk.value.tornDownAt.Some?)
  {
  }

  /** So a teardown that cannot read the state leaves it live, with the fault it names, over an empty cluster. */
  lemma UnreadTeardownStaysLive(id: string, w: World, w': World)
    requires w == World(Some(State("p", map[], [id], None)), {id}, map[])
    requires w' == w.(cluster := {})
    ensures DownStep(false, w, TornDown(true, []), w')
    ensures HasLiveState(w') && Injected(w') == [id] && w'.cluster == {}
  {
    assert w'.files - ENGINE_OWNED == w.files;
    assert Stamped(w.disk, true, 0) == w.disk;
    SortedUnique(Kept(w'.files), []);
  }

  /** It takes out what Up put in, and names what else there is but empty directories, in order. */
  lemma TeardownLeaves(w: World, r: DownResult, w': World)
    requires DownStep(false, w, r, w') && (r.TornDown? || r.Unlisted?)
    ensures "rendered" !in w'.files && "kubeconfig" !in w'.files
    ensures forall name | name != "rendered" && name != "kubeconfig" ::
      && (name in w'.files <==> name in w.files)
      && (name in w.files ==> w'.files[name] == w.files[name])
    ensures r.TornDown? ==>
      Sorted(r.kept) && forall name :: name in r.kept <==> name in w'.files && w'.files[name] != EmptyDir
  {
    if r.TornDown? {
      assert forall name :: name in r.kept <==> name in Elems(r.kept);
    }
  }

  /** Nothing but a healthy bring-up, a gate's included, makes a state live that was not. */
  lemma OnlyBringUpRevives(faults: seq<Fault>, pack: string, overrides: map<string, string>, w: World, call: Call,
                           w': World)
    requires Step(faults, pack, overrides, w, call, w') && !HasLiveState(w) && HasLiveState(w')
    ensures (call.Up? && call.up.Healthy?) || (call.Prove? && !call.proved.NothingToProve? && call.proved.up.Healthy?)
  {
  }

  /** Over every run, an environment torn down stays torn down until the next healthy bring-up. */
  lemma {:induction false} TornDownStaysDown(faults: seq<Fault>, pack: string, overrides: map<string, string>,
                                             run: seq<World>, calls: seq<Call>, m: nat, n: nat)
    requires IsRun(faults, pack, overrides, run, calls) && m < n <= |calls|
    requires calls[m].Down? && !calls[m].purge && calls[m].down.TornDown? && !calls[m].down.loadFailed
    requires forall k | m < k < n ::
      !(calls[k].Up? && calls[k].up.Healthy?)
      && !(calls[k].Prove? && !calls[k].proved.NothingToProve? && calls[k].proved.up.Healthy?)
    ensures !HasLiveState(run[n])
  {
    if n == m + 1 {
      TeardownStamps(run[m], calls[m].down, run[m + 1]);
    } else {
      TornDownStaysDown(faults, pack, overrides, run, calls, m, n - 1);
      if HasLiveState(run[n]) {
        OnlyBringUpRevives(faults, pack, overrides, run[n - 1], calls[n - 1], run[n]);
        assert false;
      }
    }
  }

  // ---------------------------------------------------------------- evidence

  ghost predicate IsPurge(call: Call) {
    call.Down? && call.purge
  }

  /** Without a purge, no call removes or rewrites what a session left in the workdir. */
  lemma {:induction false} RunsKeepEvidence(faults: seq<Fault>, pack: string, overrides: map<string, string>,
                                            run: seq<World>, calls: seq<Call>, name: string, n: nat)
    requires IsRun(faults, pack, overrides, run, calls) && n <= |calls|
    requires forall i | 0 <= i < n :: !IsPurge(calls[i])
    requires name in run[0].files && name !in ENGINE_OWNED && !run[0].files[name].EmptyDir?
    ensures name in run[n].files && run[n].files[name] == run[0].files[name]
  {
    if n > 0 {
      RunsKeepEvidence(faults, pack, overrides, run, calls, name, n - 1);
      StepKeepsEvidence(faults, pack, overrides, run[n - 1], calls[n - 1], run[n], name);
    }
  }

  lemma StepKeepsEvidence(faults: seq<Fault>, pack: string, overrides: map<string, string>,
                          w: World, call: Call, w': World, name: string)
    requires Step(faults, pack, overrides, w, call, w') && !IsPurge(call)
    requires name in w.files && name !in ENGINE_OWNED && !w.files[name].EmptyDir?
    ensures name in w'.files && w'.files[name] == w.files[name]
  {
    assert name in w.files - ENGINE_OWNED && (w.files - ENGINE_OWNED)[name] == w.files[name];
    match call {
      case Down(_, r) =>
        if r.Emptied? || r.EmptyingFailed? {
          var files := w.files - ENGINE_OWNED;
          var shown := set n | n in files && !files[n].EmptyDir?;
          assert name in shown;
          assert Elems(Kept(files)) == shown;
        }
      case Prove(r) =>
        SameFiles(faults, pack, overrides, w, r, w', name);
      case _ =>
    }
  }

  lemma SameFiles(faults: seq<Fault>, pack: string, overrides: map<string, string>,
                  w: World, r: ProveResult, w': World, name: string)
    requires ProveStep(faults, pack, overrides, w, r, w')
    requires name in w.files && name !in ENGINE_OWNED
    ensures name in w'.files && w'.files[name] == w.files[name]
  {
    var ids := PackIds(faults, pack);
    assert name in w.files - ENGINE_OWNED && (w.files - ENGINE_OWNED)[name] == w.files[name];
    match r {
      case NothingToProve =>
      case ProveUp(up) =>
        assert SameOutside(ENGINE_OWNED, w.files, w'.files);
      case ProveFault(up, n) =>
        assert SameOutside(ENGINE_OWNED, w.files, w'.files);
      case ProveBreak(up, broke) =>
        var mid: World :| UpStep(pack, overrides, w, up, mid)
                          && BreakStep(faults, mid.(cluster := mid.cluster + Elems(ids)), broke, w');
        assert w'.files == mid.files;
      case ProveLate(up) =>
        var mid: World :| UpStep(pack, overrides, w, up, mid)
                          && BreakStep(faults, mid.(cluster := mid.cluster + Elems(ids)), BrokeAll, w');
        assert w'.files == mid.files;
      case Proved(up) =>
        var mid: World :| UpStep(pack, overrides, w, up, mid)
                          && BreakStep(faults, mid.(cluster := mid.cluster + Elems(ids)), BrokeAll, w');
        assert w'.files == mid.files;
    }
  }
}
