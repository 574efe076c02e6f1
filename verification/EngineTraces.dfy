/**
 What the engine's traces mean. Replaying a trace gives the cluster and the
 state file at every moment in between, so these are the facts that survive
 the engine dying between any two of its steps.
 */
module EngineTraces {
  import opened Wrappers
  import opened Order
  import opened Scenario
  import L = Lifecycle
  import opened Engine

  function ClusterAfter(cluster: set<string>, t: seq<Event>): set<string> {
    if t == [] then cluster
    else
      var before := ClusterAfter(cluster, t[..|t| - 1]);
      match t[|t| - 1]
      case Inject(id, ok) => if ok then before + {id} else before
      case ProviderDown(ok) => if ok then {} else before
      case _ => before
  }

  function DiskAfter(disk: Option<State>, t: seq<Event>): Option<State> {
    if t == [] then disk
    else
      match t[|t| - 1]
      case Save(st, ok) => if ok then Some(st) else DiskAfter(disk, t[..|t| - 1])
      case _ => DiskAfter(disk, t[..|t| - 1])
  }

  /** What the record misses after replaying t. */
  ghost function Missed(w: L.World, t: seq<Event>): set<string> {
    ClusterAfter(w.cluster, t) - Elems(L.Injected(L.World(DiskAfter(w.disk, t), {}, w.files)))
  }

  lemma ReplayOne(w: L.World, t: seq<Event>, e: Event)
    ensures ClusterAfter(w.cluster, t + [e]) ==
            match e
            case Inject(id, ok) => ClusterAfter(w.cluster, t) + (if ok then {id} else {})
            case ProviderDown(ok) => if ok then {} else ClusterAfter(w.cluster, t)
            case _ => ClusterAfter(w.cluster, t)
    ensures DiskAfter(w.disk, t + [e]) ==
            match e
            case Save(st, ok) => if ok then Some(st) else DiskAfter(w.disk, t)
            case _ => DiskAfter(w.disk, t)
  {
    assert (t + [e])[..|t + [e]| - 1] == t;
  }

  lemma {:induction false} ReplayProgress(w: L.World, st: State, ids: seq<string>, k: nat)
    requires k <= |ids| && w.disk == Some(st)
    ensures ClusterAfter(w.cluster, Progress(st, ids, k)) == w.cluster + Elems(ids[..k])
    ensures DiskAfter(w.disk, Progress(st, ids, k)) == Some(StateAfter(st, ids, k))
  {
    if k == 0 {
      assert ids[..0] == [];
    } else {
      var t := Progress(st, ids, k - 1);
      ReplayProgress(w, st, ids, k - 1);
      NextElems(ids, k - 1);
      ReplayOne(w, t, Inject(ids[k - 1], true));
      ReplayOne(w, t + [Inject(ids[k - 1], true)], Save(StateAfter(st, ids, k), true));
      assert Progress(st, ids, k) == t + [Inject(ids[k - 1], true)] + [Save(StateAfter(st, ids, k), true)];
    }
  }

  lemma ReplayBreak(w: L.World, st: State, ids: seq<string>, r: L.BreakResult)
    requires w.disk == Some(st) && !r.BreakRefused? && L.BreakPossible(ids, r)
    ensures ClusterAfter(w.cluster, BreakTrace(st, ids, r)) == w.cluster + Elems(ids[..L.Landed(ids, r)])
    ensures DiskAfter(w.disk, BreakTrace(st, ids, r)) == Some(StateAfter(st, ids, L.Recorded(ids, r)))
  {
    var k := L.Recorded(ids, r);
    ReplayProgress(w, st, ids, k);
    match r {
      case BrokeAll =>
      case InjectFailed(_, saved) =>
        TwoMore(w, Progress(st, ids, k), Inject(ids[k], false), Save(StateAfter(st, ids, k), saved));
      case RecordFailed(_) =>
        NextElems(ids, k);
        TwoMore(w, Progress(st, ids, k), Inject(ids[k], true), Save(StateAfter(st, ids, k + 1), false));
      case BreakRefused =>
    }
  }

  /** Replaying a break's trace lands in the world the break left. */
  lemma BreakTraceIsFaithful(faults: seq<Fault>, w: L.World, r: L.BreakResult, w': L.World)
    requires L.BreakStep(faults, w, r, w') && !r.BreakRefused?
    ensures var st := w.disk.value;
            var t := BreakTrace(st, L.PackIds(faults, st.pack), r);
            ClusterAfter(w.cluster, t) == w'.cluster && DiskAfter(w.disk, t) == w'.disk
  {
    var st := w.disk.value;
    ReplayBreak(w, st, L.PackIds(faults, st.pack), r);
  }

  lemma TwoMore(w: L.World, t: seq<Event>, a: Event, b: Event)
    requires a.Inject? && b.Save?
    ensures ClusterAfter(w.cluster, t + [a, b]) == ClusterAfter(w.cluster, t) + (if a.ok then {a.id} else {})
    ensures DiskAfter(w.disk, t + [a, b]) == if b.ok then Some(b.st) else DiskAfter(w.disk, t)
  {
    ReplayOne(w, t, a);
    ReplayOne(w, t + [a], b);
    assert t + [a, b] == t + [a] + [b];
  }

  lemma {:induction false} ProgressPrefix(st: State, ids: seq<string>, k: nat, j: nat)
    requires j <= k <= |ids|
    ensures |Progress(st, ids, k)| == 2 * k
    ensures Progress(st, ids, k)[..2 * j] == Progress(st, ids, j)
    ensures j < k ==> Progress(st, ids, k)[..2 * j + 1] == Progress(st, ids, j) + [Inject(ids[j], true)]
  {
    if k > 0 {
      var t, shorter := Progress(st, ids, k), Progress(st, ids, k - 1);
      if j < k {
        ProgressPrefix(st, ids, k - 1, j);
        assert t[..2 * (k - 1)] == shorter;
        assert t[..2 * j] == shorter[..2 * j];
        if j < k - 1 {
          assert t[..2 * j + 1] == shorter[..2 * j + 1];
        } else {
          assert t[..2 * j + 1] == shorter + [Inject(ids[j], true)];
        }
      } else {
        ProgressPrefix(st, ids, k - 1, k - 1);
        assert t[..2 * k] == t;
      }
    }
  }

  /** Every prefix of a break's trace is k recorded faults, and possibly one more inject. */
  lemma BreakPrefixes(st: State, ids: seq<string>, r: L.BreakResult, n: nat) returns (k: nat, tail: seq<Event>)
    requires L.BreakPossible(ids, r) && !r.BreakRefused?
    requires n <= |BreakTrace(st, ids, r)|
    ensures k <= |ids| && BreakTrace(st, ids, r)[..n] == Progress(st, ids, k) + tail
    ensures tail == [] || (k < |ids| && (tail == [Inject(ids[k], true)] || tail == [Inject(ids[k], false)]))
            || (k < |ids| && |tail| == 2 && tail[0].Inject? && tail[0].id == ids[k] && tail[1].Save?
                && (if tail[0].ok then !tail[1].ok else tail[1].st == StateAfter(st, ids, k)))
  {
    var t := BreakTrace(st, ids, r);
    var m := L.Recorded(ids, r);
    var p := Progress(st, ids, m);
    ProgressPrefix(st, ids, m, m);
    if n <= 2 * m {
      k := n / 2;
      ProgressPrefix(st, ids, m, k);
      assert t[..n] == p[..n];
      if n % 2 == 0 {
        tail := [];
      } else {
        tail := [Inject(ids[k], true)];
      }
    } else {
      k := m;
      tail := t[2 * m..n];
      assert t[..n] == p + tail;
      assert tail[0] == t[2 * m];
      if |tail| == 2 {
        assert tail[1] == t[2 * m + 1];
      } else {
        assert tail == [tail[0]];
      }
    }
  }

  /**
   Whenever a break stops, even by dying between two steps, the record misses
   at most one fault, the one injected last.
   */
  lemma BreakMissesAtMostTheLast(faults: seq<Fault>, pack: string, w: L.World, r: L.BreakResult, n: nat)
    requires WellFormed(faults) && L.Inv(faults, pack, w) && L.Covered(w) && L.HasLiveState(w)
    requires !r.BreakRefused? && L.BreakPossible(L.PackIds(faults, pack), r)
    requires n <= |BreakTrace(w.disk.value, L.PackIds(faults, pack), r)|
    ensures var t := BreakTrace(w.disk.value, L.PackIds(faults, pack), r)[..n];
            Missed(w, t) == {} || exists i | 0 <= i < |t| :: LastInject(t, i) && Missed(w, t) == {t[i].id}
  {
    var st := w.disk.value;
    var ids := L.PackIds(faults, pack);
    var k, tail := BreakPrefixes(st, ids, r, n);
    var done := Progress(st, ids, k);
    var t := done + tail;
    ReplayProgress(w, st, ids, k);
    NothingMissed(faults, pack, w, k);
    if tail == [] {
      assert t == done;
    } else {
      OneMoreMissed(w, done, tail, ids[k]);
      TailIsLast(done, tail);
    }
  }

  lemma TailIsLast(done: seq<Event>, tail: seq<Event>)
    requires 0 < |tail| <= 2 && tail[0].Inject? && (|tail| == 2 ==> tail[1].Save?)
    ensures (done + tail)[|done|] == tail[0]
    ensures tail[0].ok ==> LastInject(done + tail, |done|)
  {
    assert |tail| == 2 ==> (done + tail)[|done| + 1] == tail[1];
  }

  /** An inject that worked, with no inject after it. */
  ghost predicate LastInject(t: seq<Event>, i: nat) {
    && i < |t| && t[i].Inject? && t[i].ok
    && forall j | i < j < |t| :: !t[j].Inject?
  }

  /** Dying between any two operations of a break leaves the world one of its results leaves. */
  lemma DyingIsAResult(faults: seq<Fault>, w: L.World, r: L.BreakResult, n: nat) returns (r': L.BreakResult)
    requires L.HasLiveState(w) && !r.BreakRefused?
    requires L.BreakPossible(L.PackIds(faults, w.disk.value.pack), r)
    requires n <= |BreakTrace(w.disk.value, L.PackIds(faults, w.disk.value.pack), r)|
    ensures var t := BreakTrace(w.disk.value, L.PackIds(faults, w.disk.value.pack), r)[..n];
            L.BreakStep(faults, w, r', L.World(DiskAfter(w.disk, t), ClusterAfter(w.cluster, t), w.files))
  {
    var st := w.disk.value;
    var ids := L.PackIds(faults, st.pack);
    var k, tail := BreakPrefixes(st, ids, r, n);
    var done := Progress(st, ids, k);
    ReplayProgress(w, st, ids, k);
    if tail == [] {
      assert done + tail == done && (k == |ids| ==> ids[..k] == ids[..|ids|]);
      r' := if k == |ids| then L.BrokeAll else L.InjectFailed(k, true);
    } else {
      NextElems(ids, k);
      r' := if tail[0].ok then L.RecordFailed(k) else L.InjectFailed(k, true);
      if |tail| == 1 {
        ReplayOne(w, done, tail[0]);
        assert tail == [tail[0]];
      } else {
        TwoMore(w, done, tail[0], tail[1]);
        assert tail == [tail[0], tail[1]];
      }
    }
  }

  lemma OneMoreMissed(w: L.World, done: seq<Event>, tail: seq<Event>, id: string)
    requires Missed(w, done) == {} && 0 < |tail| <= 2
    requires tail[0].Inject? && tail[0].id == id
    requires |tail| == 2 ==> tail[1].Save? && (if tail[0].ok then !tail[1].ok
                                               else tail[1].ok ==> DiskAfter(w.disk, done) == Some(tail[1].st))
    ensures Missed(w, done + tail) <= {id}
    ensures !tail[0].ok ==> Missed(w, done + tail) == {}
  {
    if |tail| == 1 {
      ReplayOne(w, done, tail[0]);
      assert tail == [tail[0]];
    } else {
      TwoMore(w, done, tail[0], tail[1]);
      assert tail == [tail[0], tail[1]];
    }
  }

  lemma NothingMissed(faults: seq<Fault>, pack: string, w: L.World, k: nat)
    requires WellFormed(faults) && L.Inv(faults, pack, w) && L.Covered(w) && L.HasLiveState(w)
    requires k <= |L.PackIds(faults, pack)|
    ensures var ids := L.PackIds(faults, pack);
            w.cluster + Elems(ids[..k]) <= Elems(L.Record(w.disk.value.injected, ids[..k]))
  {
    var ids := L.PackIds(faults, pack);
    var p := |w.disk.value.injected|;
    PackSorted(faults, pack);
    assert w.disk.value.injected == ids[..p];
    L.RecordPrefix(ids, p, k);
    L.PrefixCovers(ids, p, if p < k then k else p);
    L.PrefixCovers(ids, k, if p < k then k else p);
  }

  // ---------------------------------------------------------------- the gate

  /** From a on, t saw the fault go in, break its own check, be fixed, and, at d, read fixed. */
  ghost predicate SawProof(t: seq<Event>, id: string, a: nat, d: nat) {
    && a + 3 <= d < |t|
    && t[a] == Inject(id, true)
    && t[a + 1].Check? && t[a + 1].id == id && t[a + 1].exit != Zero && t[a + 1].exit != Status(2)
    && t[a + 2] == Fix(id, false, true)
    && t[d] == Check(id, Zero)
  }

  lemma ProofSeen(t: seq<Event>, id: string, a: nat, part: seq<Event>)
    requires FaultProof(id, part)
    requires a + |part| <= |t| && t[a..a + |part|] == part
    ensures SawProof(t, id, a, a + |part| - 1)
  {
    SlicedAt(t, a, part, 0);
    SlicedAt(t, a, part, 1);
    SlicedAt(t, a, part, 2);
    SlicedAt(t, a, part, |part| - 1);
  }

  /** A whole proof of the fault stands between two marks. */
  ghost predicate ProofBetween(t: seq<Event>, id: string, from: nat, to: nat) {
    from < to && SawProof(t, id, from, to - 1)
  }

  /** t saw the proof of every fault, in pack order, each right behind the one before. */
  ghost predicate SawProofs(t: seq<Event>, ids: seq<string>, marks: seq<nat>) {
    && |marks| == |ids| + 1
    && forall i | 0 <= i < |ids| :: ProofBetween(t, ids[i], marks[i], marks[i + 1])
  }

  /** Where the i-th proof starts. */
  function Mark(pre: seq<Event>, parts: seq<seq<Event>>, i: nat): nat
    requires i <= |parts|
  {
    |pre| + |Flatten(parts[..i])|
  }

  lemma NextMark(pre: seq<Event>, parts: seq<seq<Event>>, i: nat)
    requires i < |parts|
    ensures Mark(pre, parts, i + 1) == Mark(pre, parts, i) + |parts[i]|
  {
    assert parts[..i + 1][..i] == parts[..i];
  }

  lemma PartProves(pre: seq<Event>, parts: seq<seq<Event>>, post: seq<Event>, i: nat, id: string)
    requires i < |parts| && FaultProof(id, parts[i])
    ensures ProofBetween(pre + Flatten(parts) + post, id, Mark(pre, parts, i), Mark(pre, parts, i) + |parts[i]|)
  {
    PartAt(pre, parts, post, i);
    ProofSeen(pre + Flatten(parts) + post, id, Mark(pre, parts, i), parts[i]);
  }

  lemma NextProof(pre: seq<Event>, ids: seq<string>, parts: seq<seq<Event>>, post: seq<Event>, i: nat)
    requires Proofs(ids, parts) && i < |ids|
    ensures ProofBetween(pre + Flatten(parts) + post, ids[i], Mark(pre, parts, i), Mark(pre, parts, i + 1))
  {
    assert FaultProof(ids[i], parts[i]);
    PartProves(pre, parts, post, i, ids[i]);
    NextMark(pre, parts, i);
  }

  lemma ProofsSeen(pre: seq<Event>, ids: seq<string>, parts: seq<seq<Event>>, post: seq<Event>, t: seq<Event>)
    returns (marks: seq<nat>)
    requires Proofs(ids, parts) && t == pre + Flatten(parts) + post
    ensures SawProofs(t, ids, marks)
    ensures marks[0] == |pre| && marks[|ids|] == |pre + Flatten(parts)|
  {
    marks := seq(|ids| + 1, i requires 0 <= i <= |ids| => Mark(pre, parts, i));
    forall i | 0 <= i < |ids|
      ensures ProofBetween(t, ids[i], marks[i], marks[i + 1])
    {
      NextProof(pre, ids, parts, post, i);
    }
    assert parts[..0] == [] && parts[..|parts|] == parts;
  }

  lemma SlicedAt(t: seq<Event>, a: nat, part: seq<Event>, j: nat)
    requires j < |part| && a + |part| <= |t| && t[a..a + |part|] == part
    ensures t[a + j] == part[j]
  {
    assert t[a..a + |part|][j] == t[a + j];
  }

  lemma PartAt(pre: seq<Event>, parts: seq<seq<Event>>, post: seq<Event>, i: nat)
    requires i < |parts|
    ensures var a := |Flatten(parts[..i])|;
            && a + |parts[i]| <= |Flatten(parts)|
            && (pre + Flatten(parts) + post)[|pre| + a..|pre| + a + |parts[i]|] == parts[i]
  {
    FlattenAt(parts, i);
  }

  lemma {:induction false} FlattenAt(parts: seq<seq<Event>>, i: nat)
    requires i < |parts|
    ensures |Flatten(parts[..i])| + |parts[i]| <= |Flatten(parts)|
    ensures Flatten(parts)[|Flatten(parts[..i])|..|Flatten(parts[..i])| + |parts[i]|] == parts[i]
  {
    var last := |parts| - 1;
    var shorter := parts[..last];
    if i < last {
      FlattenAt(shorter, i);
      assert shorter[..i] == parts[..i];
      var s := |Flatten(parts[..i])|;
      assert Flatten(parts)[s..s + |parts[i]|] == Flatten(shorter)[s..s + |parts[i]|];
    }
  }

  /** What a finished break did, step by step. */
  lemma ProgressSteps(st: State, ids: seq<string>, i: nat)
    requires i < |ids|
    ensures |Progress(st, ids, |ids|)| == 2 * |ids|
    ensures SawRecordedInject(Progress(st, ids, |ids|), 2 * i, ids[i])
  {
    var p := Progress(st, ids, |ids|);
    ProgressPrefix(st, ids, |ids|, i + 1);
    ProgressPrefix(st, ids, i, i);
    var q := Progress(st, ids, i + 1);
    assert q[2 * i] == Inject(ids[i], true) && q[2 * i + 1] == Save(StateAfter(st, ids, i + 1), true);
    assert p[..2 * (i + 1)][2 * i] == p[2 * i] && p[..2 * (i + 1)][2 * i + 1] == p[2 * i + 1];
  }

  /** The full cycle, step by step. */
  lemma CycleSteps(st: State, ids: seq<string>)
    ensures var t := FullCycle(st, ids);
            var n := 2 * |ids|;
            && |t| == n + 1 + |ids|
            && (forall i | 0 <= i < |ids| :: SawRecordedInject(t, 2 * i, ids[i]))
            && t[n] == Verify(false)
            && (forall i | 0 <= i < |ids| :: t[n + 1 + i] == Fix(ids[i], |ids| > 1, true))
  {
    var p := Progress(st, ids, |ids|);
    ProgressPrefix(st, ids, |ids|, |ids|);
    forall i | 0 <= i < |ids|
      ensures SawRecordedInject(FullCycle(st, ids), 2 * i, ids[i])
    {
      ProgressSteps(st, ids, i);
    }
  }

  /**
   From b on, t saw every fault go in and be recorded, verify fail, every fault
   be fixed, and then nothing but verify, failing until it passed at the end.
   */
  ghost predicate SawWholePack(t: seq<Event>, ids: seq<string>, b: nat) {
    var n := |ids|;
    var f := b + 2 * n;
    && f + 1 + n < |t|
    && (forall i | 0 <= i < n :: SawRecordedInject(t, b + 2 * i, ids[i]))
    && t[f] == Verify(false)
    && (forall i | 0 <= i < n :: t[f + 1 + i] == Fix(ids[i], n > 1, true))
    && (forall j | f + 1 + n <= j < |t| - 1 :: t[j] == Verify(false))
    && t[|t| - 1] == Verify(true)
  }

  ghost predicate SawRecordedInject(t: seq<Event>, j: nat, id: string) {
    j + 1 < |t| && t[j] == Inject(id, true) && t[j + 1].Save? && t[j + 1].ok
  }

  lemma CycleSeen(front: seq<Event>, st: State, ids: seq<string>, recovery: seq<Event>)
    requires WaitTrace(recovery, true)
    ensures SawWholePack(front + FullCycle(st, ids) + recovery, ids, |front|)
  {
    var cycle := FullCycle(st, ids);
    var t := front + cycle + recovery;
    CycleSteps(st, ids);
    assert forall j | 0 <= j < |cycle| :: t[|front| + j] == cycle[j];
    var c := |front| + |cycle|;
    assert forall j | 0 <= j < |recovery| :: t[c + j] == recovery[j];
    forall i | 0 <= i < |ids|
      ensures SawRecordedInject(t, |front| + 2 * i, ids[i])
      ensures t[|front| + 2 * |ids| + 1 + i] == Fix(ids[i], |ids| > 1, true)
    {
      assert SawRecordedInject(cycle, 2 * i, ids[i]);
      assert t[|front| + 2 * i] == cycle[2 * i] && t[|front| + (2 * i + 1)] == cycle[2 * i + 1];
      assert t[|front| + (2 * |ids| + 1 + i)] == cycle[2 * |ids| + 1 + i];
    }
    forall j | c <= j < |t| - 1
      ensures t[j] == Verify(false)
    {
      assert t[c + (j - c)] == recovery[j - c];
      WaitedOn(recovery, j - c);
    }
  }

  lemma WaitedOn(w: seq<Event>, j: nat)
    requires WaitTrace(w, true) && j < |w| - 1
    ensures w[j] == Verify(false)
  {
    assert w[..|w| - 1][j] in w[..|w| - 1];
  }

  /**
   t starts with a bring-up that succeeded: detected, workdir made, provider up,
   verify failing until it passed, and the state saved.
   */
  ghost predicate SawBringUp(t: seq<Event>, up: nat) {
    && 5 <= up <= |t|
    && t[0] == Detected(true) && t[1] == MadeWorkdir(true) && t[2] == ProviderUp(true)
    && t[up - 1].Save? && t[up - 1].ok
    && (SawVerified(t, 3, up - 2) || (6 <= up && SawVerified(t, 3, up - 3) && t[up - 2] == LoadFailed))
  }

  /** From a on, nothing but failed verifies up to the one at v that passed. */
  ghost predicate SawVerified(t: seq<Event>, a: nat, v: nat) {
    && a <= v < |t| && t[v] == Verify(true)
    && forall j | a <= j < v :: t[j] == Verify(false)
  }

  lemma VerifiedSeen(t: seq<Event>, built: seq<Event>, tail: nat)
    requires |built| >= 4 + tail && tail > 0 && built <= t
    requires WaitTrace(built[3..|built| - tail], true)
    ensures SawVerified(t, 3, |built| - tail - 1)
  {
    var w := built[3..|built| - tail];
    assert forall j | 0 <= j < |w| :: w[j] == t[3 + j];
    forall j | 3 <= j < |built| - tail - 1
      ensures t[j] == Verify(false)
    {
      WaitedOn(w, j - 3);
    }
  }

  lemma BringUpSeen(t: seq<Event>, built: seq<Event>, loadFailed: bool)
    requires HealthyTrace(built, loadFailed) && built <= t
    ensures SawBringUp(t, |built|)
  {
    assert built[..3][0] == t[0] && built[..3][1] == t[1] && built[..3][2] == t[2];
    VerifiedSeen(t, built, if loadFailed then 2 else 1);
  }

  /**
   A green gate: the environment came up healthy, then each fault of the pack,
   in order and one right behind the other, was proved alone, then the whole
   pack went in, took verify down, and was fixed until verify passed.
   */
  lemma GreenGateProves(ids: seq<string>, t: seq<Event>) returns (marks: seq<nat>)
    requires ProvedTrace(ids, t)
    ensures SawProofs(t, ids, marks)
    ensures SawBringUp(t, marks[0])
    ensures SawWholePack(t, ids, marks[|ids|])
  {
    var st, built, parts, recovery := GatePieces(ids, t);
    var front := built + Flatten(parts);
    Regroup(front, FullCycle(st, ids), recovery);
    CycleSeen(front, st, ids, recovery);
    marks := ProofsSeen(built, ids, parts, FullCycle(st, ids) + recovery, t);
  }

  lemma GatePieces(ids: seq<string>, t: seq<Event>)
    returns (st: State, built: seq<Event>, parts: seq<seq<Event>>, recovery: seq<Event>)
    requires ProvedTrace(ids, t)
    ensures Proofs(ids, parts) && WaitTrace(recovery, true)
    ensures t == built + Flatten(parts) + FullCycle(st, ids) + recovery
    ensures SawBringUp(t, |built|)
  {
    var proofs;
    st, built, proofs, recovery :| IsGate(st, ids, built, proofs, recovery)
                                   && t == built + proofs + FullCycle(st, ids) + recovery;
    parts :| Proofs(ids, parts) && proofs == Flatten(parts);
    assert t[..|built|] == built;
    if HealthyTrace(built, false) {
      BringUpSeen(t, built, false);
    } else {
      BringUpSeen(t, built, true);
    }
  }
}
