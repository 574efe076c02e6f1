/**
 The hint ledger protocol (internal/grading/score.go, internal/fileio/fileio.go).
 Any number of AppendHint calls run in separate processes, interleaved at every
 file operation; each may time out, fail at any operation, or be killed. Readers
 take no lock. Nobody deletes the lockfile by hand.
 */
module Ledger {
  import opened Wrappers

  /** A location Go shares between times, or one decoded for a single time: == tells those apart by pointer. */
  datatype Zone = Shared(name: string) | Decoded(offset: int, pointer: nat)

  datatype Instant = Instant(ns: int, zone: Zone)

  datatype Hint = Hint(minute: int, text: string, at: Instant)

  /** A file's bytes: a complete encoding, or anything less. */
  datatype File = Torn | Whole(hints: seq<Hint>)

  datatype Phase =
    | Waiting                     // in lockHints
    | Locked                      // holds the lockfile
    | Loaded(hints: seq<Hint>)    // read the ledger
    | Writing(data: seq<Hint>)    // temporary file created
    | Ready(data: seq<Hint>)      // written, closed, mode set
    | Releasing(ok: bool)         // result decided, deferred unlock still to run
    | Returned(ok: bool)
    | Crashed

  datatype Proc = Proc(hint: Hint, phase: Phase, tmp: Option<File>)

  /** commits names the calls whose rename happened, in rename order; no process reads it. */
  datatype System = System(procs: seq<Proc>, lock: bool, ledger: Option<File>, commits: seq<nat>)

  predicate InCritical(phase: Phase) {
    phase.Locked? || phase.Loaded? || phase.Writing? || phase.Ready? || phase.Releasing?
  }

  function Content(ledger: Option<File>): seq<Hint> {
    if ledger.Some? && ledger.value.Whole? then ledger.value.hints else []
  }

  predicate Readable(ledger: Option<File>) {
    ledger == None || ledger.value.Whole?
  }

  function Moved(s: System, i: nat, phase: Phase, tmp: Option<File>): System
    requires i < |s.procs|
  {
    s.(procs := s.procs[i := s.procs[i].(phase := phase, tmp := tmp)])
  }

  // ---------------------------------------------------------------- steps

  /** The opening of the lockfile succeeds, finds it there, or fails for good. */
  predicate WaitingStep(s: System, i: nat, s': System)
    requires i < |s.procs|
  {
    || (!s.lock && s' == Moved(s, i, Locked, s.procs[i].tmp).(lock := true))
    || (s.lock && s' == s)
    || s' == Moved(s, i, Returned(false), s.procs[i].tmp)
  }

  predicate LockedStep(s: System, i: nat, s': System)
    requires i < |s.procs|
  {
    || (Readable(s.ledger) && s' == Moved(s, i, Loaded(Content(s.ledger)), s.procs[i].tmp))
    || s' == Moved(s, i, Releasing(false), s.procs[i].tmp)
  }

  predicate LoadedStep(s: System, i: nat, s': System)
    requires i < |s.procs| && s.procs[i].phase.Loaded?
  {
    || s' == Moved(s, i, Writing(s.procs[i].phase.hints + [s.procs[i].hint]), Some(Torn))
    || s' == Moved(s, i, Releasing(false), s.procs[i].tmp)
  }

  /** Bytes arrive, the file is finished, or the write gives up and drops (or fails to drop) the temporary file. */
  predicate WritingStep(s: System, i: nat, s': System)
    requires i < |s.procs| && s.procs[i].phase.Writing?
  {
    var data := s.procs[i].phase.data;
    || s' == s
    || s' == Moved(s, i, Writing(data), Some(Whole(data)))
    || (s.procs[i].tmp == Some(Whole(data)) && s' == Moved(s, i, Ready(data), s.procs[i].tmp))
    || s' == Moved(s, i, Releasing(false), None)
    || s' == Moved(s, i, Releasing(false), s.procs[i].tmp)
  }

  /** The rename puts whatever the temporary file holds in the ledger's place, or changes nothing. */
  predicate ReadyStep(s: System, i: nat, s': System)
    requires i < |s.procs|
  {
    || s' == Moved(s, i, Releasing(true), None).(ledger := s.procs[i].tmp, commits := s.commits + [i])
    || s' == Moved(s, i, Releasing(false), None)
    || s' == Moved(s, i, Releasing(false), s.procs[i].tmp)
  }

  predicate ReleasingStep(s: System, i: nat, s': System)
    requires i < |s.procs| && s.procs[i].phase.Releasing?
  {
    var done := Moved(s, i, Returned(s.procs[i].phase.ok), s.procs[i].tmp);
    s' == done.(lock := false) || s' == done
  }

  predicate Step(s: System, i: nat, s': System) {
    && i < |s.procs|
    && match s.procs[i].phase
       case Waiting => WaitingStep(s, i, s')
       case Locked => LockedStep(s, i, s')
       case Loaded(_) => LoadedStep(s, i, s')
       case Writing(_) => WritingStep(s, i, s')
       case Ready(_) => ReadyStep(s, i, s')
       case Releasing(_) => ReleasingStep(s, i, s')
       case Returned(_) => false
       case Crashed => false
  }

  predicate Crash(s: System, i: nat, s': System) {
    && i < |s.procs| && !s.procs[i].phase.Returned?
    && s' == Moved(s, i, Crashed, s.procs[i].tmp)
  }

  predicate Next(s: System, s': System) {
    exists i | 0 <= i < |s.procs| :: Step(s, i, s') || Crash(s, i, s')
  }

  predicate Init(s: System) {
    && !s.lock && s.commits == [] && Readable(s.ledger)
    && forall i | 0 <= i < |s.procs| :: s.procs[i].phase == Waiting && s.procs[i].tmp == None
  }

  predicate IsRun(run: seq<System>) {
    && run != [] && Init(run[0])
    && forall n | 0 < n < |run| :: Next(run[n - 1], run[n])
  }

  // ---------------------------------------------------------------- invariant

  predicate Committed(phase: Phase) {
    phase == Releasing(true) || phase == Returned(true)
  }

  predicate NotCommitted(phase: Phase) {
    !Committed(phase) && !phase.Crashed?
  }

  function HintsOf(s: System, commits: seq<nat>): seq<Hint>
    requires forall n | 0 <= n < |commits| :: commits[n] < |s.procs|
  {
    seq(|commits|, n requires 0 <= n < |commits| => s.procs[commits[n]].hint)
  }

  ghost predicate Exclusive(s: System) {
    && (forall i | 0 <= i < |s.procs| :: InCritical(s.procs[i].phase) ==> s.lock)
    && (forall i, j | 0 <= i < |s.procs| && 0 <= j < |s.procs| ::
          InCritical(s.procs[i].phase) && InCritical(s.procs[j].phase) ==> i == j)
  }

  /** What the lock holder knows is still what the ledger says. */
  ghost predicate Fresh(s: System, p: Proc) {
    match p.phase
    case Loaded(hints) => hints == Content(s.ledger)
    case Writing(data) => data == Content(s.ledger) + [p.hint]
    case Ready(data) => data == Content(s.ledger) + [p.hint] && p.tmp == Some(Whole(data))
    case _ => true
  }

  ghost predicate CommitsOnce(s: System) {
    && (forall n | 0 <= n < |s.commits| :: s.commits[n] < |s.procs|)
    && (forall i | 0 <= i < |s.procs| :: Committed(s.procs[i].phase) ==> i in s.commits)
    && (forall i | 0 <= i < |s.procs| :: NotCommitted(s.procs[i].phase) ==> i !in s.commits)
    && (forall m, n | 0 <= m < n < |s.commits| :: s.commits[m] != s.commits[n])
  }

  ghost predicate Inv(first: seq<Hint>, s: System) {
    && Exclusive(s)
    && Readable(s.ledger)
    && (forall i | 0 <= i < |s.procs| :: Fresh(s, s.procs[i]))
    && CommitsOnce(s)
    && Content(s.ledger) == first + HintsOf(s, s.commits)
  }

  lemma InitHolds(s: System)
    requires Init(s)
    ensures Inv(Content(s.ledger), s)
  {
    assert HintsOf(s, s.commits) == [];
  }

  /** A move that leaves ledger and commits alone. */
  lemma QuietKeeps(first: seq<Hint>, s: System, i: nat, s': System)
    requires Inv(first, s) && i < |s.procs|
    requires |s'.procs| == |s.procs| && s'.ledger == s.ledger && s'.commits == s.commits
    requires forall j | 0 <= j < |s.procs| && j != i :: s'.procs[j] == s.procs[j]
    requires s'.procs[i].hint == s.procs[i].hint && Fresh(s', s'.procs[i])
    requires NotCommitted(s'.procs[i].phase) ==> NotCommitted(s.procs[i].phase)
    requires Committed(s'.procs[i].phase) ==> Committed(s.procs[i].phase)
    requires Exclusive(s')
    ensures Inv(first, s')
  {
    forall j | 0 <= j < |s'.procs|
      ensures Fresh(s', s'.procs[j])
    {
      if j != i {
        assert Fresh(s, s.procs[j]);
      }
    }
    assert forall j | 0 <= j < |s.procs| :: s'.procs[j].hint == s.procs[j].hint;
    assert HintsOf(s', s'.commits) == HintsOf(s, s.commits);
  }

  lemma RenameKeeps(first: seq<Hint>, s: System, i: nat, s': System)
    requires Inv(first, s) && i < |s.procs| && s.procs[i].phase.Ready?
    requires s' == Moved(s, i, Releasing(true), None).(ledger := s.procs[i].tmp, commits := s.commits + [i])
    ensures Inv(first, s')
    ensures Content(s.ledger) <= Content(s'.ledger)
  {
    assert Fresh(s, s.procs[i]);
    forall j | 0 <= j < |s'.procs|
      ensures Fresh(s', s'.procs[j])
    {
      if j != i {
        assert s'.procs[j] == s.procs[j] && !InCritical(s.procs[j].phase);
      }
    }
    RenameCommits(s, i, s');
    RenameAppends(s, i, s');
  }

  lemma RenameCommits(s: System, i: nat, s': System)
    requires CommitsOnce(s) && i < |s.procs| && s.procs[i].phase.Ready?
    requires s' == Moved(s, i, Releasing(true), None).(ledger := s.procs[i].tmp, commits := s.commits + [i])
    ensures CommitsOnce(s')
  {
    assert i !in s.commits;
  }

  lemma RenameAppends(s: System, i: nat, s': System)
    requires CommitsOnce(s) && i < |s.procs| && s.procs[i].phase.Ready?
    requires s' == Moved(s, i, Releasing(true), None).(ledger := s.procs[i].tmp, commits := s.commits + [i])
    requires forall n | 0 <= n < |s'.commits| :: s'.commits[n] < |s'.procs|
    ensures HintsOf(s', s'.commits) == HintsOf(s, s.commits) + [s.procs[i].hint]
  {
    assert forall j | 0 <= j < |s.procs| :: s'.procs[j].hint == s.procs[j].hint;
  }

  lemma StepKeeps(first: seq<Hint>, s: System, i: nat, s': System)
    requires Inv(first, s) && Step(s, i, s')
    ensures Inv(first, s')
    ensures Content(s.ledger) <= Content(s'.ledger)
  {
    assert Fresh(s, s.procs[i]);
    if s.procs[i].phase.Ready? && s'.commits != s.commits {
      RenameKeeps(first, s, i, s');
    } else {
      QuietKeeps(first, s, i, s');
    }
  }

  lemma CrashKeeps(first: seq<Hint>, s: System, i: nat, s': System)
    requires Inv(first, s) && Crash(s, i, s')
    ensures Inv(first, s')
    ensures Content(s.ledger) <= Content(s'.ledger)
  {
    QuietKeeps(first, s, i, s');
  }

  lemma NextKeeps(first: seq<Hint>, s: System, s': System)
    requires Inv(first, s) && Next(s, s')
    ensures Inv(first, s')
    ensures Content(s.ledger) <= Content(s'.ledger)
  {
    var i :| 0 <= i < |s.procs| && (Step(s, i, s') || Crash(s, i, s'));
    if Step(s, i, s') {
      StepKeeps(first, s, i, s');
    } else {
      CrashKeeps(first, s, i, s');
    }
  }

  lemma {:induction false} InvAt(run: seq<System>, n: nat)
    requires IsRun(run) && n < |run|
    ensures Inv(Content(run[0].ledger), run[n])
  {
    if n == 0 {
      InitHolds(run[0]);
    } else {
      InvAt(run, n - 1);
      NextKeeps(Content(run[0].ledger), run[n - 1], run[n]);
    }
  }

  // ---------------------------------------------------------------- theorems

  /** At most one call is between taking and releasing the lock, and the lockfile is there while it is. */
  lemma AtMostOneHolder(run: seq<System>, n: nat, i: nat, j: nat)
    requires IsRun(run) && n < |run| && i < |run[n].procs| && j < |run[n].procs|
    requires InCritical(run[n].procs[i].phase) && InCritical(run[n].procs[j].phase)
    ensures i == j && run[n].lock
  {
    InvAt(run, n);
  }

  /** The ledger is what was there at first plus the committed hints in rename order. */
  lemma LedgerIsCommits(run: seq<System>, n: nat)
    requires IsRun(run) && n < |run|
    ensures forall k | 0 <= k < |run[n].commits| :: run[n].commits[k] < |run[n].procs|
    ensures Readable(run[n].ledger)
    ensures Content(run[n].ledger) == Content(run[0].ledger) + HintsOf(run[n], run[n].commits)
  {
    InvAt(run, n);
  }

  /** No update is lost or doubled: a call that returned nil is in exactly once, one that returned an error not. */
  lemma ReturnsMatchCommits(run: seq<System>, n: nat, i: nat)
    requires IsRun(run) && n < |run| && i < |run[n].procs|
    ensures run[n].procs[i].phase == Returned(true) ==> multiset(run[n].commits)[i] == 1
    ensures run[n].procs[i].phase == Returned(false) ==> multiset(run[n].commits)[i] == 0
    ensures multiset(run[n].commits)[i] <= 1
  {
    InvAt(run, n);
    CountDistinct(run[n].commits, i);
  }

  lemma {:induction false} CountDistinct(s: seq<nat>, i: nat)
    requires forall m, n | 0 <= m < n < |s| :: s[m] != s[n]
    ensures multiset(s)[i] == if i in s then 1 else 0
  {
    if s != [] {
      var last := |s| - 1;
      CountDistinct(s[..last], i);
      assert s == s[..last] + [s[last]];
    }
  }

  /** An unlocked reader always finds a whole ledger, and later readers see everything earlier ones saw. */
  lemma {:induction false} ReadersSeeGrowingPrefixes(run: seq<System>, m: nat, n: nat)
    requires IsRun(run) && m <= n < |run|
    ensures Readable(run[n].ledger)
    ensures Content(run[m].ledger) <= Content(run[n].ledger)
    decreases n
  {
    InvAt(run, n);
    if m < n {
      ReadersSeeGrowingPrefixes(run, m, n - 1);
      InvAt(run, n - 1);
      NextKeeps(Content(run[0].ledger), run[n - 1], run[n]);
    }
  }

  /** A lock whose holder is gone stays, and from then on nothing is ever written. */
  lemma {:induction false} AbandonedLockFreezes(run: seq<System>, m: nat, n: nat)
    requires IsRun(run) && m <= n < |run|
    requires run[m].lock && forall i | 0 <= i < |run[m].procs| :: !InCritical(run[m].procs[i].phase)
    ensures run[n].lock && run[n].ledger == run[m].ledger
    ensures forall i | 0 <= i < |run[n].procs| :: !InCritical(run[n].procs[i].phase)
    decreases n
  {
    if m < n {
      AbandonedLockFreezes(run, m, n - 1);
      assert Next(run[n - 1], run[n]);
    }
  }
}
