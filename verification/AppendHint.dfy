/**
 AppendHint as it is written (internal/grading/score.go), one call among many:
 before each of its file operations the other processes do whatever the
 protocol lets them. Every operation it makes is a protocol step, so the run it
 takes part in is one the ledger theorems speak about.
 */
module AppendHint {
  import opened Wrappers
  import opened Ledger

  class Workdir {
    var sys: System
    var run: seq<System>
    var clock: nat
    var trouble: bool                // some operation was answered with an error
    var lockLeft: bool               // the lockfile could not be removed
    const lockWait: nat := 5000
    const lockPoll: nat := 10

    ghost predicate Valid()
      reads this
    {
      IsRun(run) && run[|run| - 1] == sys
    }

    constructor (sys: System)
      requires Init(sys)
      ensures Valid() && this.sys == sys && run == [sys]
    {
      this.sys, this.run, this.clock, this.trouble, this.lockLeft := sys, [sys], 0, false, false;
    }

    /** Any legal run may have happened meanwhile, as long as process i stood still. */
    method Others(i: nat)
      requires Valid() && i < |sys.procs|
      modifies this`sys, this`run
      ensures Valid() && old(run) <= run
      ensures |sys.procs| == |old(sys).procs| && sys.procs[i] == old(sys).procs[i]
    {
      var longer: seq<System> := *;
      if IsRun(longer) && run <= longer {
        var s := longer[|longer| - 1];
        if |s.procs| == |sys.procs| && s.procs[i] == sys.procs[i] {
          run, sys := longer, s;
        }
      }
    }

    method Advance(i: nat, next: System)
      requires Valid() && i < |sys.procs| && Step(sys, i, next)
      modifies this`sys, this`run
      ensures Valid() && sys == next && run == old(run) + [next]
    {
      assert Next(sys, next);
      run, sys := run + [next], next;
    }

    /** Opens the lockfile exclusively, polling while somebody else has it. */
    method LockHints(i: nat) returns (ok: bool)
      requires Valid() && i < |sys.procs| && sys.procs[i].phase == Waiting
      modifies this
      ensures Valid() && old(run) <= run
      ensures ok ==> sys.lock
      ensures ok || trouble || (clock > old(clock) + 5000 && sys.lock)
      ensures lockLeft == old(lockLeft)
      ensures |sys.procs| == |old(sys).procs|
      ensures sys.procs[i] == old(sys).procs[i].(phase := if ok then Locked else Returned(false))
    {
      var deadline := clock + lockWait;
      while true
        invariant Valid() && old(run) <= run
        invariant |sys.procs| == |old(sys).procs| && sys.procs[i] == old(sys).procs[i]
        invariant lockLeft == old(lockLeft)
        decreases deadline + 1 - clock
      {
        Others(i);
        var otherError: bool := *;
        if otherError {
          trouble := true;
          Advance(i, Moved(sys, i, Returned(false), sys.procs[i].tmp));
          return false;
        }
        if !sys.lock {
          Advance(i, Moved(sys, i, Locked, sys.procs[i].tmp).(lock := true));
          return true;
        }
        Advance(i, sys);
        if clock > deadline {
          Advance(i, Moved(sys, i, Returned(false), sys.procs[i].tmp));
          return false;
        }
        clock := clock + lockPoll;
      }
    }

    /** Reads and decodes the ledger; a missing one is empty. */
    method LoadHints(i: nat) returns (hints: Option<seq<Hint>>)
      requires Valid() && i < |sys.procs| && sys.procs[i].phase == Locked
      modifies this`sys, this`run, this`trouble
      ensures Valid() && old(run) <= run
      ensures hints.Some? || trouble
      ensures |sys.procs| == |old(sys).procs|
      ensures sys.procs[i] ==
              old(sys).procs[i].(phase := if hints.Some? then Loaded(hints.value) else Releasing(false))
    {
      Others(i);
      var readable: bool := *;
      if readable && (sys.ledger.None? || sys.ledger.value.Whole?) {
        hints := Some(if sys.ledger.None? then [] else sys.ledger.value.hints);
        Advance(i, Moved(sys, i, Loaded(hints.value), sys.procs[i].tmp));
      } else {
        hints := None;
        trouble := true;
        Advance(i, Moved(sys, i, Releasing(false), sys.procs[i].tmp));
      }
    }

    /** Writes through a temporary file and renames it into place. */
    method WriteAtomic(i: nat, data: seq<Hint>) returns (ok: bool)
      requires Valid() && i < |sys.procs| && sys.procs[i].phase.Loaded?
      requires data == sys.procs[i].phase.hints + [sys.procs[i].hint]
      modifies this`sys, this`run, this`trouble
      ensures Valid() && old(run) <= run
      ensures ok || trouble
      ensures |sys.procs| == |old(sys).procs| && sys.procs[i].hint == old(sys).procs[i].hint
      ensures sys.procs[i].phase == Releasing(ok)
    {
      Others(i);
      ok := *;
      if !ok {
        trouble := true;
        Advance(i, Moved(sys, i, Releasing(false), sys.procs[i].tmp));   // no temporary file
        return;
      }
      Advance(i, Moved(sys, i, Writing(data), Some(Torn)));
      Others(i);
      ok := *;
      if !ok {
        ok := Abandon(i);
        return;
      }
      Advance(i, Moved(sys, i, Writing(data), Some(Whole(data))));
      Others(i);
      ok := *;
      if !ok {
        ok := Abandon(i);
        return;
      }
      Advance(i, Moved(sys, i, Ready(data), sys.procs[i].tmp));          // closed, mode set
      Others(i);
      ok := *;
      if !ok {
        ok := Abandon(i);
        return;
      }
      Advance(i, Moved(sys, i, Releasing(true), None).(ledger := sys.procs[i].tmp, commits := sys.commits + [i]));
    }

    /** The deferred removal of the temporary file, whose own failure is ignored. */
    method Abandon(i: nat) returns (ok: bool)
      requires Valid() && i < |sys.procs| && (sys.procs[i].phase.Writing? || sys.procs[i].phase.Ready?)
      modifies this`sys, this`run, this`trouble
      ensures !ok && trouble && Valid() && old(run) <= run
      ensures |sys.procs| == |old(sys).procs| && sys.procs[i].hint == old(sys).procs[i].hint
      ensures sys.procs[i].phase == Releasing(false)
    {
      var removed: bool := *;
      trouble := true;
      Advance(i, Moved(sys, i, Releasing(false), if removed then None else sys.procs[i].tmp));
      ok := false;
    }

    /** Whatever happened under the lock, the lockfile goes, unless it cannot be removed. */
    method Unlock(i: nat)
      requires Valid() && i < |sys.procs| && sys.procs[i].phase.Releasing?
      modifies this`sys, this`run, this`lockLeft
      ensures !sys.lock || lockLeft
      ensures Valid() && old(run) <= run
      ensures |sys.procs| == |old(sys).procs| && sys.procs[i].hint == old(sys).procs[i].hint
      ensures sys.procs[i].phase == Returned(old(sys).procs[i].phase.ok)
    {
      Others(i);
      var removed: bool := *;
      var done := Moved(sys, i, Returned(sys.procs[i].phase.ok), sys.procs[i].tmp);
      lockLeft := lockLeft || !removed;
      Advance(i, if removed then done.(lock := false) else done);
    }

    /**
     Adds one hint. Whatever the other processes do, nil means the hint is in
     the ledger exactly once and an error means it is not there on this call's
     account.
     */
    method AppendHint(i: nat) returns (ok: bool, ghost locked: bool)
      requires Valid() && i < |sys.procs| && sys.procs[i].phase == Waiting
      modifies this
      ensures Valid() && old(run) <= run
      ensures |sys.procs| == |old(sys).procs| && sys.procs[i].phase == Returned(ok)
      ensures ok ==> locked
      ensures locked ==> (ok || trouble) && (!sys.lock || lockLeft)
      ensures !locked ==> trouble || (clock > old(clock) + 5000 && sys.lock)
      ensures multiset(sys.commits)[i] == if ok then 1 else 0
      ensures ok ==> old(sys).procs[i].hint in Content(sys.ledger)
      ensures Content(old(sys).ledger) <= Content(sys.ledger)
    {
      var held := LockHints(i);
      locked := held;
      if !held {
        ok := false;
      } else {
        var hints := LoadHints(i);
        if hints.Some? {
          ok := WriteAtomic(i, hints.value + [sys.procs[i].hint]);
        } else {
          ok := false;
        }
        Unlock(i);
      }
      CallOutcome(run, |old(run)| - 1, i, ok);
    }
  }

  /** What a finished call may conclude from the run it was part of. */
  lemma CallOutcome(run: seq<System>, m: nat, i: nat, ok: bool)
    requires IsRun(run) && m < |run| && i < |run[|run| - 1].procs|
    requires run[|run| - 1].procs[i].phase == Returned(ok)
    ensures var s := run[|run| - 1];
            && multiset(s.commits)[i] == (if ok then 1 else 0)
            && (ok ==> s.procs[i].hint in Content(s.ledger))
            && Content(run[m].ledger) <= Content(s.ledger)
  {
    var s := run[|run| - 1];
    ReturnsMatchCommits(run, |run| - 1, i);
    ReadersSeeGrowingPrefixes(run, m, |run| - 1);
    LedgerIsCommits(run, |run| - 1);
    if ok {
      assert i in s.commits by {
        assert multiset(s.commits)[i] == 1;
      }
      CommittedHintIsThere(s, Content(run[0].ledger), i);
    }
  }

  lemma CommittedHintIsThere(s: System, first: seq<Hint>, i: nat)
    requires i in s.commits && forall k | 0 <= k < |s.commits| :: s.commits[k] < |s.procs|
    requires Content(s.ledger) == first + HintsOf(s, s.commits)
    ensures s.procs[i].hint in Content(s.ledger)
  {
    var n :| 0 <= n < |s.commits| && s.commits[n] == i;
    var given := HintsOf(s, s.commits);
    assert given[n] == s.procs[i].hint;
    assert Content(s.ledger)[|first| + n] == given[n];
  }
}
