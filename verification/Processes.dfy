/**
 The background processes of a live session, as a relation between worlds
 (internal/session/session.go). Processes may exit at any moment; a kill that
 reports success ends its process; pids are not recycled.

 A process nobody recorded is one no later command can stop, so the theorems
 are about orphans: alive, and in no pidfile.
 */
module Processes {
  import opened Wrappers

  datatype Info = Info(socket: string, appPort: int)

  /** pidfiles maps a process name to the pid its file holds, None when it does not parse. */
  datatype World = World(
    alive: set<int>,
    pidfiles: map<string, Option<int>>,
    nextPid: int,
    info: Option<Info>)

  function Pids(pidfiles: map<string, Option<int>>): set<int> {
    set name | name in pidfiles && pidfiles[name].Some? :: pidfiles[name].value
  }

  function Orphans(w: World): set<int> {
    w.alive - Pids(w.pidfiles)
  }

  /** The pids handed out between two worlds. */
  predicate Launched(w: World, w': World, pid: int) {
    w.nextPid <= pid < w'.nextPid
  }

  datatype StartResult =
    | Refused                                                   // nothing was launched
    | Failed(killFailed: set<int>, removeFailed: set<string>)   // rolled back
    | Started(info: Info, lost: Option<int>)                    // lost: a forwarder whose pidfile write failed

  datatype StopResult =
    | Unread
    | Stopped(killFailed: set<int>)

  datatype Call = Start(start: StartResult) | Stop(stop: StopResult)

  ghost predicate Swept(w: World, w': World) {
    Pids(w.pidfiles) !! w'.alive
  }

  ghost predicate StartStep(w: World, r: StartResult, w': World) {
    && (forall pid | pid in w'.alive :: pid in w.alive || Launched(w, w', pid))
    && w.nextPid <= w'.nextPid
    && match r
       case Refused =>
         && w'.nextPid == w.nextPid && w'.info == w.info
         && Pids(w'.pidfiles) <= Pids(w.pidfiles)
         && (w'.pidfiles == w.pidfiles || Swept(w, w'))
       case Failed(killFailed, removeFailed) =>
         && Swept(w, w') && w'.info == w.info
         && w'.pidfiles.Keys <= removeFailed
         && (forall pid | pid in Pids(w'.pidfiles) :: Launched(w, w', pid))
         && (forall pid | pid in w'.alive && Launched(w, w', pid) :: pid in killFailed)
         && (forall pid | pid in killFailed :: Launched(w, w', pid))
       case Started(info, lost) =>
         && Swept(w, w') && w'.info == Some(info)
         && (lost.Some? ==> Launched(w, w', lost.value) && info.appPort == 0)
         && (forall pid | pid in w'.alive && Launched(w, w', pid) :: pid in Pids(w'.pidfiles) || lost == Some(pid))
         && (forall pid | pid in Pids(w'.pidfiles) :: Launched(w, w', pid))
  }

  ghost predicate StopStep(w: World, r: StopResult, w': World) {
    && w'.alive <= w.alive && w'.nextPid == w.nextPid && w'.info == w.info
    && match r
       case Unread => w'.pidfiles == w.pidfiles
       case Stopped(killFailed) =>
         && killFailed <= Pids(w.pidfiles)
         && (forall pid | pid in w'.alive && pid in Pids(w.pidfiles) :: pid in killFailed)
         && (w'.pidfiles == map[] || Pids(w'.pidfiles) <= Pids(w.pidfiles))
  }

  ghost predicate Step(w: World, c: Call, w': World) {
    match c
    case Start(r) => StartStep(w, r, w')
    case Stop(r) => StopStep(w, r, w')
  }

  // ---------------------------------------------------------------- one call

  /** The pids a call was refused over: kills, and the pidfile of a forwarder, that were answered with an error. */
  function Blamed(c: Call): set<int> {
    match c
    case Start(Refused) => {}
    case Start(Failed(killFailed, _)) => killFailed
    case Start(Started(_, lost)) => if lost.Some? then {lost.value} else {}
    case Stop(Unread) => {}
    case Stop(Stopped(killFailed)) => killFailed
  }

  /** Pids were handed out before they could be alive or recorded. */
  ghost predicate Inv(w: World) {
    && (forall pid | pid in w.alive :: pid < w.nextPid)
    && (forall pid | pid in Pids(w.pidfiles) :: pid < w.nextPid)
  }

  /**
   A call orphans nothing it was not refused over; what a successful start
   orphans is the forwarder whose pidfile write failed, unless a pidfile names
   it all the same.
   */
  lemma CallsOwnTheirOrphans(w: World, c: Call, w': World)
    requires Inv(w) && Step(w, c, w')
    ensures Inv(w')
    ensures Orphans(w') <= Orphans(w) + Blamed(c)
    ensures forall pid | pid in w'.alive && pid !in Pids(w'.pidfiles) && (pid in w.alive ==> pid in Pids(w.pidfiles)) ::
      || (c.Start? && c.start.Failed? && pid in c.start.killFailed)
      || (c.Start? && c.start.Started? && c.start.lost == Some(pid))
      || (c.Stop? && c.stop.Stopped? && pid in c.stop.killFailed)
    ensures c.Start? && c.start.Started? ==>
      forall pid | Launched(w, w', pid) :: pid in Orphans(w') <==>
        pid in w'.alive && c.start.lost == Some(pid) && pid !in Pids(w'.pidfiles)
  {
    forall pid | pid in Orphans(w')
      ensures pid in Orphans(w) + Blamed(c)
    {
      match c {
        case Start(r) => assert Launched(w, w', pid) || pid in w.alive;
        case Stop(r) => assert pid in w.alive;
      }
    }
  }

  /** A forwarder whose pidfile write failed, running on after a stop that ended everything recorded. */
  lemma UnrecordedForwarderIsAnOrphan(w: World, w': World)
    requires w == World({}, map[], 1, None)
    requires w' == World({1, 2, 3, 4},
                         map["asciinema" := Some(1), "ttyd-candidate" := Some(2), "ttyd-observer" := Some(3),
                             "app-forward" := None],
                         5, Some(Info("", 0)))
    ensures Inv(w) && StartStep(w, Started(Info("", 0), Some(4)), w')
    ensures Orphans(w') == {4}
    ensures StopStep(w', Stopped({}), World({4}, map[], 5, Some(Info("", 0))))
    ensures forall w'' | StopStep(w', Stopped({}), w'') :: w''.alive <= {4} && (4 in w''.alive ==> 4 in Orphans(w''))
  {
    assert w'.pidfiles["asciinema"] == Some(1) && w'.pidfiles["ttyd-candidate"] == Some(2)
           && w'.pidfiles["ttyd-observer"] == Some(3) && w'.pidfiles["app-forward"] == None;
    assert Pids(w'.pidfiles) == {1, 2, 3};
  }

  // ---------------------------------------------------------------- runs

  ghost predicate IsRun(run: seq<World>, calls: seq<Call>) {
    && |run| == |calls| + 1
    && Inv(run[0]) && run[0].alive == {}
    && forall n | 0 <= n < |calls| :: Step(run[n], calls[n], run[n + 1])
  }

  /** No kill, and no write of a forwarder's pidfile, was answered with an error. */
  ghost predicate Clean(calls: seq<Call>, n: nat)
    requires n <= |calls|
  {
    forall m | 0 <= m < n ::
      && (calls[m].Start? && calls[m].start.Failed? ==> calls[m].start.killFailed == {})
      && (calls[m].Start? && calls[m].start.Started? ==> calls[m].start.lost == None)
      && (calls[m].Stop? && calls[m].stop.Stopped? ==> calls[m].stop.killFailed == {})
  }

  /** Call m is the last start of the first n calls that succeeded, with no failed start and no stop behind it. */
  ghost predicate IsLastStart(calls: seq<Call>, m: nat, n: nat) {
    && m < n <= |calls| && calls[m].Start? && calls[m].start.Started?
    && forall k | m < k < n :: (calls[k].Start? && calls[k].start.Refused?) || (calls[k].Stop? && calls[k].stop.Unread?)
  }

  /** Everything alive after n calls was launched by that start. */
  ghost predicate IsItsSession(run: seq<World>, calls: seq<Call>, m: nat, n: nat)
    requires |run| == |calls| + 1
  {
    && IsLastStart(calls, m, n)
    && forall pid | pid in run[n].alive :: run[m].nextPid <= pid < run[m + 1].nextPid
  }

  /**
   Over every run in which no kill and no write of a forwarder's pidfile is
   answered with an error: every live process is in a pidfile, and all of them
   were launched by one start, the last, which was not stopped since.
   */
  lemma {:induction false} OneRecordedGeneration(run: seq<World>, calls: seq<Call>, n: nat)
    requires IsRun(run, calls) && n <= |calls| && Clean(calls, n)
    ensures Inv(run[n]) && Orphans(run[n]) == {}
    ensures forall pid | pid in run[n].alive :: pid in Pids(run[n].pidfiles)
    ensures run[n].alive == {} || exists m | 0 <= m < n :: IsItsSession(run, calls, m, n)
  {
    if n > 0 {
      var w, c, w' := run[n - 1], calls[n - 1], run[n];
      OneRecordedGeneration(run, calls, n - 1);
      CallsOwnTheirOrphans(w, c, w');
      assert Blamed(c) == {};
      assert Orphans(w') == {};
      forall pid | pid in w'.alive
        ensures pid in Pids(w'.pidfiles) && OldOrNewPid(w, c, w', pid)
      {
        assert pid !in Orphans(w');
        OldOrNew(w, c, w', pid);
      }
      if c.Start? && c.start.Started? {
        assert IsItsSession(run, calls, n - 1, n);
      } else if (c.Start? && c.start.Failed?) || (c.Stop? && c.stop.Stopped?) {
        NoneWithin(w'.alive, 0, 0);
      } else if w.alive == {} {
        NoneWithin(w'.alive, 0, 0);
      } else {
        var m :| 0 <= m < n - 1 && IsItsSession(run, calls, m, n - 1);
        assert IsItsSession(run, calls, m, n);
      }
    }
  }

  /** Where a process alive after a clean call comes from. */
  ghost predicate OldOrNewPid(w: World, c: Call, w': World, pid: int) {
    match c
    case Start(Started(_, _)) => Launched(w, w', pid)
    case Start(Refused) => pid in w.alive
    case Stop(Unread) => pid in w.alive
    case _ => false
  }

  lemma OldOrNew(w: World, c: Call, w': World, pid: int)
    requires Inv(w) && Step(w, c, w') && Blamed(c) == {}
    requires Orphans(w) == {} && pid in w'.alive
    ensures OldOrNewPid(w, c, w', pid)
  {
    assert pid !in Orphans(w);
    assert Launched(w, w', pid) || pid in w.alive;
  }

  lemma NoneWithin(pids: set<int>, lo: int, hi: int)
    requires hi <= lo && forall pid | pid in pids :: lo <= pid < hi
    ensures pids == {}
  {
    assert pids == set pid | pid in pids && lo <= pid < hi;
  }

  /** So a failed start leaves nothing alive and no pidfile it could remove, and after a stop nothing is alive. */
  lemma NothingOutlivesItsCall(run: seq<World>, calls: seq<Call>, n: nat)
    requires IsRun(run, calls) && n < |calls| && Clean(calls, n + 1)
    ensures calls[n].Start? && calls[n].start.Failed? ==>
      run[n + 1].alive == {} && run[n + 1].pidfiles.Keys <= calls[n].start.removeFailed
    ensures calls[n].Stop? && calls[n].stop.Stopped? ==> run[n + 1].alive == {}
  {
    OneRecordedGeneration(run, calls, n + 1);
    assert Step(run[n], calls[n], run[n + 1]);
    var after := n + 1;
    if (calls[n].Start? && calls[n].start.Failed?) || (calls[n].Stop? && calls[n].stop.Stopped?) {
      assert forall m | 0 <= m < after :: !IsItsSession(run, calls, m, after);
    }
  }
}
