/**
 The session manager (internal/session/session.go): Start launches the recorder,
 the two ttyd listeners and the app forwarder, rolling back on any failure;
 Stop recovers what to kill from the pidfiles. Commands and file operations
 answer as they like, and a process may exit before any of them.
 */
module Session {
  import opened Wrappers
  import P = Processes

  datatype Proc = Proc(name: string, pid: int)

  datatype Listener = Listener(pidName: string, port: int)

  datatype Options = Options(candidateUser: string, tmuxSocket: string)

  const CANDIDATE_PORT := 8001
  const OBSERVER_PORT := 8002
  const APP_PORT := 8003

  const LISTENERS: seq<Listener> := [
    Listener("ttyd-candidate", CANDIDATE_PORT),
    Listener("ttyd-observer", OBSERVER_PORT)]

  /** A candidate account cannot reach the default tmux socket. */
  predicate BadOptions(opts: Options) {
    opts.candidateUser != "" && opts.tmuxSocket == ""
  }

  /** The names of the first n listeners. */
  function ListenerNames(n: nat): set<string> {
    if n == 0 then {} else if n == 1 then {"ttyd-candidate"} else {"ttyd-candidate", "ttyd-observer"}
  }

  /** The app a problem serves: already on its port, or through a forwarder. */
  datatype App = App(forwarded: bool)

  /** What one call saw of the outside. */
  datatype Seen =
    | Did(step: string)
    | Spawned(name: string)
    | Trouble                // an operation failed, or the caller gave up
    | Silent(port: int)      // a listener did not answer in time
    | Gone(pid: int)         // a process was found dead
    | Running(pid: int)      // ... or alive
    | Unkilled(pid: int)
    | Free(port: int, before: int)   // nothing took a connection, before this pid was handed out

  function PidsOf(procs: seq<Proc>): set<int> {
    set i | 0 <= i < |procs| :: procs[i].pid
  }

  function NamesOf(procs: seq<Proc>): set<string> {
    set i | 0 <= i < |procs| :: procs[i].name
  }

  class Manager {
    var alive: set<int>
    var pidfiles: map<string, Option<int>>
    var nextPid: int
    var info: Option<P.Info>
    var tmux: bool
    var clock: nat
    var log: set<Seen>
    var answered: set<int>                  // the ports that took a connection during this call
    var unwritten: set<Proc>                // the processes whose pidfile write was answered with an error
    var signalled: set<int>                 // the pids this call sent a kill to
    const listenerWait: nat := 5000
    const listenerPoll: nat := 100

    constructor (w: P.World)
      ensures World() == w
    {
      alive, pidfiles, nextPid, info := w.alive, w.pidfiles, w.nextPid, w.info;
      tmux, clock, log, answered, unwritten, signalled := false, 0, {}, {}, {}, {};
    }

    function World(): P.World
      reads this
    {
      P.World(alive, pidfiles, nextPid, info)
    }

    // ------------------------------------------------------------ the outside

    /** Any process may exit at any moment, and time passes. */
    method Churn()
      modifies this`alive, this`clock
      ensures alive <= old(alive) && clock > old(clock)
    {
      var exited: set<int> := *;
      alive := alive - exited;
      clock := clock + 1;
    }

    method Note(what: Seen)
      modifies this`log
      ensures log == old(log) + {what}
    {
      log := log + {what};
    }

    method Spawn(name: string) returns (pid: int)
      requires nextPid > 0
      modifies this`alive, this`clock, this`log, this`nextPid
      ensures log == old(log) + {if pid == 0 then Trouble else Spawned(name)}
      ensures pid == 0 || (pid == old(nextPid) && nextPid == old(nextPid) + 1)
      ensures pid == 0 ==> nextPid == old(nextPid)
      ensures old(log) <= log && alive <= old(alive) + {pid} && (pid == 0 ==> alive <= old(alive))
    {
      Churn();
      var ok: bool := *;
      if ok {
        pid, nextPid := nextPid, nextPid + 1;
        alive := alive + {pid};
        Note(Spawned(name));
      } else {
        pid := 0;
        Note(Trouble);
      }
    }

    method Kill(pid: int) returns (ok: bool)
      modifies this`alive, this`clock, this`log, this`signalled
      ensures signalled == old(signalled) + {pid}
      ensures old(log) <= log && alive <= old(alive) && (ok ==> pid !in alive) && clock > old(clock)
      ensures !ok ==> Unkilled(pid) in log
    {
      Churn();
      ok := *;
      signalled := signalled + {pid};
      if ok {
        alive := alive - {pid};
      } else {
        Note(Unkilled(pid));
      }
    }

    method Alive(pid: int) returns (yes: bool)
      modifies this`alive, this`clock, this`log
      ensures old(log) <= log && alive <= old(alive) && yes == (pid in alive) && clock > old(clock)
      ensures log == old(log) + {if yes then Running(pid) else Gone(pid)}
    {
      Churn();
      yes := pid in alive;
      Note(if yes then Running(pid) else Gone(pid));
    }

    /** Something accepts connections on the port. */
    method Dial(port: int) returns (accepted: bool)
      modifies this`alive, this`clock, this`answered, this`log
      ensures alive <= old(alive) && clock > old(clock)
      ensures answered == if accepted then old(answered) + {port} else old(answered)
      ensures log == if accepted then old(log) else old(log) + {Free(port, nextPid)}
    {
      Churn();
      accepted := *;
      if accepted {
        answered := answered + {port};
      } else {
        Note(Free(port, nextPid));
      }
    }

    /** A command or file operation with no effect on processes or pidfiles. */
    method Attempt(step: string) returns (ok: bool)
      modifies this`alive, this`clock, this`log
      ensures alive <= old(alive) && clock > old(clock)
      ensures log == old(log) + {if ok then Did(step) else Trouble}
    {
      Churn();
      ok := *;
      Note(if ok then Did(step) else Trouble);
    }

    method RemovePidfile(name: string) returns (ok: bool)
      modifies this`pidfiles, this`log
      ensures log == if ok then old(log) else old(log) + {Trouble}
      ensures pidfiles == old(pidfiles) - {name} || (!ok && pidfiles == old(pidfiles))
    {
      ok := *;
      if ok {
        pidfiles := pidfiles - {name};
      } else {
        Note(Trouble);
      }
    }

    /** os.RemoveAll on the pids directory: a failure may leave any of it. */
    method RemovePidsDir() returns (ok: bool)
      modifies this`pidfiles, this`log
      ensures log == if ok then old(log) else old(log) + {Trouble}
      ensures ok ==> pidfiles == map[]
      ensures P.Pids(pidfiles) <= P.Pids(old(pidfiles))
    {
      ok := *;
      if ok {
        pidfiles := map[];
      } else {
        Note(Trouble);
        var gone: set<string> := *;
        pidfiles := pidfiles - gone;
        assert forall name | name in pidfiles :: name in old(pidfiles) && pidfiles[name] == old(pidfiles)[name];
      }
    }

    method KillSession()
      modifies this`alive, this`clock, this`log, this`tmux
      ensures log == old(log) + {Did("kill-session")} || log == old(log) + {Trouble}
      ensures !tmux || Trouble in log
      ensures old(log) <= log && alive <= old(alive)
    {
      var ok := Attempt("kill-session");
      if ok {
        tmux := false;
      }
    }

    // ------------------------------------------------------------ pieces of Start

    /** The recorded processes still running, or nothing when a pidfile cannot be read. */
    method LivePids() returns (live: Option<seq<Proc>>)
      modifies this`alive, this`clock, this`log
      ensures old(log) <= log && alive <= old(alive)
      ensures live.None? ==> Trouble in log
      ensures live.Some? ==>
        && PidsOf(live.value) <= old(alive)
        && PidsOf(live.value) <= P.Pids(pidfiles)
        && forall pid | pid in alive && pid in P.Pids(pidfiles) :: pid in PidsOf(live.value)
    {
      var readable := Attempt("read pidfile");
      if !readable {
        return None;
      }
      var found: seq<Proc> := [];
      var rest := pidfiles.Keys;
      while rest != {}
        invariant rest <= pidfiles.Keys && old(log) <= log && alive <= old(alive)
        invariant PidsOf(found) <= P.Pids(pidfiles) && PidsOf(found) <= old(alive)
        invariant forall name | name in pidfiles && name !in rest
                                && pidfiles[name].Some? && pidfiles[name].value in alive ::
          pidfiles[name].value in PidsOf(found)
        decreases rest
      {
        var name :| name in rest;
        rest := rest - {name};
        readable := Attempt("read pidfile");
        if !readable {
          return None;
        }
        if pidfiles[name].Some? {
          var pid := pidfiles[name].value;
          var running := Alive(pid);
          if running {
            PidsOfMore(found, Proc(name, pid));
            found := found + [Proc(name, pid)];
          }
        }
      }
      return Some(found);
    }

    /** Refuses over a live session; otherwise sweeps the pidfiles of a dead one. */
    method RefuseIfRunning() returns (ok: bool)
      modifies this`alive, this`clock, this`log, this`pidfiles
      ensures ok || Trouble in log || !(P.Pids(old(pidfiles)) !! old(alive))
      ensures old(log) <= log && alive <= old(alive) && P.Pids(pidfiles) <= P.Pids(old(pidfiles))
      ensures pidfiles == old(pidfiles) || P.Pids(old(pidfiles)) !! alive
      ensures ok ==> pidfiles == map[] && P.Pids(old(pidfiles)) !! alive
    {
      var live := LivePids();
      if live.None? {
        return false;
      }
      if |live.value| == 0 {
        assert P.Pids(pidfiles) !! alive by {
          assert PidsOf(live.value) == {};
          assert forall pid | pid in P.Pids(pidfiles) :: pid !in alive;
        }
        ok := RemovePidsDir();
        return;
      }
      assert live.value[0].pid in PidsOf(live.value);
      return false;
    }

    /** Launches one process and records its pid; the pid is known even when recording it failed. */
    method StartProcess(name: string) returns (p: Proc, ok: bool)
      requires nextPid > 0
      modifies this`alive, this`clock, this`log, this`nextPid, this`pidfiles, this`unwritten
      ensures old(log) <= log
      ensures if ok then Spawned(name) in log else Trouble in log
      ensures unwritten == old(unwritten) + (if p.pid != 0 && !ok then {p} else {})
      ensures p.pid == 0 ==> !ok && nextPid == old(nextPid) && alive <= old(alive) && pidfiles == old(pidfiles)
      ensures p.pid != 0 ==>
        && p == Proc(name, old(nextPid)) && nextPid == old(nextPid) + 1
        && alive <= old(alive) + {p.pid}
        && (ok ==> pidfiles == old(pidfiles)[name := Some(p.pid)])
        && (pidfiles == old(pidfiles) || pidfiles == old(pidfiles)[name := None]
            || pidfiles == old(pidfiles)[name := Some(p.pid)])
    {
      var pid := Spawn(name);
      if pid == 0 {
        return Proc("", 0), false;
      }
      p := Proc(name, pid);
      ok := *;
      if !ok {
        unwritten := unwritten + {p};
        Note(Trouble);
        return;                               // the directory could not be made
      }
      ok := *;
      if !ok {
        unwritten := unwritten + {p};
        Note(Trouble);
      }
      var written: bool := *;
      var torn: bool := *;
      if ok || written {
        pidfiles := pidfiles[name := Some(pid)];
      } else if torn {
        pidfiles := pidfiles[name := None];
      }
    }

    /** Waits for a listener to answer, giving up once its process is gone. */
    method WaitListening(p: Proc, l: Listener) returns (ok: bool)
      modifies this`alive, this`clock, this`log, this`answered
      ensures old(answered) <= answered
      ensures ok ==> l.port in answered
      ensures !ok ==>
        || Gone(p.pid) in log || Trouble in log
        || (Silent(l.port) in log && Running(p.pid) in log && clock > old(clock) + listenerWait)
      ensures ok && Gone(p.pid) !in old(log) ==> Gone(p.pid) !in log
      ensures old(log) <= log && alive <= old(alive)
    {
      var deadline := clock + listenerWait;
      while true
        invariant old(log) <= log && alive <= old(alive) && old(answered) <= answered
        invariant Gone(p.pid) !in old(log) ==> Gone(p.pid) !in log
        decreases deadline + 1 - clock
      {
        var accepted := Dial(l.port);
        if accepted {
          return true;
        }
        var running := Alive(p.pid);
        if !running {
          return false;
        }
        if clock > deadline {
          Note(Silent(l.port));
          return false;
        }
        var cancelled: bool := *;
        if cancelled {
          Note(Trouble);
          return false;
        }
        clock := clock + listenerPoll;
      }
    }

    /** Everything launched since base is tracked, and only tracked names have pidfiles. */
    ghost predicate Tracking(started: seq<Proc>, base: int, unremoved: set<string>)
      reads this
    {
      && 0 < base <= nextPid
      && (forall pid | pid in alive :: pid < nextPid)
      && (forall pid | pid in alive && base <= pid :: pid in PidsOf(started))
      && (forall i | 0 <= i < |started| :: base <= started[i].pid < nextPid)
      && pidfiles.Keys <= NamesOf(started) + unremoved
      && (forall pid | pid in P.Pids(pidfiles) :: base <= pid < nextPid)
    }

    ghost predicate Recorded(started: seq<Proc>)
      reads this
    {
      forall i | 0 <= i < |started| ::
        started[i].name in pidfiles && pidfiles[started[i].name] == Some(started[i].pid)
    }

    /** Stops what a failed start already started: kills what is alive, drops every pidfile, ends the session. */
    method Cleanup(started: seq<Proc>, base: int, unremoved: set<string>)
      returns (killFailed: set<int>, removeFailed: set<string>)
      requires Tracking(started, base, unremoved)
      modifies this`alive, this`clock, this`log, this`pidfiles, this`tmux, this`signalled
      ensures forall pid | pid in killFailed :: Unkilled(pid) in log
      ensures !tmux || Trouble in log
      ensures removeFailed != {} ==> Trouble in log
      ensures old(log) <= log && alive <= old(alive)
      ensures forall pid | pid in alive && base <= pid :: pid in killFailed
      ensures killFailed <= PidsOf(started)
      ensures pidfiles.Keys <= removeFailed + unremoved
      ensures forall pid | pid in P.Pids(pidfiles) :: base <= pid < nextPid
    {
      killFailed, removeFailed := {}, {};
      for i := 0 to |started|
        invariant old(log) <= log && alive <= old(alive)
        invariant forall pid | pid in alive && base <= pid ::
          pid in killFailed || exists j | i <= j < |started| :: started[j].pid == pid
        invariant killFailed <= PidsOf(started) && forall pid | pid in killFailed :: Unkilled(pid) in log
        invariant removeFailed != {} ==> Trouble in log
        invariant forall name | name in pidfiles ::
          name in removeFailed || name in unremoved || exists j | i <= j < |started| :: started[j].name == name
        invariant forall pid | pid in P.Pids(pidfiles) :: base <= pid < nextPid
      {
        var p := started[i];
        var running := Alive(p.pid);
        if running {
          var killed := Kill(p.pid);
          if !killed {
            killFailed := killFailed + {p.pid};
          }
        }
        ghost var before := pidfiles;
        var removed := RemovePidfile(p.name);
        PidsShrink(before, pidfiles);
        if !removed {
          removeFailed := removeFailed + {p.name};
        }
      }
      KillSession();
    }

    // ------------------------------------------------------------ Start

    /** Something this call met that a start cannot get past. */
    ghost predicate Setback(base: int)
      reads this
    {
      exists e | e in log :: e == Trouble || e.Silent? || (e.Gone? && e.pid >= base)
    }

    /**
     What has to be in order before a process is launched: the options, an
     environment, both listener ports free while no pid from base on existed,
     tokens, the app route, a local scratch directory, and the tmux session.
     */
    ghost predicate Ready(opts: Options, base: int)
      reads this
    {
      && (opts.candidateUser != "" ==> opts.tmuxSocket != "")
      && {Did("state"), Did("tokens"), Did("app"), Did("new-session")} <= log
      && Free(8001, base) in log && Free(8002, base) in log
      && (opts.candidateUser == "" ==> Did("scratch") in log)
    }

    /** What a start that succeeded brought up. */
    ghost predicate Complete(opts: Options, app: Option<App>, base: int, r: P.StartResult)
      requires r.Started?
      reads this
    {
      && Ready(opts, base) && {Did("pane"), Did("session.json")} <= log && tmux
      && PartsUp(opts)
      && AppServed(app, r.info.appPort) && ForwarderLost(app, r.info.appPort, r.lost)
      && r.info.socket == opts.tmuxSocket
    }

    /** The recorder is recorded, and was found running once the listeners were up. */
    ghost predicate RecorderSeen()
      reads this
    {
      Spawned("asciinema") in log && "asciinema" in pidfiles
      && pidfiles["asciinema"].Some? && Running(pidfiles["asciinema"].value) in log
    }

    /** The app's port is announced unless there is no app or its forwarder failed. */
    ghost predicate AppServed(app: Option<App>, port: int)
      reads this
    {
      match app
      case None => port == 0
      case Some(a) =>
        if port == 0 then a.forwarded && Trouble in log
        else port == 8003 && (a.forwarded ==> Spawned("app-forward") in log)
    }

    /** Everything that can refuse before a process exists, down to creating the tmux session. */
    method Preflight(opts: Options) returns (ok: bool)
      requires answered == {}
      modifies this`alive, this`clock, this`log, this`answered, this`pidfiles, this`tmux
      ensures ok ==> Ready(opts, nextPid) && answered == {} && tmux
      ensures !ok ==> BadOptions(opts) || Trouble in log || answered != {} || !(P.Pids(old(pidfiles)) !! old(alive))
      ensures old(log) <= log && alive <= old(alive) && P.Pids(pidfiles) <= P.Pids(old(pidfiles))
      ensures pidfiles == old(pidfiles) || P.Pids(old(pidfiles)) !! alive
      ensures ok ==> pidfiles == map[] && P.Pids(old(pidfiles)) !! alive
    {
      if BadOptions(opts) {
        return false;
      }
      ok := Attempt("state");
      if !ok {
        return;
      }
      ok := RefuseIfRunning();
      if !ok {
        return;
      }
      for i := 0 to |LISTENERS|
        invariant answered == {} && old(log) <= log && alive <= old(alive)
        invariant pidfiles == map[] && P.Pids(old(pidfiles)) !! alive
        invariant Did("state") in log && forall j | 0 <= j < i :: Free(LISTENERS[j].port, nextPid) in log
      {
        var taken := Dial(LISTENERS[i].port);
        if taken {
          assert LISTENERS[i].port in answered;
          return false;
        }
      }
      assert LISTENERS[0].port == CANDIDATE_PORT && LISTENERS[1].port == OBSERVER_PORT;
      ok := Attempt("tokens");
      if !ok {
        return;
      }
      ok := Attempt("app");
      if !ok {
        return;
      }
      if opts.candidateUser == "" {
        ok := Attempt("scratch");
        if !ok {
          return;
        }
      }
      ok := Attempt("new-session");
      if ok {
        tmux := true;
      }
    }

    /** Brings up the live layer, or takes down everything it had brought up. */
    method Start(opts: Options, app: Option<App>) returns (r: P.StartResult)
      requires nextPid > 0 && P.Inv(World())
      modifies this
      ensures P.StartStep(old(World()), r, World())
      ensures P.Inv(World()) && nextPid > 0
      ensures r.Refused? ==>
        BadOptions(opts) || Trouble in log || answered != {} || !(P.Pids(old(pidfiles)) !! old(alive))
      ensures r.Failed? ==> RollbackExcused(r, old(nextPid))
      ensures r.Started? ==> Complete(opts, app, old(nextPid), r)
    {
      ghost var w := World();
      var base := nextPid;
      log, answered, unwritten, signalled := {}, {}, {}, {};
      var ok := Preflight(opts);
      if !ok {
        return P.Refused;
      }
      ghost var before := alive;
      assert P.Pids(pidfiles) == {};
      r := Launch(opts, app, base);
      forall pid | pid in P.Pids(w.pidfiles)
        ensures pid !in alive
      {
        assert pid < base && pid !in before;
      }
      assert P.Swept(w, World());
    }

    /** A rollback had a cause, and lets go only of what could not be killed or removed. */
    ghost predicate RollbackExcused(r: P.StartResult, base: int)
      requires r.Failed?
      reads this
    {
      && Setback(base)
      && (forall pid | pid in r.killFailed :: Unkilled(pid) in log)
      && (r.removeFailed != {} ==> Trouble in log)
      && (!tmux || Trouble in log)
    }

    /** The rollback every failure past the tmux session goes through. */
    method Fail(started: seq<Proc>, base: int, unremoved: set<string>) returns (r: P.StartResult)
      requires Tracking(started, base, unremoved) && Setback(base)
      requires unremoved != {} ==> Trouble in log
      modifies this`alive, this`clock, this`log, this`pidfiles, this`tmux, this`signalled
      ensures old(log) <= log && alive <= old(alive) && r.Failed? && RollbackExcused(r, base)
      ensures LaunchedCleanly(info, base, r)
    {
      var killFailed, removeFailed := Cleanup(started, base, unremoved);
      r := P.Failed(killFailed, removeFailed + unremoved);
    }

    /** The recorder is mandatory when the candidate owns the server, optional locally. */
    method StartRecorder(opts: Options, base: int) returns (started: seq<Proc>, recorder: Proc, ok: bool)
      requires Tracking([], base, {}) && pidfiles == map[]
      modifies this`alive, this`clock, this`log, this`nextPid, this`pidfiles, this`unwritten
      ensures old(nextPid) <= nextPid && forall pid | pid in alive :: pid in old(alive) || base <= pid
      ensures Tracking(started, base, {}) && (ok ==> Recorded(started))
      ensures started == if recorder.pid == 0 then [] else [recorder]
      ensures recorder.pid != 0 ==> recorder.name == "asciinema" && base <= recorder.pid
      ensures ok ==> unwritten == old(unwritten)
      ensures old(log) <= log
      ensures !ok ==> Trouble in log
      ensures ok && opts.candidateUser != "" ==> Spawned("asciinema") in log && recorder.pid != 0
    {
      var written;
      recorder, written := StartProcess("asciinema");
      PidsAdd(map[], "asciinema", recorder.pid);
      if recorder.pid == 0 {
        return [], recorder, opts.candidateUser == "";
      }
      PidsOfMore([], recorder);
      assert [] + [recorder] == [recorder];
      return [recorder], recorder, written;
    }

    /** Launches one tracked, recorded process more, under a name not used yet. */
    method StartTracked(tracked: seq<Proc>, base: int, name: string) returns (started: seq<Proc>, p: Proc, ok: bool)
      requires Tracking(tracked, base, {}) && Recorded(tracked) && name !in NamesOf(tracked)
      modifies this`alive, this`clock, this`log, this`nextPid, this`pidfiles, this`unwritten
      ensures old(nextPid) <= nextPid && forall pid | pid in alive :: pid in old(alive) || base <= pid
      ensures started == if p.pid == 0 then tracked else tracked + [p]
      ensures Tracking(started, base, {}) && Recorded(tracked)
      ensures unwritten == old(unwritten) + (if p.pid != 0 && !ok then {p} else {})
      ensures p.pid == 0 ==> !ok
      ensures old(log) <= log
      ensures if ok then Spawned(name) in log else Trouble in log
      ensures p.pid != 0 ==> p.name == name && base <= p.pid < nextPid
      ensures ok ==> Recorded(started)
      ensures NamesOf(started) <= NamesOf(tracked) + {name}
      ensures forall other | other != name && other in old(pidfiles) ::
        other in pidfiles && pidfiles[other] == old(pidfiles)[other]
    {
      ghost var before := pidfiles;
      p, ok := StartProcess(name);
      PidsAdd(before, name, p.pid);
      PidsOfMore(tracked, p);
      assert pidfiles.Keys <= before.Keys + {name};
      assert Recorded(tracked) by {
        assert forall i | 0 <= i < |tracked| :: tracked[i].name in NamesOf(tracked);
      }
      started := if p.pid == 0 then tracked else tracked + [p];
      assert forall i | 0 <= i < |tracked| :: started[i] == tracked[i];
    }

    /** The first n listeners are launched and recorded, behind whatever was tracked before. */
    ghost predicate ListenersUp(tracked: seq<Proc>, started: seq<Proc>, ttyds: seq<Proc>, base: int, n: nat)
      requires n <= |LISTENERS|
      reads this
    {
      && Tracking(started, base, {}) && Recorded(started) && Behind(tracked, started, n)
      && |ttyds| == n && forall j | 0 <= j < n :: Spawned(LISTENERS[j].pidName) in log && base <= ttyds[j].pid
    }

    /** One more listener, tracked even when its pidfile could not be written. */
    method StartListener(tracked: seq<Proc>, already: seq<Proc>, ttyds: seq<Proc>, base: int, i: nat)
      returns (started: seq<Proc>, p: Proc, ok: bool)
      requires i < |LISTENERS| && ListenersUp(tracked, already, ttyds, base, i)
      modifies this`alive, this`clock, this`log, this`nextPid, this`pidfiles, this`unwritten
      ensures old(nextPid) <= nextPid && forall pid | pid in alive :: pid in old(alive) || base <= pid
      ensures ok ==> unwritten == old(unwritten)
      ensures old(log) <= log
      ensures ok ==> ListenersUp(tracked, started, ttyds + [p], base, i + 1)
      ensures !ok ==> Tracking(started, base, {}) && Trouble in log
    {
      NextBehind(tracked, already, i);
      started, p, ok := StartTracked(already, base, LISTENERS[i].pidName);
      if ok {
        OneMoreBehind(tracked, already, p, i);
      }
    }

    /** Both ttyd listeners, each failure ending the start. */
    method StartListeners(tracked: seq<Proc>, base: int) returns (started: seq<Proc>, ttyds: seq<Proc>, ok: bool)
      requires Tracking(tracked, base, {}) && Recorded(tracked) && NamesOf(tracked) <= {"asciinema"}
      modifies this`alive, this`clock, this`log, this`nextPid, this`pidfiles, this`unwritten
      ensures old(nextPid) <= nextPid && forall pid | pid in alive :: pid in old(alive) || base <= pid
      ensures ok ==> unwritten == old(unwritten)
      ensures old(log) <= log
      ensures Tracking(started, base, {}) && (!ok ==> Trouble in log)
      ensures ok ==> ListenersUp(tracked, started, ttyds, base, |LISTENERS|)
    {
      started, ttyds := tracked, [];
      assert Behind(tracked, started, 0);
      for i := 0 to |LISTENERS|
        invariant ListenersUp(tracked, started, ttyds, base, i)
        invariant old(log) <= log && unwritten == old(unwritten)
        invariant old(nextPid) <= nextPid && forall pid | pid in alive :: pid in old(alive) || base <= pid
      {
        var p;
        started, p, ok := StartListener(tracked, started, ttyds, base, i);
        if !ok {
          return;
        }
        ttyds := ttyds + [p];
      }
      ok := true;
    }

    /** A recorder that exited at once stops being tracked, when the session may go on without it. */
    method CheckRecorder(opts: Options, tracked: seq<Proc>, base: int, recorder: Proc)
      returns (started: seq<Proc>, ok: bool, unremoved: set<string>)
      requires Tracking(tracked, base, {}) && Recorded(tracked)
      requires recorder.pid != 0 ==> tracked != [] && tracked[0] == recorder && recorder.name == "asciinema"
      requires recorder.pid != 0 ==> "asciinema" !in NamesOf(tracked[1..])
      requires "app-forward" !in NamesOf(tracked)
      modifies this`alive, this`clock, this`log, this`pidfiles
      ensures old(log) <= log && alive <= old(alive)
      ensures Tracking(started, base, unremoved)
      ensures !ok ==> Trouble in log || (recorder.pid != 0 && Gone(recorder.pid) in log)
      ensures unremoved != {} ==> Trouble in log
      ensures old(log) <= log
      ensures ok && opts.candidateUser != "" && recorder.pid != 0 ==>
        Running(recorder.pid) in log && "asciinema" in pidfiles && pidfiles["asciinema"] == Some(recorder.pid)
      ensures ok ==> unremoved == {} && Recorded(started) && "app-forward" !in NamesOf(started)
    {
      started, ok, unremoved := tracked, true, {};
      if recorder.pid != 0 {
        var running := Alive(recorder.pid);
        if !running {
          if opts.candidateUser != "" {
            return tracked, false, {};
          }
          DropFirst(tracked);
          started := tracked[1..];
          ghost var before := pidfiles;
          ok := RemovePidfile("asciinema");
          PidsShrink(before, pidfiles);
          assert forall i | 0 <= i < |started| :: started[i] == tracked[i + 1] && started[i].name in NamesOf(started);
          unremoved := if ok then {} else {"asciinema"};
        }
      }
    }

    /** Every listener answers its port. */
    method AwaitListeners(ttyds: seq<Proc>, base: int) returns (ok: bool)
      requires |ttyds| == |LISTENERS| && forall i | 0 <= i < |ttyds| :: base <= ttyds[i].pid
      modifies this`alive, this`clock, this`log, this`answered
      ensures old(log) <= log && alive <= old(alive)
      ensures ok ==> CANDIDATE_PORT in answered && OBSERVER_PORT in answered
      ensures !ok ==> Setback(base)
    {
      for i := 0 to |LISTENERS|
        invariant old(log) <= log && alive <= old(alive)
        invariant forall j | 0 <= j < i :: LISTENERS[j].port in answered
      {
        ok := WaitListening(ttyds[i], LISTENERS[i]);
        if !ok {
          return;
        }
      }
      assert LISTENERS[0].port == CANDIDATE_PORT && LISTENERS[1].port == OBSERVER_PORT;
      ok := true;
    }

    /** The recorder and both listeners, running and answering. */
    method Assemble(opts: Options, base: int) returns (started: seq<Proc>, recorder: Proc, ok: bool)
      requires Tracking([], base, {}) && pidfiles == map[]
      modifies this`alive, this`clock, this`log, this`answered, this`nextPid, this`pidfiles, this`unwritten
      ensures old(nextPid) <= nextPid && forall pid | pid in alive :: pid in old(alive) || base <= pid
      ensures ok ==> unwritten == old(unwritten)
      ensures old(log) <= log
      ensures Tracking(started, base, {}) && (ok ==> Recorded(started)) && (!ok ==> Setback(base))
      ensures ok ==>
        && "app-forward" !in NamesOf(started)
        && (recorder.pid != 0 ==> started != [] && started[0] == recorder && recorder.name == "asciinema"
                                  && base <= recorder.pid && "asciinema" !in NamesOf(started[1..]))
        && Spawned("ttyd-candidate") in log && CANDIDATE_PORT in answered
        && Spawned("ttyd-observer") in log && OBSERVER_PORT in answered
        && (opts.candidateUser != "" ==> Spawned("asciinema") in log && recorder.pid != 0)
    {
      var recorded, ttyds;
      recorded, recorder, ok := StartRecorder(opts, base);
      if !ok {
        started := recorded;
        return;
      }
      started, ttyds, ok := StartListeners(recorded, base);
      if !ok {
        return;
      }
      LaunchNames(recorded, started);
      assert LISTENERS[0].pidName == "ttyd-candidate" && LISTENERS[1].pidName == "ttyd-observer";
      ok := AwaitListeners(ttyds, base);
    }

    /** The recorder and both listeners are up, and the recorder has been looked at again. */
    ghost predicate PartsUp(opts: Options)
      reads this
    {
      && Spawned("ttyd-candidate") in log && 8001 in answered
      && Spawned("ttyd-observer") in log && 8002 in answered
      && (opts.candidateUser != "" ==> RecorderSeen())
    }

    method BringPartsUp(opts: Options, base: int) returns (started: seq<Proc>, ok: bool, unremoved: set<string>)
      requires Tracking([], base, {}) && pidfiles == map[]
      modifies this`alive, this`clock, this`log, this`answered, this`nextPid, this`pidfiles, this`unwritten
      ensures old(nextPid) <= nextPid && forall pid | pid in alive :: pid in old(alive) || base <= pid
      ensures old(log) <= log && Tracking(started, base, unremoved) && (unremoved != {} ==> Trouble in log)
      ensures !ok ==> Setback(base)
      ensures ok ==>
        && unremoved == {} && Recorded(started) && "app-forward" !in NamesOf(started)
        && unwritten == old(unwritten) && PartsUp(opts)
    {
      unremoved := {};
      var recorder;
      started, recorder, ok := Assemble(opts, base);
      if ok {
        started, ok, unremoved := CheckRecorder(opts, started, base, recorder);
      }
    }

    /** Everything past the tmux session gets torn down on failure. */
    method Launch(opts: Options, app: Option<App>, base: int) returns (r: P.StartResult)
      requires Ready(opts, base) && answered == {} && unwritten == {} && tmux
      requires base == nextPid && pidfiles == map[] && Tracking([], base, {})
      modifies this
      ensures old(nextPid) <= nextPid && forall pid | pid in alive :: pid in old(alive) || base <= pid
      ensures LaunchedCleanly(old(info), base, r)
      ensures r.Failed? ==> RollbackExcused(r, base)
      ensures r.Started? ==> Complete(opts, app, base, r)
    {
      var ok := Attempt("pane");                            // share the server, or pipe the pane
      if !ok {
        r := Fail([], base, {});
        return;
      }
      var started, unremoved;
      started, ok, unremoved := BringPartsUp(opts, base);
      if !ok {
        r := Fail(started, base, unremoved);
        return;
      }
      r := Finish(started, base, app, opts.tmuxSocket);
    }

    /** The app forwarder, if the app needs one; it may fail without failing the session. */
    method StartForwarder(tracked: seq<Proc>, base: int, app: Option<App>)
      returns (started: seq<Proc>, port: int, lost: Option<int>)
      requires Tracking(tracked, base, {}) && Recorded(tracked) && "app-forward" !in NamesOf(tracked)
      requires unwritten == {}
      modifies this`alive, this`clock, this`log, this`nextPid, this`pidfiles, this`unwritten
      ensures old(nextPid) <= nextPid && forall pid | pid in alive :: pid in old(alive) || base <= pid
      ensures old(log) <= log && AppServed(app, port)
      ensures Tracking(started, base, {})
      ensures ForwarderLost(app, port, lost) && (lost.Some? ==> base <= lost.value < nextPid)
      ensures forall pid | pid in PidsOf(started) :: pid in P.Pids(pidfiles) || lost == Some(pid)
      ensures forall other | other != "app-forward" && other in old(pidfiles) ::
        other in pidfiles && pidfiles[other] == old(pidfiles)[other]
    {
      started, port, lost := tracked, if app.Some? then APP_PORT else 0, None;
      if app.Some? && app.value.forwarded {
        var p, ok;
        started, p, ok := StartTracked(tracked, base, "app-forward");
        PidsOfMore(tracked, p);
        if !ok {
          port := 0;
          if p.pid != 0 {
            lost := Some(p.pid);
          }
        }
      }
      RecordedPids(tracked);
      RecordedPids(if Recorded(started) then started else []);
    }

    /** lost is the forwarder whose pidfile write failed, the only write of a started session that did. */
    ghost predicate ForwarderLost(app: Option<App>, port: int, lost: Option<int>)
      reads this
    {
      && unwritten == (if lost.Some? then {Proc("app-forward", lost.value)} else {})
      && (lost.Some? ==> app == Some(App(true)) && port == 0 && Trouble in log)
    }

    /** The app forwarder and the session record. */
    method Finish(tracked: seq<Proc>, base: int, app: Option<App>, socket: string) returns (r: P.StartResult)
      requires Tracking(tracked, base, {}) && Recorded(tracked) && "app-forward" !in NamesOf(tracked)
      requires unwritten == {} && tmux
      modifies this`alive, this`clock, this`log, this`nextPid, this`pidfiles, this`tmux, this`info,
               this`unwritten, this`signalled
      ensures old(nextPid) <= nextPid && forall pid | pid in alive :: pid in old(alive) || base <= pid
      ensures LaunchedCleanly(old(info), base, r)
      ensures old(log) <= log
      ensures r.Failed? ==> RollbackExcused(r, base)
      ensures r.Started? ==> Did("session.json") in log && AppServed(app, r.info.appPort) && r.info.socket == socket
      ensures r.Started? ==> ForwarderLost(app, r.info.appPort, r.lost) && tmux
      ensures r.Started? && "asciinema" in old(pidfiles) ==>
        "asciinema" in pidfiles && pidfiles["asciinema"] == old(pidfiles)["asciinema"]
    {
      var started, port, lost := StartForwarder(tracked, base, app);
      var written := Attempt("session.json");
      if !written {
        r := Fail(started, base, {});
        return;
      }
      info := Some(P.Info(socket, port));
      r := P.Started(P.Info(socket, port), lost);
    }

    lemma RecordedPids(started: seq<Proc>)
      requires Recorded(started)
      ensures PidsOf(started) <= P.Pids(pidfiles)
    {
    }

    /** How a launch leaves the processes and pidfiles it made. */
    ghost predicate LaunchedCleanly(before: Option<P.Info>, base: int, r: P.StartResult)
      reads this
    {
      && (forall pid | pid in P.Pids(pidfiles) :: base <= pid < nextPid)
      && nextPid > 0 && (forall pid | pid in alive :: pid < nextPid)
      && match r
         case Refused => false
         case Failed(killFailed, removeFailed) =>
           && info == before && pidfiles.Keys <= removeFailed
           && (forall pid | pid in alive && base <= pid < nextPid :: pid in killFailed)
           && (forall pid | pid in killFailed :: base <= pid < nextPid)
         case Started(i, lost) =>
           && info == Some(i)
           && (lost.Some? ==> base <= lost.value < nextPid && i.appPort == 0)
           && (forall pid | pid in alive && base <= pid < nextPid :: pid in P.Pids(pidfiles) || lost == Some(pid))
    }

    // ------------------------------------------------------------ Stop

    /** Kills every recorded process still running and drops the pidfiles; failures are reported, not fatal. */
    method Stop() returns (r: P.StopResult)
      modifies this
      ensures P.StopStep(old(World()), r, World())
      ensures r.Unread? ==> Trouble in log
      ensures r.Stopped? ==>
        && (forall pid | pid in r.killFailed :: Unkilled(pid) in log)
        && (pidfiles == map[] || Trouble in log)
        && (!tmux || Trouble in log)
      ensures signalled <= P.Pids(old(pidfiles))
    {
      log, signalled := {}, {};
      var live := LivePids();
      if live.None? {
        return P.Unread;
      }
      var killFailed: set<int> := {};
      for i := 0 to |live.value|
        invariant alive <= old(alive) && pidfiles == old(pidfiles) && nextPid == old(nextPid) && info == old(info)
        invariant signalled <= P.Pids(pidfiles)
        invariant killFailed <= P.Pids(pidfiles) && forall pid | pid in killFailed :: Unkilled(pid) in log
        invariant forall pid | pid in alive && pid in P.Pids(pidfiles) ::
          pid in killFailed || exists j | i <= j < |live.value| :: live.value[j].pid == pid
      {
        var p := live.value[i];
        assert p.pid in PidsOf(live.value);
        var killed := Kill(p.pid);
        if !killed {
          killFailed := killFailed + {p.pid};
        }
      }
      var removed := RemovePidsDir();
      KillSession();
      return P.Stopped(killFailed);
    }
  }

  lemma PidsAdd(files: map<string, Option<int>>, name: string, pid: int)
    ensures P.Pids(files[name := None]) <= P.Pids(files)
    ensures P.Pids(files[name := Some(pid)]) <= P.Pids(files) + {pid}
  {
  }

  lemma PidsOfMore(procs: seq<Proc>, p: Proc)
    ensures PidsOf(procs + [p]) == PidsOf(procs) + {p.pid}
    ensures NamesOf(procs + [p]) == NamesOf(procs) + {p.name}
  {
    var more := procs + [p];
    assert forall i | 0 <= i < |procs| :: more[i] == procs[i];
    assert more[|procs|] == p;
  }

  /** Behind the recorder, if any, only the first i listeners are tracked. */
  ghost predicate Behind(tracked: seq<Proc>, started: seq<Proc>, i: nat) {
    && tracked <= started && NamesOf(started[|tracked|..]) <= ListenerNames(i)
    && NamesOf(started) <= {"asciinema"} + ListenerNames(i)
  }

  lemma NextBehind(tracked: seq<Proc>, started: seq<Proc>, i: nat)
    requires i < 2 && Behind(tracked, started, i)
    ensures LISTENERS[i].pidName !in NamesOf(started)
  {
    assert LISTENERS[i].pidName !in {"asciinema"} + ListenerNames(i);
  }

  lemma OneMoreBehind(tracked: seq<Proc>, started: seq<Proc>, p: Proc, i: nat)
    requires i < 2 && Behind(tracked, started, i) && p.name == LISTENERS[i].pidName
    ensures Behind(tracked, started + [p], i + 1)
  {
    PidsOfMore(started, p);
    PidsOfMore(started[|tracked|..], p);
    assert (started + [p])[|tracked|..] == started[|tracked|..] + [p];
  }

  lemma PidsShrink(a: map<string, Option<int>>, b: map<string, Option<int>>)
    requires forall name | name in b :: name in a && b[name] == a[name]
    ensures P.Pids(b) <= P.Pids(a)
  {
  }

  /** Past the listeners, only the first process can be the recorder and none is the forwarder. */
  lemma LaunchNames(recorded: seq<Proc>, started: seq<Proc>)
    requires recorded <= started && |recorded| <= 1 && NamesOf(recorded) <= {"asciinema"}
    requires NamesOf(started[|recorded|..]) <= ListenerNames(2)
    ensures "app-forward" !in NamesOf(started)
    ensures recorded != [] ==> "asciinema" !in NamesOf(started[1..])
  {
    var rest := started[|recorded|..];
    assert started == recorded + rest;
    forall i | 0 <= i < |started|
      ensures started[i].name in NamesOf(recorded) + NamesOf(rest)
    {
      if i < |recorded| {
        assert started[i] == recorded[i];
      } else {
        assert started[i] == rest[i - |recorded|];
      }
    }
  }

  lemma DropFirst(procs: seq<Proc>)
    requires procs != []
    ensures PidsOf(procs) == {procs[0].pid} + PidsOf(procs[1..])
    ensures NamesOf(procs) == {procs[0].name} + NamesOf(procs[1..])
  {
    assert procs == [procs[0]] + procs[1..];
  }
}
