/**
 The session registry and its current-session marker
 (internal/interview/interview.go), and the commands that move it. A file
 operation may fail, leaving the file as it was.
 */
module Marker {
  import opened Wrappers

  /** A record that does not decode still occupies its seed. */
  datatype Rec = Open | Ended | Broken

  datatype World = World(records: map<string, Rec>, marker: Option<string>)

  datatype Found = Session(seed: string) | NoCurrent | Ambiguous

  function OpenSeeds(records: map<string, Rec>): set<string> {
    set s | s in records && records[s].Open?
  }

  predicate Loads(records: map<string, Rec>, seed: string) {
    seed in records && !records[seed].Broken?
  }

  /** The session a command means: the marked one if it loads, or else the only open one. */
  ghost predicate IsCurrent(w: World, f: Found) {
    if w.marker.Some? && w.marker.value != "" && Loads(w.records, w.marker.value) then f == Session(w.marker.value)
    else
      var open := OpenSeeds(w.records);
      match f
      case Session(seed) => open == {seed}
      case NoCurrent => open == {}
      case Ambiguous => |open| > 1
  }

  // ---------------------------------------------------------------- the commands, as a relation

  datatype Done = NotSaved | NotMarked | Marked

  datatype Call =
    | Start(seed: string, done: Done)
    | StartDone(seed: string, saved: bool)            // start's last save, minutes later, of the record it began with
    | Deliver(seed: string, done: Done)
    | End(seed: string, done: Done)                   // NotMarked: the marker could not be cleared
    | Stage(seed: string, reviewed: bool, saved: bool)
    | Remove(seed: string, done: Done)

  ghost predicate Step(w: World, c: Call, w': World) {
    match c
    case Start(s, done) =>
      match done {
        case NotSaved => w' == w
        case NotMarked => w' == w.(records := w.records[s := Open])
        case Marked => w' == World(w.records[s := Open], Some(s))
      }
    case StartDone(s, saved) => w' == if saved then w.(records := w.records[s := Open]) else w
    case Deliver(s, done) =>
      var saved := w.(records := w.records[s := Open]);
      (match done
       case NotSaved => w' == w
       case NotMarked => w' == saved && !Busy(saved, s)
       case Marked => w' == if Busy(saved, s) then saved else saved.(marker := Some(s)))
    case End(s, done) =>
      var saved := w.(records := w.records[s := Ended]);
      Loads(w.records, s) &&
      (match done
       case NotSaved => w' == w
       case NotMarked => w' == saved && w.marker == Some(s)
       case Marked => w' == if w.marker == Some(s) then saved.(marker := None) else saved)
    case Stage(s, reviewed, saved) =>
      && Loads(w.records, s)
      && w' == if saved && reviewed then w.(records := w.records[s := Ended]) else w
    case Remove(s, done) =>
      var gone := w.(records := w.records - {s});
      (match done
       case NotSaved => w' == w
       case NotMarked => w' == gone && w.marker == Some(s)
       case Marked => w' == if w.marker == Some(s) then gone.(marker := None) else gone)
  }

  /** Another session, an open one, is current: SetCurrentIfIdle leaves it there. */
  ghost predicate Busy(w: World, seed: string) {
    exists cur :: IsCurrent(w, Session(cur)) && cur != seed && cur in w.records && w.records[cur].Open?
  }

  // ---------------------------------------------------------------- one call

  lemma CurrentIsUnique(w: World, f: Found, g: Found)
    requires IsCurrent(w, f) && IsCurrent(w, g)
    ensures f == g
  {
  }

  /** While the marker names an open session, nothing but another start, its own end or removal moves it. */
  lemma MarkedStaysCurrent(w: World, c: Call, w': World)
    requires Step(w, c, w')
    requires w.marker.Some? && w.marker.value in w.records && w.records[w.marker.value].Open? && w.marker.value != ""
    ensures IsCurrent(w, Session(w.marker.value))
    ensures w'.marker == w.marker <==>
      match c
      case Start(s, done) => done.Marked? ==> s == w.marker.value
      case End(s, done) => done.Marked? ==> s != w.marker.value
      case Remove(s, done) => done.Marked? ==> s != w.marker.value
      case _ => true
    ensures w'.marker == w.marker && !(c.Remove? && c.seed == w.marker.value && !c.done.NotSaved?) ==>
      IsCurrent(w', Session(w.marker.value))
  {
    if c.Deliver? && c.seed != w.marker.value {
      assert IsCurrent(w.(records := w.records[c.seed := Open]), Session(w.marker.value));
    }
  }

  /** Delivering beside the current open session keeps it current exactly when the marker names it. */
  lemma DeliverTakesOver(w: World, c: Call, w': World, cur: string)
    requires Step(w, c, w') && c.Deliver? && !c.done.NotSaved?
    requires IsCurrent(w, Session(cur)) && cur in w.records && w.records[cur].Open? && c.seed != cur && cur != ""
    ensures IsCurrent(w', Session(cur)) <==> w.marker == Some(cur)
  {
    var saved := w.(records := w.records[c.seed := Open]);
    if w.marker == Some(cur) {
      assert IsCurrent(saved, Session(cur));
    } else {
      assert cur in OpenSeeds(saved.records) && c.seed in OpenSeeds(saved.records);
    }
  }

  /** With no marker, a deliver beside the only open session makes its own seed current. */
  lemma UnmarkedSessionIsLost(w: World, w': World)
    requires w == World(map["live" := Open], None)
    requires Step(w, Deliver("next", Marked), w')
    ensures IsCurrent(w, Session("live")) && IsCurrent(w', Session("next"))
  {
    var saved := w.(records := w.records["next" := Open]);
    assert OpenSeeds(w.records) == {"live"};
    assert "live" in OpenSeeds(saved.records) && "next" in OpenSeeds(saved.records);
  }

  /** A review closes a session and leaves the marker alone, so it stays current exactly when it was the marked one. */
  lemma ReviewedStaysCurrent(w: World, w': World, seed: string)
    requires seed != "" && Step(w, Stage(seed, true, true), w')
    ensures w'.records[seed].Ended? && (IsCurrent(w', Session(seed)) <==> w.marker == Some(seed))
  {
  }

  /** As for a take-home marked current when its review is in. */
  lemma ReviewedTakeHome(w: World, w': World)
    requires w == World(map["take-home" := Open], Some("take-home"))
    requires Step(w, Stage("take-home", true, true), w')
    ensures w' == World(map["take-home" := Ended], Some("take-home")) && IsCurrent(w', Session("take-home"))
  {
    ReviewedStaysCurrent(w, w', "take-home");
  }

  /** A removed session has no record and no marker, and is not current. */
  lemma RemovedIsForgotten(w: World, w': World, seed: string)
    requires seed != "" && Step(w, Remove(seed, Marked), w')
    ensures seed !in w'.records && w'.marker != Some(seed) && !IsCurrent(w', Session(seed))
    ensures forall other | other != seed && other in w.records ::
      other in w'.records && w'.records[other] == w.records[other]
  {
    assert seed !in OpenSeeds(w'.records);
  }

  /** A marker on a record that does not decode is no marker: the only open session is current. */
  lemma BrokenMarkIsNoMark(w: World, seed: string)
    requires w.marker.Some? && w.marker.value in w.records && w.records[w.marker.value] == Broken
    ensures IsCurrent(w, Session(seed)) <==> OpenSeeds(w.records) == {seed}
  {
  }

  /** Without a marked session that loads, Current resolves exactly when one session is open. */
  lemma FallbackNeedsOneOpen(w: World)
    requires w.marker.None? || w.marker.value == "" || !Loads(w.records, w.marker.value)
    ensures (exists seed :: IsCurrent(w, Session(seed))) <==> |OpenSeeds(w.records)| == 1
  {
    var open := OpenSeeds(w.records);
    if |open| == 1 {
      var seed :| seed in open;
      assert open - {seed} == {} by {
        assert |open - {seed}| == 0;
      }
      assert open == {seed};
      assert IsCurrent(w, Session(seed));
    }
  }

  // ---------------------------------------------------------------- runs

  ghost predicate IsRun(run: seq<World>, calls: seq<Call>) {
    |run| == |calls| + 1 && forall n | 0 <= n < |calls| :: Step(run[n], calls[n], run[n + 1])
  }

  /** A call that writes an open record for a seed. */
  predicate Reuses(c: Call, seed: string) {
    (c.Start? || c.StartDone? || c.Deliver?) && c.seed == seed
  }

  /** A start still building saves its record again at the end, reopening a session ended meanwhile. */
  lemma LateStartReopens(run: seq<World>, calls: seq<Call>)
    requires IsRun(run, calls) && run[0] == World(map[], None)
    requires calls == [Start("s", Marked), End("s", Marked), StartDone("s", true)]
    ensures !IsCurrent(run[2], Session("s")) && IsCurrent(run[3], Session("s"))
  {
    assert Step(run[0], calls[0], run[1]) && Step(run[1], calls[1], run[2]) && Step(run[2], calls[2], run[3]);
    assert run[2] == World(map["s" := Ended], None) && run[3] == World(map["s" := Open], None);
    assert OpenSeeds(run[2].records) == {} && OpenSeeds(run[3].records) == {"s"};
  }

  /** An ended session reopened like that is current again exactly when no session is marked and none other is open. */
  lemma ReopenedIsCurrent(w: World, w': World, seed: string)
    requires seed in w.records && w.records[seed].Ended? && w.marker != Some(seed)
    requires Step(w, StartDone(seed, true), w')
    ensures IsCurrent(w', Session(seed)) <==>
      && (w.marker.None? || w.marker.value == "" || !Loads(w.records, w.marker.value))
      && OpenSeeds(w.records) == {}
  {
    assert OpenSeeds(w'.records) == OpenSeeds(w.records) + {seed};
    assert seed !in OpenSeeds(w.records);
  }

  /** Over every run, a session closed by end is never current again unless an open record is written for its seed. */
  lemma {:induction false} EndedStaysGone(run: seq<World>, calls: seq<Call>, seed: string, m: nat, n: nat)
    requires IsRun(run, calls) && m < n <= |calls| && calls[m] == End(seed, Marked)
    requires forall k | m < k < n :: !Reuses(calls[k], seed)
    ensures run[n].marker != Some(seed) && !(seed in run[n].records && run[n].records[seed].Open?)
    ensures !IsCurrent(run[n], Session(seed))
  {
    if n == m + 1 {
      assert Step(run[m], calls[m], run[m + 1]);
    } else {
      EndedStaysGone(run, calls, seed, m, n - 1);
      assert Step(run[n - 1], calls[n - 1], run[n]);
      assert !Reuses(calls[n - 1], seed);
    }
    assert seed !in OpenSeeds(run[n].records);
  }

  /** Calls that leave the marker on an open session that holds it. */
  predicate Spares(c: Call, seed: string) {
    match c
    case Start(s, done) => done.Marked? ==> s == seed
    case End(s, done) => s != seed
    case Remove(s, done) => s != seed
    case Stage(s, reviewed, saved) => !(s == seed && reviewed)
    case StartDone(_, _) => true
    case Deliver(_, _) => true
  }

  /** Over every run, a started session stays current until ended, reviewed or removed, or another start is run. */
  lemma {:induction false} StartedStaysCurrent(run: seq<World>, calls: seq<Call>, seed: string, m: nat, n: nat)
    requires IsRun(run, calls) && m < n <= |calls| && calls[m] == Start(seed, Marked) && seed != ""
    requires forall k | m < k < n :: Spares(calls[k], seed)
    ensures run[n].marker == Some(seed) && seed in run[n].records && run[n].records[seed].Open?
    ensures IsCurrent(run[n], Session(seed))
  {
    if n == m + 1 {
      assert Step(run[m], calls[m], run[m + 1]);
    } else {
      StartedStaysCurrent(run, calls, seed, m, n - 1);
      assert Step(run[n - 1], calls[n - 1], run[n]);
      assert Spares(calls[n - 1], seed);
      MarkedStaysCurrent(run[n - 1], calls[n - 1], run[n]);
    }
  }

  // ---------------------------------------------------------------- the registry and its commands

  class Home {
    var records: map<string, Rec>
    var marker: Option<string>
    var failed: bool

    constructor (w: World)
      ensures Snapshot() == w && !failed
    {
      records, marker, failed := w.records, w.marker, false;
    }

    function Snapshot(): World
      reads this
    {
      World(records, marker)
    }

    method Attempt() returns (ok: bool)
      modifies this`failed
      ensures failed == (old(failed) || !ok)
    {
      ok := *;
      failed := failed || !ok;
    }

    /** Writes one record; the marker is the caller's business. */
    method Save(seed: string, r: Rec) returns (ok: bool)
      modifies this`records, this`failed
      ensures failed == (old(failed) || !ok)
      ensures records == if ok then old(records)[seed := r] else old(records)
    {
      ok := Attempt();
      if ok {
        records := records[seed := r];
      }
    }

    method SetCurrent(seed: string) returns (ok: bool)
      modifies this`marker, this`failed
      ensures failed == (old(failed) || !ok)
      ensures marker == if ok then Some(seed) else old(marker)
    {
      ok := Attempt();
      if ok {
        marker := Some(seed);
      }
    }

    /** The open sessions, listed. */
    method ListOpen() returns (live: seq<string>)
      ensures |live| == |OpenSeeds(records)| && forall s :: s in live <==> s in OpenSeeds(records)
    {
      live := [];
      var rest := OpenSeeds(records);
      while rest != {}
        invariant rest <= OpenSeeds(records) && |live| + |rest| == |OpenSeeds(records)|
        invariant forall s :: s in live <==> s in OpenSeeds(records) - rest
        decreases rest
      {
        var s :| s in rest;
        rest := rest - {s};
        live := live + [s];
      }
    }

    /** The last one started, or the only open one when the marker is gone. */
    method Current() returns (f: Found)
      ensures IsCurrent(Snapshot(), f)
    {
      if marker.Some? && marker.value != "" && Loads(records, marker.value) {
        return Session(marker.value);
      }
      var live := ListOpen();
      if |live| == 0 {
        assert OpenSeeds(records) == {};
        return NoCurrent;
      }
      if |live| == 1 {
        assert live[0] in OpenSeeds(records);
        assert OpenSeeds(records) - {live[0]} == {} by {
          assert |OpenSeeds(records) - {live[0]}| == 0;
        }
        assert OpenSeeds(records) == {live[0]};
        return Session(live[0]);
      }
      return Ambiguous;
    }

    /** Leaves the marker where it is while another open session is current. */
    method SetCurrentIfIdle(seed: string) returns (ok: bool)
      modifies this`marker, this`failed
      ensures failed == (old(failed) || !ok)
      ensures marker == if ok && !Busy(old(Snapshot()), seed) then Some(seed) else old(marker)
      ensures !ok ==> !Busy(old(Snapshot()), seed)
    {
      var f := Current();
      if f.Session? && f.seed != seed && f.seed in records && records[f.seed].Open? {
        return true;
      }
      if Busy(Snapshot(), seed) {
        var cur :| IsCurrent(Snapshot(), Session(cur)) && cur != seed && cur in records && records[cur].Open?;
        CurrentIsUnique(Snapshot(), f, Session(cur));
        assert false;
      }
      ok := SetCurrent(seed);
    }

    /** Drops the marker if it names seed. */
    method ClearCurrent(seed: string) returns (ok: bool)
      modifies this`marker, this`failed
      ensures failed == (old(failed) || !ok)
      ensures marker == if ok && old(marker) == Some(seed) then None else old(marker)
      ensures !ok ==> old(marker) == Some(seed)
    {
      if marker != Some(seed) {
        return true;
      }
      ok := Attempt();
      if ok {
        marker := None;
      }
    }

    /** Forgets a session, and the marker with it. */
    method RemoveSession(seed: string) returns (done: Done)
      modifies this
      ensures Step(old(Snapshot()), Remove(seed, done), Snapshot())
      ensures !done.Marked? ==> failed
    {
      var ok := Attempt();
      if !ok {
        return NotSaved;
      }
      records := records - {seed};
      ok := ClearCurrent(seed);
      return if ok then Marked else NotMarked;
    }

    /** start records the session, then makes it the one every unqualified command means. */
    method StartSession(seed: string) returns (done: Done)
      modifies this
      ensures Step(old(Snapshot()), Start(seed, done), Snapshot())
      ensures !done.Marked? ==> failed
    {
      var ok := Save(seed, Open);
      if !ok {
        return NotSaved;
      }
      ok := SetCurrent(seed);
      return if ok then Marked else NotMarked;
    }

    /** ... and saves the record once more when the session is up, whatever happened to it meanwhile. */
    method FinishStart(seed: string) returns (saved: bool)
      modifies this
      ensures Step(old(Snapshot()), StartDone(seed, saved), Snapshot())
      ensures !saved ==> failed
    {
      saved := Save(seed, Open);
    }

    /** A drop is recorded; it becomes current only if nothing open is. */
    method DeliverSession(seed: string) returns (done: Done)
      modifies this
      ensures Step(old(Snapshot()), Deliver(seed, done), Snapshot())
      ensures !done.Marked? ==> failed
    {
      var ok := Save(seed, Open);
      if !ok {
        return NotSaved;
      }
      ok := SetCurrentIfIdle(seed);
      return if ok then Marked else NotMarked;
    }

    /** end closes the record of a session that was found, then lets go of the marker. */
    method EndSession(seed: string) returns (done: Done)
      requires Loads(records, seed)
      modifies this
      ensures Step(old(Snapshot()), End(seed, done), Snapshot())
      ensures !done.Marked? ==> failed
    {
      var ok := Save(seed, Ended);
      if !ok {
        return NotSaved;
      }
      ok := ClearCurrent(seed);
      return if ok then Marked else NotMarked;
    }

    /** sent, returned, reviewed: the stage is saved; a review is the end of an offline interview. */
    method StageSession(seed: string, reviewed: bool) returns (saved: bool)
      requires Loads(records, seed)
      modifies this
      ensures Step(old(Snapshot()), Stage(seed, reviewed, saved), Snapshot())
      ensures !saved ==> failed
    {
      saved := Save(seed, if reviewed then Ended else records[seed]);
    }
  }
}
