/**
 Which environment a command acts on (internal/cli/common.go): the seed it
 means, the directory it looks in, and the variant it finds recorded there.
 A machine is its problems, its session records and its workdirs.
 */
module Commands {
  import opened Wrappers
  import opened Order
  import opened Decimal
  import opened Variants
  import opened Target
  import E = Encoding
  import M = Marker

  /** A session record that loads, as far as commands read it. */
  datatype Record = Record(problem: string, workdir: string)

  /**
   problems: None when the content root does not open. states: the overrides of
   every state file that loads, by workdir. cache: the user's cache directory.
   current: what the session marker answers.
   */
  datatype Machine = Machine(
    rng: Rng,
    digest: string -> string,
    cache: Option<string>,
    problems: Option<map<string, Specs>>,
    sessions: map<string, Record>,
    states: map<string, Overrides>,
    current: M.Found)

  /** A command line: the problem, --seed, --workdir and the --set values; an empty flag was not given. */
  datatype Command = Command(problem: string, seed: string, workdir: string, sets: seq<string>)

  datatype Place = Place(seed: string, workdir: string)

  datatype Answer =
    | NoSession | BadSet | NoRegistry | NoProblem | OtherSession | NoCache
    | Stopped(found: Found)
    | Acts(v: Variant, warned: bool, at: Place)

  // ---------------------------------------------------------------- where a command looks

  /** The current session, if there is one, has a record that loads. */
  ghost predicate Consistent(m: Machine) {
    m.current.Session? ==> m.current.seed in m.sessions && m.current.seed != ""
  }

  /** The seed named or current, and the workdir given or else recorded; an empty one is still to be derived. */
  function Placed(m: Machine, c: Command): Option<Place> {
    var seed := if c.seed != "" then c.seed else if m.current.Session? then m.current.seed else "";
    if seed == "" then None
    else if c.workdir == "" && seed in m.sessions then Some(Place(seed, m.sessions[seed].workdir))
    else Some(Place(seed, c.workdir))
  }

  method ResolveTarget(m: Machine, c: Command) returns (at: Option<Place>)
    requires Consistent(m)
    ensures at == Placed(m, c)
  {
    if c.seed == "" {
      if !m.current.Session? {
        return None;
      }
      var s := m.sessions[m.current.seed];
      return Some(Place(m.current.seed, if c.workdir == "" then s.workdir else c.workdir));
    }
    var workdir := c.workdir;
    if workdir == "" && c.seed in m.sessions {
      workdir := m.sessions[c.seed].workdir;
    }
    return Some(Place(c.seed, workdir));
  }

  /** A directory of its own for every environment name. */
  function DefaultWorkdir(m: Machine, v: Variant): Option<string> {
    if m.cache.None? then None else Some(m.cache.value + "/interviews/" + EnvNameOf(v, m.digest))
  }

  function RecordedIn(m: Machine, workdir: string): Overrides {
    if workdir in m.states then m.states[workdir] else map[]
  }

  // ---------------------------------------------------------------- what it acts on

  predicate NamesOtherSession(m: Machine, seed: string, problem: string) {
    seed in m.sessions && m.sessions[seed].problem != "" && m.sessions[seed].problem != problem
  }

  /** The directory a command looks in: the one it has, or the one its given overrides alone derive. */
  function LooksIn(m: Machine, specs: Specs, problem: string, at: Place, given: Overrides): Option<string> {
    if at.workdir != "" then Some(at.workdir)
    else match Resolved(m.rng, problem, specs, at.seed, given)
      case Ok(alone) => DefaultWorkdir(m, alone)
      case _ => None
  }

  /** The directory comes from the given overrides alone; what is recorded there is layered under them. */
  function ActsOn(m: Machine, specs: Specs, problem: string, at: Place, given: Overrides): (r: Answer)
    ensures r.Acts? || r == NoCache || r.Stopped?
  {
    match Resolved(m.rng, problem, specs, at.seed, given)
    case Failed(why) => Stopped(Unresolved(why))
    case Panicked => Stopped(Crashed)
    case Ok(_) =>
      var workdir := LooksIn(m, specs, problem, at, given);
      if workdir.None? then NoCache
      else
        match Targeted(m.rng, problem, specs, at.seed, RecordedIn(m, workdir.value), given)
        case Acting(v, warned) => Acts(v, warned, Place(at.seed, workdir.value))
        case found => Stopped(found)
  }

  function Answered(m: Machine, c: Command): Answer {
    var at := Placed(m, c);
    var given := Parsed(c.sets, |c.sets|);
    if at.None? then NoSession
    else if given.None? then BadSet
    else if m.problems.None? then NoRegistry
    else if c.problem !in m.problems.value then NoProblem
    else if NamesOtherSession(m, at.value.seed, c.problem) then OtherSession
    else ActsOn(m, m.problems.value[c.problem], c.problem, at.value, given.value)
  }

  method ResolveProblem(m: Machine, c: Command) returns (r: Answer)
    requires Consistent(m)
    ensures r == Answered(m, c)
  {
    var target := ResolveTarget(m, c);
    if target.None? {
      return NoSession;
    }
    var seed, workdir := target.value.seed, target.value.workdir;
    var given := ParseOverrides(c.sets);
    if given.None? {
      return BadSet;
    }
    if m.problems.None? {
      return NoRegistry;
    }
    if c.problem !in m.problems.value {
      return NoProblem;
    }
    if seed in m.sessions {
      var rec := m.sessions[seed];
      if rec.problem != "" && rec.problem != c.problem {
        return OtherSession;
      }
    }
    var specs := m.problems.value[c.problem];
    var resolved := Resolve(m.rng, c.problem, specs, seed, given.value);
    if resolved.Failed? {
      return Stopped(Unresolved(resolved.why));
    }
    if resolved.Panicked? {
      return Stopped(Crashed);
    }
    if workdir == "" {
      if m.cache.None? {
        return NoCache;
      }
      var name := EnvName(resolved.value, m.digest);
      workdir := m.cache.value + "/interviews/" + name;
    }
    var recorded := if workdir in m.states then m.states[workdir] else map[];
    var found := LayerOverrides(m.rng, c.problem, specs, seed, resolved.value, recorded, given.value);
    r := if found.Acting? then Acts(found.v, found.warned, Place(seed, workdir)) else Stopped(found);
  }

  /**
   Where a command acts: the seed given, or else the current session's; the
   directory given, or else the one recorded with that seed, or else the one
   derived from the given overrides alone.
   */
  lemma ActsWhereTold(m: Machine, c: Command)
    requires Answered(m, c).Acts?
    ensures var r := Answered(m, c);
            var recorded := if r.at.seed in m.sessions then m.sessions[r.at.seed].workdir else "";
            && (c.seed != "" ==> r.at.seed == c.seed)
            && (c.seed == "" ==> m.current == M.Session(r.at.seed))
            && (c.workdir != "" ==> r.at.workdir == c.workdir)
            && (c.workdir == "" && recorded != "" ==> r.at.workdir == recorded)
            && (c.workdir == "" && recorded == "" ==>
                  var alone := Resolved(m.rng, c.problem, m.problems.value[c.problem], r.at.seed,
                                        Parsed(c.sets, |c.sets|).value);
                  && alone.Ok? && m.cache.Some?
                  && r.at.workdir == m.cache.value + "/interviews/" + EnvNameOf(alone.value, m.digest))
  {
  }

  /**
   What it acts on: the problem named, for that seed, layered from what the
   state file there records and the --set values given; or, with a warning,
   the given values alone.
   */
  lemma ActsOnWhatIsRecorded(m: Machine, c: Command)
    requires Answered(m, c).Acts?
    ensures var r := Answered(m, c);
            var given := Parsed(c.sets, |c.sets|).value;
            var recorded := if r.at.workdir in m.states then m.states[r.at.workdir] else map[];
            var specs := m.problems.value[c.problem];
            && r.v.problem == c.problem && r.v.interview == r.at.seed
            && Resolved(m.rng, c.problem, specs, r.at.seed, if r.warned then given else recorded + given) == Ok(r.v)
            && (r.warned ==> Resolved(m.rng, c.problem, specs, r.at.seed, recorded + given).Failed?)
  {
    var r := Answered(m, c);
    ActedOverrides(m, m.problems.value[c.problem], c.problem, Placed(m, c).value, Parsed(c.sets, |c.sets|).value);
    ResolvedMeans(m.rng, c.problem, m.problems.value[c.problem], r.at.seed, r.v.overrides);
  }

  /** When it refuses for want of a session. */
  lemma NoSessionMeans(m: Machine, c: Command)
    requires Consistent(m)
    ensures Answered(m, c) == NoSession <==> c.seed == "" && !m.current.Session?
  {
  }

  /** ... and over a --set value that is not name=value. */
  lemma BadSetMeans(m: Machine, c: Command)
    requires Consistent(m) && (c.seed != "" || m.current.Session?)
    ensures Answered(m, c) == BadSet <==> exists i | 0 <= i < |c.sets| :: Cut(c.sets[i]).None?
  {
    SetsParse(c.sets);
  }

  lemma SetsParse(sets: seq<string>)
    ensures Parsed(sets, |sets|).None? <==> exists i | 0 <= i < |sets| :: Cut(sets[i]).None?
  {
    LastPairWins(sets, |sets|, "");
  }

  /** Past those, when it refuses over the problem, and when it goes on to resolve. */
  lemma LateRefusals(m: Machine, c: Command, at: Place)
    requires Placed(m, c) == Some(at) && Parsed(c.sets, |c.sets|).Some?
    ensures var r := Answered(m, c);
            var known := m.problems.Some? && c.problem in m.problems.value;
            var other := at.seed in m.sessions && m.sessions[at.seed].problem !in {"", c.problem};
            && (r == NoRegistry <==> m.problems.None?)
            && (r == NoProblem <==> m.problems.Some? && !known)
            && (r == OtherSession <==> known && other)
  {
    assert NamesOtherSession(m, at.seed, c.problem) <==>
      at.seed in m.sessions && m.sessions[at.seed].problem !in {"", c.problem};
  }

  /** Past the refusals it stops exactly when the given overrides alone do not resolve, or for want of a cache. */
  lemma StopsMean(m: Machine, c: Command, specs: Specs, at: Place, given: Overrides)
    requires Placed(m, c) == Some(at) && Parsed(c.sets, |c.sets|) == Some(given)
    requires m.problems.Some? && c.problem in m.problems.value && m.problems.value[c.problem] == specs
    requires !NamesOtherSession(m, at.seed, c.problem)
    ensures Answered(m, c).Stopped? <==> !Resolved(m.rng, c.problem, specs, at.seed, given).Ok?
    ensures Answered(m, c) == NoCache <==>
      Resolved(m.rng, c.problem, specs, at.seed, given).Ok? && at.workdir == "" && m.cache.None?
  {
    var workdir := LooksIn(m, specs, c.problem, at, given);
    if Resolved(m.rng, c.problem, specs, at.seed, given).Ok? && workdir.Some? {
      MergedNeverPanics(m.rng, c.problem, specs, at.seed, RecordedIn(m, workdir.value), given);
    }
  }

  // ---------------------------------------------------------------- finding an environment again

  /** A command line that gets as far as resolving its problem for a seed. */
  ghost predicate Reaches(m: Machine, c: Command, specs: Specs, at: Place) {
    && Placed(m, c) == Some(at)
    && m.problems.Some? && c.problem in m.problems.value && m.problems.value[c.problem] == specs
    && !NamesOtherSession(m, at.seed, c.problem)
  }

  /** The environment built for a problem and seed with these overrides, its state file in this directory. */
  ghost predicate BuiltIn(m: Machine, specs: Specs, problem: string, seed: string, overrides: Overrides,
                          workdir: string) {
    && Resolved(m.rng, problem, specs, seed, overrides).Ok?
    && workdir != "" && workdir in m.states && m.states[workdir] == overrides
  }

  /**
   With no --set, a later command acts on exactly the variant an environment
   was built with, in its directory, when and only when the problem resolves
   without overrides and the command looks there: given or recorded as that
   directory, or, with neither, deriving that very name.
   */
  lemma LaterCommandsSeeTheVariant(m: Machine, c: Command, specs: Specs, at: Place, overrides: Overrides,
                                   workdir: string)
    requires Reaches(m, c, specs, at) && c.sets == []
    requires BuiltIn(m, specs, c.problem, at.seed, overrides, workdir)
    ensures var built := Resolved(m.rng, c.problem, specs, at.seed, overrides).value;
            Answered(m, c) == Acts(built, false, Place(at.seed, workdir)) <==>
              && Resolved(m.rng, c.problem, specs, at.seed, map[]).Ok?
              && LooksIn(m, specs, c.problem, at, map[]) == Some(workdir)
    ensures ValidSpecs(specs) ==>
      (Resolved(m.rng, c.problem, specs, at.seed, map[]).Ok? <==>
       forall name | name in specs :: !Overflows(specs[name]))
  {
    Reached(m, c, specs, at);
    WithoutFlags(m, specs, c.problem, at, overrides, workdir);
    if ValidSpecs(specs) {
      ResolveSucceeds(m.rng, c.problem, specs, at.seed, map[]);
    }
  }

  lemma Reached(m: Machine, c: Command, specs: Specs, at: Place)
    requires Reaches(m, c, specs, at) && c.sets == []
    ensures Answered(m, c) == ActsOn(m, specs, c.problem, at, map[])
  {
    assert Parsed(c.sets, |c.sets|) == Some(map[]);
  }

  lemma WithoutFlags(m: Machine, specs: Specs, problem: string, at: Place, overrides: Overrides, workdir: string)
    requires BuiltIn(m, specs, problem, at.seed, overrides, workdir)
    ensures var built := Resolved(m.rng, problem, specs, at.seed, overrides).value;
            ActsOn(m, specs, problem, at, map[]) == Acts(built, false, Place(at.seed, workdir)) <==>
              && Resolved(m.rng, problem, specs, at.seed, map[]).Ok?
              && LooksIn(m, specs, problem, at, map[]) == Some(workdir)
  {
    assert overrides + map[] == overrides;
    if ActsOn(m, specs, problem, at, map[]).Acts? {
      ActedOverrides(m, specs, problem, at, map[]);
    }
    if Resolved(m.rng, problem, specs, at.seed, map[]).Ok? && LooksIn(m, specs, problem, at, map[]) == Some(workdir) {
      ActsFrom(m, specs, problem, at, map[], workdir, Resolved(m.rng, problem, specs, at.seed, overrides).value);
    }
  }

  lemma SameEnding(front: string, a: string, b: string)
    ensures front + a == front + b <==> a == b
  {
    assert (front + a)[|front|..] == a && (front + b)[|front|..] == b;
  }

  /**
   Deriving finds a directory derived for other overrides exactly when the
   digests of the two environments coincide; with digests that differ on
   different bytes, exactly when the overrides changed no parameter.
   */
  lemma DerivedNamesCoincide(m: Machine, specs: Specs, problem: string, seed: string, overrides: Overrides)
    requires ValidSpecs(specs) && m.cache.Some?
    requires Resolved(m.rng, problem, specs, seed, map[]).Ok? && Resolved(m.rng, problem, specs, seed, overrides).Ok?
    ensures var alone := Resolved(m.rng, problem, specs, seed, map[]).value;
            var built := Resolved(m.rng, problem, specs, seed, overrides).value;
            var a, b := E.Encode(EnvParts(alone)), E.Encode(EnvParts(built));
            && (DefaultWorkdir(m, alone) == DefaultWorkdir(m, built) <==> m.digest(a) == m.digest(b))
            && (E.AllShort(EnvParts(alone)) && E.AllShort(EnvParts(built))
                && (m.digest(a) == m.digest(b) ==> a == b) ==>
                  (DefaultWorkdir(m, alone) == DefaultWorkdir(m, built) <==> alone.params == built.params))
  {
    var alone := Resolved(m.rng, problem, specs, seed, map[]).value;
    var built := Resolved(m.rng, problem, specs, seed, overrides).value;
    var short := problem[..if |problem| > 20 then 20 else |problem|];
    var a, b := m.digest(E.Encode(EnvParts(alone))), m.digest(E.Encode(EnvParts(built)));
    ResolvedMeans(m.rng, problem, specs, seed, map[]);
    ResolvedMeans(m.rng, problem, specs, seed, overrides);
    SameEnding("iv-" + short + "-", a, b);
    SameEnding(m.cache.value + "/interviews/", EnvNameOf(alone, m.digest), EnvNameOf(built, m.digest));
    if E.AllShort(EnvParts(alone)) && E.AllShort(EnvParts(built)) {
      SameEnvBytesSameParams(m.rng, specs, problem, seed, map[], problem, seed, overrides);
    }
  }

  /** The machine once an environment a command acted on has been brought up, its state file recording the overrides. */
  function BroughtUp(m: Machine, v: Variant, workdir: string): Machine {
    m.(states := m.states[workdir := v.overrides])
  }

  lemma ActedOverrides(m: Machine, specs: Specs, problem: string, at: Place, given: Overrides)
    requires ActsOn(m, specs, problem, at, given).Acts?
    ensures var r := ActsOn(m, specs, problem, at, given);
            && r.at.seed == at.seed && LooksIn(m, specs, problem, at, given) == Some(r.at.workdir)
            && r.v.overrides == (if r.warned then given else RecordedIn(m, r.at.workdir) + given)
            && Resolved(m.rng, problem, specs, at.seed, r.v.overrides) == Ok(r.v)
            && Resolved(m.rng, problem, specs, at.seed, given).Ok?
  {
  }

  lemma ActsFrom(m: Machine, specs: Specs, problem: string, at: Place, given: Overrides, workdir: string, v: Variant)
    requires Resolved(m.rng, problem, specs, at.seed, given).Ok?
    requires LooksIn(m, specs, problem, at, given) == Some(workdir)
    requires Resolved(m.rng, problem, specs, at.seed, RecordedIn(m, workdir) + given) == Ok(v)
    ensures ActsOn(m, specs, problem, at, given) == Acts(v, false, Place(at.seed, workdir))
  {
  }

  lemma AgainThere(m: Machine, specs: Specs, problem: string, at: Place, given: Overrides)
    requires ActsOn(m, specs, problem, at, given).Acts?
    ensures var r := ActsOn(m, specs, problem, at, given);
            ActsOn(BroughtUp(m, r.v, r.at.workdir), specs, problem, at, given) == r.(warned := false)
  {
    var r := ActsOn(m, specs, problem, at, given);
    var m' := BroughtUp(m, r.v, r.at.workdir);
    ActedOverrides(m, specs, problem, at, given);
    LayeredTwice(RecordedIn(m, r.at.workdir), given);
    ActsFrom(m', specs, problem, at, given, r.at.workdir, r.v);
  }

  lemma LayeredTwice(recorded: Overrides, given: Overrides)
    ensures recorded + given + given == recorded + given
    ensures given + given == given
  {
  }

  /** The same command line again acts on the variant just built, in the same place. */
  lemma SameCommandAgain(m: Machine, c: Command)
    requires Answered(m, c).Acts?
    ensures var r := Answered(m, c);
            Answered(BroughtUp(m, r.v, r.at.workdir), c) == r.(warned := false)
  {
    AgainThere(m, m.problems.value[c.problem], c.problem, Placed(m, c).value, Parsed(c.sets, |c.sets|).value);
  }

  /** start records the session: its problem, and the directory its environment is in. */
  function Started(m: Machine, problem: string, v: Variant, at: Place): Machine {
    BroughtUp(m, v, at.workdir).(sessions := m.sessions[at.seed := Record(problem, at.workdir)])
  }

  /** So without flags a later command for that seed finds what was built, whatever was overridden. */
  lemma StartedSessionsAreFound(m: Machine, c: Command, later: Command)
    requires Answered(m, c).Acts? && Answered(m, c).at.workdir != ""
    requires later == Command(c.problem, Answered(m, c).at.seed, "", []) && later.seed != ""
    ensures var r := Answered(m, c);
            Answered(Started(m, c.problem, r.v, r.at), later) == r.(warned := false) <==>
              Resolved(m.rng, c.problem, m.problems.value[c.problem], r.at.seed, map[]).Ok?
  {
    var r := Answered(m, c);
    var specs := m.problems.value[c.problem];
    var m' := Started(m, c.problem, r.v, r.at);
    ActedOverrides(m, specs, c.problem, Placed(m, c).value, Parsed(c.sets, |c.sets|).value);
    assert Reaches(m', later, specs, r.at);
    assert BuiltIn(m', specs, c.problem, r.at.seed, r.v.overrides, r.at.workdir);
    LaterCommandsSeeTheVariant(m', later, specs, r.at, r.v.overrides, r.at.workdir);
  }

  // ---------------------------------------------------------------- two command lines that go wrong

  const PORT_80: seq<string> := ["port=80"]
  const PINNED: Overrides := map["port" := "80"]

  lemma PortParsed(sets: seq<string>)
    requires sets == PORT_80
    ensures Parsed(sets, |sets|) == Some(PINNED)
  {
    CutJoined("port", "80");
    assert "port" + "=" + "80" == "port=80";
    assert Parsed(sets, 0) == Some(map[]);
  }

  lemma TwoDigits()
    ensures Print(80) == "80" && Print(10) == "10" && Atoi("80") == Some(80)
  {
    AtoiPrint(80);
    assert Digits(80) == Digits(8) + "0" && Digits(10) == Digits(1) + "0";
    assert Print(80) == "80" && Print(10) == "10";
  }

  /** One int parameter called port, with these bounds and this default. */
  function PortSpecs(max: int, def: Option<Value>): Specs {
    map["port" := ParamSpec(Int, None, Some(0), Some(max), def)]
  }

  lemma PortResolves(rng: Rng, problem: string, seed: string, max: int, def: Option<Value>)
    requires 80 <= max
    ensures Resolved(rng, problem, PortSpecs(max, def), seed, PINNED)
            == Ok(Variant(problem, seed, map["port" := Num(80)], PINNED))
    ensures def.Some? ==> Resolved(rng, problem, PortSpecs(max, def), seed, map[])
                          == Ok(Variant(problem, seed, map["port" := def.value], map[]))
  {
    TwoDigits();
    ResolvedMeans(rng, problem, PortSpecs(max, def), seed, PINNED);
    ResolvedMeans(rng, problem, PortSpecs(max, def), seed, map[]);
    var r := Resolved(rng, problem, PortSpecs(max, def), seed, PINNED);
    assert r.value.params == map["port" := Num(80)];
    if def.Some? {
      var alone := Resolved(rng, problem, PortSpecs(max, def), seed, map[]);
      assert alone.value.params == map["port" := def.value];
    }
  }

  lemma PortIsShort(v: Variant)
    requires |v.problem| < 10 && |v.interview| < 10 && v.params.Keys == {"port"}
    requires v.params["port"] == Num(80) || v.params["port"] == Num(10)
    ensures E.AllShort(EnvParts(v))
  {
    TwoDigits();
    var names := SortedKeys(v.params.Keys);
    SortedUnique(names, ["port"]);
    assert names[1..] == [];
    assert EnvParts(v) == [v.problem, v.interview, "port", Printed(v.params["port"])];
  }

  /** The first command of the stories below: it brings up port 80, in the directory derived for it. */
  lemma BringsUpPort80(m: Machine, c: Command, specs: Specs, max: int, def: Option<Value>)
    requires 80 <= max && specs == PortSpecs(max, def) && m.problems == Some(map["p" := specs])
    requires m.sessions == map[] && m.states == map[] && m.cache == Some("/cache")
    requires c == Command("p", "s", "", PORT_80)
    ensures var pinned := Variant("p", "s", map["port" := Num(80)], PINNED);
            Answered(m, c) == Acts(pinned, false, Place("s", DefaultWorkdir(m, pinned).value))
  {
    var pinned := Variant("p", "s", map["port" := Num(80)], PINNED);
    PortResolves(m.rng, "p", "s", max, def);
    PortParsed(c.sets);
    assert map[] + PINNED == PINNED;
    ActsFrom(m, specs, "p", Place("s", ""), PINNED, DefaultWorkdir(m, pinned).value, pinned);
  }

  lemma DerivedElsewhere(m: Machine, specs: Specs, pinned: Variant, alone: Variant)
    requires specs == PortSpecs(100, Some(Num(10))) && m.cache == Some("/cache")
    requires forall bytes :: m.digest(bytes) == bytes
    requires pinned == Variant("p", "s", map["port" := Num(80)], PINNED)
    requires alone == Variant("p", "s", map["port" := Num(10)], map[])
    ensures Resolved(m.rng, "p", specs, "s", map[]) == Ok(alone)
    ensures DefaultWorkdir(m, pinned) != DefaultWorkdir(m, alone)
  {
    PortResolves(m.rng, "p", "s", 100, Some(Num(10)));
    PortIsShort(pinned);
    PortIsShort(alone);
    DerivedNamesCoincide(m, specs, "p", "s", PINNED);
    assert pinned.params["port"] != alone.params["port"];
  }

  /**
   `env up p --seed s --set port=80` writes no session record; `env status p
   --seed s` then derives the directory of the variant without overrides, finds
   no state there, and acts on parameters the environment does not have.
   */
  lemma DerivedWorkdirIsMissed(m: Machine, specs: Specs, up: Command, later: Command)
    requires specs == PortSpecs(100, Some(Num(10))) && m.problems == Some(map["p" := specs])
    requires m.sessions == map[] && m.states == map[] && m.cache == Some("/cache")
    requires forall bytes :: m.digest(bytes) == bytes
    requires up == Command("p", "s", "", PORT_80) && later == Command("p", "s", "", [])
    ensures var r := Answered(m, up);
            && r.Acts? && r.v.params == map["port" := Num(80)]
            && var missed := Answered(BroughtUp(m, r.v, r.at.workdir), later);
            && missed.Acts? && missed.v.params == map["port" := Num(10)]
            && missed.at.workdir != r.at.workdir
  {
    var pinned := Variant("p", "s", map["port" := Num(80)], PINNED);
    var alone := Variant("p", "s", map["port" := Num(10)], map[]);
    BringsUpPort80(m, up, specs, 100, Some(Num(10)));
    DerivedElsewhere(m, specs, pinned, alone);
    var missed := DefaultWorkdir(m, alone).value;
    var m' := BroughtUp(m, pinned, DefaultWorkdir(m, pinned).value);
    assert alone.overrides + alone.overrides == alone.overrides;
    ActsFrom(m', specs, "p", Place("s", ""), map[], missed, alone);
    Reached(m', later, specs, Place("s", ""));
  }

  /** A session started with a parameter too wide to draw pinned, which no later command can act on without the pin. */
  lemma PinnedWideBoundsCrashLater(m: Machine, specs: Specs, start: Command, later: Command)
    requires specs == PortSpecs(MAX_INT, None) && m.problems == Some(map["p" := specs])
    requires m.sessions == map[] && m.states == map[] && m.cache == Some("/cache")
    requires start == Command("p", "s", "", PORT_80) && later == Command("p", "s", "", [])
    ensures ValidSpecs(specs)
    ensures var r := Answered(m, start);
            && r.Acts? && r.v.params == map["port" := Num(80)]
            && Answered(Started(m, "p", r.v, r.at), later) == Stopped(Crashed)
  {
    var pinned := Variant("p", "s", map["port" := Num(80)], PINNED);
    BringsUpPort80(m, start, specs, MAX_INT, None);
    WideBoundsPanic(m.rng, "p", "s");
    var at := Place("s", DefaultWorkdir(m, pinned).value);
    Reached(Started(m, "p", pinned, at), later, specs, at);
  }
}
