/**
 Variant resolution (internal/variant/variant.go) over the parameter specs
 internal/content/validate.go accepts. The digest and the random draw are
 parameters: a draw is any function of the bytes hashed for it.
 */
module Variants {
  import opened Wrappers
  import opened Order
  import opened Decimal
  import E = Encoding

  datatype Value = Num(n: int) | Str(s: string) | Other

  datatype ParamType = Choice | Int | String | Unknown

  /** Absent YAML fields are None; `of: []` is Some([]). */
  datatype ParamSpec = ParamSpec(
    typ: ParamType,
    of: Option<seq<string>>,
    min: Option<int>,
    max: Option<int>,
    def: Option<Value>)

  type Specs = map<string, ParamSpec>
  type Overrides = map<string, string>

  /** The draw a parameter's stream gives first, from the bytes hashed into its seed. */
  type Rng = (string, int) -> nat

  datatype Why = NoSuchParam | NotOneOf | NotAnInteger | Outside | EmptyChoice | InvalidBounds | NoDefault | UnknownType

  datatype Outcome<+T> = Ok(value: T) | Failed(why: Why) | Panicked

  datatype Variant = Variant(problem: string, interview: string, params: map<string, Value>, overrides: Overrides)

  function Choices(spec: ParamSpec): seq<string> {
    if spec.of.Some? then spec.of.value else []
  }

  // ---------------------------------------------------------------- one parameter

  /** rand.IntN: some value below n; it panics unless n is positive. */
  function IntN(rng: Rng, seed: string, n: int): (r: Outcome<int>)
    ensures r.Ok? <==> n > 0
    ensures r.Ok? ==> 0 <= r.value < n
    ensures !r.Failed?
  {
    if n <= 0 then Panicked else Ok(rng(seed, n) % n)
  }

  function Seed(problem: string, interview: string, name: string): string {
    E.Encode([problem, interview, name])
  }

  function Convert(spec: ParamSpec, raw: string): Outcome<Value> {
    match spec.typ
    case Choice => if raw in Choices(spec) then Ok(Str(raw)) else Failed(NotOneOf)
    case Int =>
      (match Atoi(raw)
       case None => Failed(NotAnInteger)
       case Some(n) =>
         if spec.min.Some? && spec.max.Some? && (n < spec.min.value || n > spec.max.value) then Failed(Outside)
         else Ok(Num(n)))
    case String => Ok(Str(raw))
    case Unknown => Failed(UnknownType)
  }

  function Draw(rng: Rng, seed: string, spec: ParamSpec): Outcome<Value> {
    match spec.typ
    case Choice =>
      if |Choices(spec)| == 0 then Failed(EmptyChoice)
      else Ok(Str(Choices(spec)[rng(seed, |Choices(spec)|) % |Choices(spec)|]))
    case Int =>
      if spec.min.None? || spec.max.None? || spec.min.value > spec.max.value then Failed(InvalidBounds)
      else
        (match IntN(rng, seed, Wrap(spec.max.value - spec.min.value + 1))
         case Ok(k) => Ok(Num(spec.min.value + k))
         case Failed(why) => Failed(why)
         case Panicked => Panicked)
    case String => Failed(NoDefault)
    case Unknown => Failed(UnknownType)
  }

  /** An override wins, a default pins, anything else draws. */
  function Param(rng: Rng, problem: string, interview: string, name: string, spec: ParamSpec,
                 overrides: Overrides): Outcome<Value> {
    if name in overrides then Convert(spec, overrides[name])
    else if spec.def.Some? then Ok(spec.def.value)
    else Draw(rng, Seed(problem, interview, name), spec)
  }

  // ---------------------------------------------------------------- all of them

  predicate KnownNames(specs: Specs, overrides: Overrides) {
    forall name | name in overrides :: name in specs
  }

  /** The first n parameters in order; the first that does not resolve ends it. */
  function Gather(rng: Rng, problem: string, interview: string, specs: Specs, overrides: Overrides,
                  names: seq<string>, n: nat)
    : Outcome<map<string, Value>>
    requires n <= |names| && forall name | name in names :: name in specs
  {
    if n == 0 then Ok(map[])
    else match Gather(rng, problem, interview, specs, overrides, names, n - 1)
      case Ok(params) =>
        (match Param(rng, problem, interview, names[n - 1], specs[names[n - 1]], overrides)
         case Ok(v) => Ok(params[names[n - 1] := v])
         case Failed(why) => Failed(why)
         case Panicked => Panicked)
      case Failed(why) => Failed(why)
      case Panicked => Panicked
  }

  function Resolved(rng: Rng, problem: string, specs: Specs, interview: string,
                    overrides: Overrides): (r: Outcome<Variant>)
    ensures r.Ok? ==> r.value.params.Keys == specs.Keys
  {
    if !KnownNames(specs, overrides) then Failed(NoSuchParam)
    else
      var names := SortedKeys(specs.Keys);
      AllNames(specs, names);
      GatherMeans(rng, problem, interview, specs, overrides, names, |names|);
      match Gather(rng, problem, interview, specs, overrides, names, |names|)
      case Ok(params) => Ok(Variant(problem, interview, params, overrides))
      case Failed(why) => Failed(why)
      case Panicked => Panicked
  }

  lemma AllNames<T>(specs: map<string, T>, names: seq<string>)
    requires Elems(names) == specs.Keys
    ensures forall name :: name in names <==> name in specs
    ensures names[..|names|] == names
  {
    assert forall name :: name in names <==> name in Elems(names);
  }

  method CheckNames(specs: Specs, overrides: Overrides) returns (known: bool)
    ensures known == KnownNames(specs, overrides)
  {
    var unchecked := overrides.Keys;
    while unchecked != {}
      invariant unchecked <= overrides.Keys
      invariant forall name | name in overrides && name !in unchecked :: name in specs
      decreases unchecked
    {
      var name :| name in unchecked;
      if name !in specs {
        return false;
      }
      unchecked := unchecked - {name};
    }
    return true;
  }

  method Resolve(rng: Rng, problem: string, specs: Specs, interview: string, overrides: Overrides)
    returns (r: Outcome<Variant>)
    ensures r == Resolved(rng, problem, specs, interview, overrides)
  {
    var known := CheckNames(specs, overrides);
    if !known {
      return Failed(NoSuchParam);
    }
    var names := SortedKeys(specs.Keys);
    AllNames(specs, names);
    var params := ResolveEach(rng, problem, interview, specs, overrides, names);
    match params {
      case Ok(values) => return Ok(Variant(problem, interview, values, overrides));
      case Failed(why) => return Failed(why);
      case Panicked => return Panicked;
    }
  }

  method ResolveEach(rng: Rng, problem: string, interview: string, specs: Specs, overrides: Overrides,
                     names: seq<string>)
    returns (r: Outcome<map<string, Value>>)
    requires forall name | name in names :: name in specs
    ensures r == Gather(rng, problem, interview, specs, overrides, names, |names|)
  {
    var params: map<string, Value> := map[];
    for i := 0 to |names|
      invariant Gather(rng, problem, interview, specs, overrides, names, i) == Ok(params)
    {
      var v := Param(rng, problem, interview, names[i], specs[names[i]], overrides);
      if !v.Ok? {
        GatherStops(rng, problem, interview, specs, overrides, names, i, |names|);
        return if v.Panicked? then Panicked else Failed(v.why);
      }
      params := params[names[i] := v.value];
    }
    return Ok(params);
  }

  lemma {:induction false} GatherStops(rng: Rng, problem: string, interview: string, specs: Specs, overrides: Overrides,
                                       names: seq<string>, i: nat, n: nat)
    requires i < n <= |names| && forall name | name in names :: name in specs
    requires Gather(rng, problem, interview, specs, overrides, names, i).Ok?
    requires !Param(rng, problem, interview, names[i], specs[names[i]], overrides).Ok?
    ensures var v := Param(rng, problem, interview, names[i], specs[names[i]], overrides);
            Gather(rng, problem, interview, specs, overrides, names, n)
            == if v.Panicked? then Panicked else Failed(v.why)
  {
    if n > i + 1 {
      GatherStops(rng, problem, interview, specs, overrides, names, i, n - 1);
    }
  }

  lemma {:induction false} GatherMeans(rng: Rng, problem: string, interview: string, specs: Specs, overrides: Overrides,
                                       names: seq<string>, n: nat)
    requires n <= |names| && forall name | name in names :: name in specs
    ensures var r := Gather(rng, problem, interview, specs, overrides, names, n);
            && (r.Ok? <==>
                forall i | 0 <= i < n :: Param(rng, problem, interview, names[i], specs[names[i]], overrides).Ok?)
            && (r.Ok? ==>
                  && r.value.Keys == Elems(names[..n])
                  && forall name | name in r.value ::
                       Param(rng, problem, interview, name, specs[name], overrides) == Ok(r.value[name]))
  {
    if n > 0 {
      GatherMeans(rng, problem, interview, specs, overrides, names, n - 1);
      assert names[..n] == names[..n - 1] + [names[n - 1]];
    }
  }

  /** Resolution succeeds exactly when every parameter does on its own, and then holds each one's own value. */
  lemma ResolvedMeans(rng: Rng, problem: string, specs: Specs, interview: string, overrides: Overrides)
    ensures var r := Resolved(rng, problem, specs, interview, overrides);
            && (r.Ok? <==> KnownNames(specs, overrides)
                           && forall name | name in specs ::
                                Param(rng, problem, interview, name, specs[name], overrides).Ok?)
            && (r.Ok? ==>
                  && r.value.problem == problem && r.value.interview == interview && r.value.overrides == overrides
                  && r.value.params.Keys == specs.Keys
                  && forall name | name in specs ::
                       Param(rng, problem, interview, name, specs[name], overrides) == Ok(r.value.params[name]))
  {
    var names := SortedKeys(specs.Keys);
    AllNames(specs, names);
    if KnownNames(specs, overrides) {
      GatherMeans(rng, problem, interview, specs, overrides, names, |names|);
      var r := Gather(rng, problem, interview, specs, overrides, names, |names|);
      if r.Ok? {
        forall name | name in specs
          ensures Param(rng, problem, interview, name, specs[name], overrides).Ok?
        {
          assert name in r.value;
        }
      }
    }
  }

  /**
   What a parameter resolves to: its override, read as its type; else its
   default; else a draw over its choices or its span, from the hash of the
   problem, the interview and its own name.
   */
  lemma ResolvedValue(rng: Rng, problem: string, specs: Specs, interview: string, overrides: Overrides, name: string)
    requires name in specs && Resolved(rng, problem, specs, interview, overrides).Ok?
    ensures var v := Resolved(rng, problem, specs, interview, overrides).value.params[name];
            var spec := specs[name];
            var bytes := E.Encode([problem, interview, name]);
            && (name in overrides ==> IsReadAs(v, spec, overrides[name]))
            && (name !in overrides && spec.def.Some? ==> v == spec.def.value)
            && (name !in overrides && spec.def.None? && spec.typ == Choice ==>
                  && spec.of.Some? && |spec.of.value| > 0
                  && v == Str(spec.of.value[rng(bytes, |spec.of.value|) % |spec.of.value|]))
            && (name !in overrides && spec.def.None? && spec.typ == Int && IntBounds(spec) ==>
                  && spec.min.Some? && spec.max.Some? && spec.min.value <= spec.max.value
                  && var span := spec.max.value - spec.min.value + 1;
                  v == Num(spec.min.value + rng(bytes, span) % span))
            && (name !in overrides && spec.def.None? ==> spec.typ == Choice || spec.typ == Int)
  {
    ResolvedMeans(rng, problem, specs, interview, overrides);
    var spec := specs[name];
    if name !in overrides && spec.def.None? && spec.typ == Int && IntBounds(spec) {
      WrapsNegative(spec.max.value - spec.min.value + 1);
    }
  }

  /** An override is read as its spec's type says: one of the choices, a decimal within the bounds, or itself. */
  ghost predicate IsReadAs(v: Value, spec: ParamSpec, raw: string) {
    match spec.typ
    case Choice => v == Str(raw) && spec.of.Some? && raw in spec.of.value
    case Int =>
      && v.Num? && Atoi(raw) == Some(v.n)
      && (spec.min.Some? && spec.max.Some? ==> spec.min.value <= v.n <= spec.max.value)
    case String => v == Str(raw)
    case Unknown => false
  }

  /** And every override that reads as something is accepted, whatever the rest. */
  lemma ReadableOverridesConvert(spec: ParamSpec, raw: string, v: Value)
    requires IsReadAs(v, spec, raw)
    ensures Convert(spec, raw) == Ok(v)
  {
  }

  /** A value depends on nothing but its own spec and override: adding, removing or overriding others never moves it. */
  lemma ParamsAreIndependent(rng: Rng, problem: string, interview: string, name: string,
                             specs: Specs, overrides: Overrides, specs': Specs, overrides': Overrides)
    requires Resolved(rng, problem, specs, interview, overrides).Ok?
    requires Resolved(rng, problem, specs', interview, overrides').Ok?
    requires name in specs && name in specs' && specs[name] == specs'[name]
    requires name in overrides <==> name in overrides'
    requires name in overrides ==> overrides[name] == overrides'[name]
    ensures Resolved(rng, problem, specs, interview, overrides).value.params[name]
            == Resolved(rng, problem, specs', interview, overrides').value.params[name]
  {
    ResolvedMeans(rng, problem, specs, interview, overrides);
    ResolvedMeans(rng, problem, specs', interview, overrides');
  }

  /** Parameters of different problems, interviews or names draw from differently seeded streams. */
  lemma SeedsAreDistinct(p: string, i: string, n: string, p': string, i': string, n': string)
    requires E.AllShort([p, i, n]) && E.AllShort([p', i', n'])
    ensures Seed(p, i, n) == Seed(p', i', n') <==> p == p' && i == i' && n == n'
  {
    var a, b := [p, i, n], [p', i', n'];
    if Seed(p, i, n) == Seed(p', i', n') {
      E.EncodeInjective(a, b);
      assert a[0] == b[0] && a[1] == b[1] && a[2] == b[2];
    }
  }

  // ---------------------------------------------------------------- valid specs

  datatype Issue = BadName | TakesNoBounds | NeedsChoices | ListedTwice | DefaultType | DefaultNotInOf
                 | TakesNoOf | NeedsBounds | MinAboveMax | DefaultOutside | TakesOnlyDefault | NeedsDefault | BadType

  predicate Distinct(values: seq<string>) {
    forall i, j | 0 <= i < j < |values| :: values[i] != values[j]
  }

  /** A spec a manifest may declare. */
  ghost predicate ValidSpec(p: ParamSpec) {
    match p.typ
    case Choice =>
      && p.min.None? && p.max.None? && p.of.Some? && p.of.value != [] && Distinct(p.of.value)
      && (p.def.Some? ==> p.def.value.Str? && p.def.value.s in p.of.value)
    case Int =>
      && p.of.None? && p.min.Some? && p.max.Some? && p.min.value <= p.max.value
      && (p.def.Some? ==> p.def.value.Num? && p.min.value <= p.def.value.n <= p.max.value)
    case String =>
      && p.of.None? && p.min.None? && p.max.None? && p.def.Some? && p.def.value.Str?
    case Unknown => false
  }

  /** Bounds are Go ints. */
  ghost predicate IntBounds(p: ParamSpec) {
    (p.min.Some? ==> IsInt(p.min.value)) && (p.max.Some? ==> IsInt(p.max.value))
  }

  method ValidateParam(nameOk: bool, p: ParamSpec) returns (issues: seq<Issue>)
    ensures issues == [] <==> nameOk && ValidSpec(p)
  {
    issues := if nameOk then [] else [BadName];
    match p.typ {
      case Choice =>
        if p.min.Some? || p.max.Some? {
          issues := issues + [TakesNoBounds];
        }
        var of := Choices(p);
        if |of| == 0 {
          issues := issues + [NeedsChoices];
        }
        var seen: set<string> := {};
        ghost var sofar := issues;
        for i := 0 to |of|
          invariant seen == Elems(of[..i])
          invariant issues == [] <==> sofar == [] && Distinct(of[..i])
        {
          assert of[..i + 1] == of[..i] + [of[i]];
          assert Elems(of[..i + 1]) == Elems(of[..i]) + {of[i]};
          assert Distinct(of[..i + 1]) <==> Distinct(of[..i]) && of[i] !in of[..i];
          if of[i] in seen {
            issues := issues + [ListedTwice];
          }
          seen := seen + {of[i]};
        }
        assert of[..|of|] == of;
        if p.def.Some? {
          if !p.def.value.Str? {
            issues := issues + [DefaultType];
          } else if |of| > 0 && p.def.value.s !in seen {
            issues := issues + [DefaultNotInOf];
          }
        }
      case Int =>
        if p.of.Some? {
          issues := issues + [TakesNoOf];
        }
        if p.min.None? || p.max.None? {
          issues := issues + [NeedsBounds];
        } else if p.min.value > p.max.value {
          issues := issues + [MinAboveMax];
        }
        if p.def.Some? {
          if !p.def.value.Num? {
            issues := issues + [DefaultType];
          } else if p.min.Some? && p.max.Some? && (p.def.value.n < p.min.value || p.def.value.n > p.max.value) {
            issues := issues + [DefaultOutside];
          }
        }
      case String =>
        if p.of.Some? || p.min.Some? || p.max.Some? {
          issues := issues + [TakesOnlyDefault];
        }
        if p.def.None? {
          issues := issues + [NeedsDefault];
        } else if !p.def.value.Str? {
          issues := issues + [DefaultType];
        }
      case Unknown =>
        issues := issues + [BadType];
    }
  }

  ghost predicate ValidSpecs(specs: Specs) {
    forall name | name in specs :: ValidSpec(specs[name]) && IntBounds(specs[name])
  }

  /** A value of the kind its spec declares. */
  ghost predicate Satisfies(v: Value, spec: ParamSpec) {
    match spec.typ
    case Choice => v.Str? && v.s in Choices(spec)
    case Int => v.Num? && spec.min.Some? && spec.max.Some? && spec.min.value <= v.n <= spec.max.value
    case String => v.Str?
    case Unknown => false
  }

  /** The span of the bounds does not fit an int, so a draw from it panics. */
  predicate Overflows(spec: ParamSpec) {
    spec.typ.Int? && spec.def.None? && spec.min.Some? && spec.max.Some? && spec.max.value - spec.min.value + 1 > MAX_INT
  }

  lemma WrapsNegative(n: int)
    requires 1 <= n <= MAX_INT - MIN_INT + 1
    ensures Wrap(n) == n <==> n <= MAX_INT
    ensures n > MAX_INT ==> Wrap(n) <= 0
  {
  }

  /** A valid parameter resolves to a value of its spec, unless a bad override fails it or its span overflows. */
  lemma ParamTotal(rng: Rng, problem: string, interview: string, name: string, spec: ParamSpec, overrides: Overrides)
    requires ValidSpec(spec) && IntBounds(spec)
    ensures var r := Param(rng, problem, interview, name, spec, overrides);
            && (r.Ok? ==> Satisfies(r.value, spec))
            && (name !in overrides ==> if Overflows(spec) then r.Panicked? else r.Ok?)
            && (name in overrides ==> !r.Panicked?)
  {
    if name !in overrides && spec.def.None? && spec.typ.Int? {
      WrapsNegative(spec.max.value - spec.min.value + 1);
    }
  }

  /** Exactly when resolution succeeds: known, convertible overrides, and no span too wide to draw from. */
  lemma ResolveSucceeds(rng: Rng, problem: string, specs: Specs, interview: string, overrides: Overrides)
    requires ValidSpecs(specs)
    ensures var r := Resolved(rng, problem, specs, interview, overrides);
            && (r.Ok? <==>
                  && (forall name | name in overrides :: name in specs && Convert(specs[name], overrides[name]).Ok?)
                  && (forall name | name in specs && name !in overrides :: !Overflows(specs[name])))
            && (r.Ok? ==> forall name | name in specs :: Satisfies(r.value.params[name], specs[name]))
  {
    ResolvedMeans(rng, problem, specs, interview, overrides);
    forall name | name in specs
      ensures var r := Param(rng, problem, interview, name, specs[name], overrides);
              && (r.Ok? ==> Satisfies(r.value, specs[name]))
              && (name !in overrides ==> (r.Ok? <==> !Overflows(specs[name])))
              && (name in overrides ==> r == Convert(specs[name], overrides[name]))
    {
      ParamTotal(rng, problem, interview, name, specs[name], overrides);
    }
  }

  /** Without overrides nothing fails: it resolves, or a draw panics on a span too wide. */
  lemma NoOverridesNeverFails(rng: Rng, problem: string, specs: Specs, interview: string)
    requires ValidSpecs(specs)
    ensures var r := Resolved(rng, problem, specs, interview, map[]);
            && !r.Failed?
            && (r.Panicked? <==> exists name | name in specs :: Overflows(specs[name]))
  {
    ResolveSucceeds(rng, problem, specs, interview, map[]);
    var names := SortedKeys(specs.Keys);
    AllNames(specs, names);
    NeverFails(rng, problem, interview, specs, names, |names|);
  }

  lemma {:induction false} NeverFails(rng: Rng, problem: string, interview: string, specs: Specs, names: seq<string>,
                                      n: nat)
    requires ValidSpecs(specs) && n <= |names| && forall name | name in names :: name in specs
    ensures !Gather(rng, problem, interview, specs, map[], names, n).Failed?
  {
    if n > 0 {
      NeverFails(rng, problem, interview, specs, names, n - 1);
      ParamTotal(rng, problem, interview, names[n - 1], specs[names[n - 1]], map[]);
    }
  }

  /** A manifest may declare an int from 0 to the largest there is, and no interview can then be resolved. */
  lemma WideBoundsPanic(rng: Rng, problem: string, interview: string)
    ensures var spec := ParamSpec(Int, None, Some(0), Some(9223372036854775807), None);
            ValidSpec(spec) && IntBounds(spec)
            && Resolved(rng, problem, map["port" := spec], interview, map[]).Panicked?
  {
    var spec := ParamSpec(Int, None, Some(0), Some(MAX_INT), None);
    var specs := map["port" := spec];
    NoOverridesNeverFails(rng, problem, specs, interview);
    assert Overflows(specs["port"]);
  }

  // ---------------------------------------------------------------- reproducing a variant

  /** fmt.Sprint of a value a valid spec resolves to. */
  function Printed(v: Value): string {
    match v
    case Num(n) => Print(n)
    case Str(s) => s
    case Other => ""
  }

  lemma ConvertPrinted(v: Value, spec: ParamSpec)
    requires ValidSpec(spec) && IntBounds(spec) && Satisfies(v, spec)
    ensures Convert(spec, Printed(v)) == Ok(v)
  {
    if v.Num? {
      AtoiPrint(v.n);
    }
  }

  /** Overriding any of the parameters with what they resolved to, printed, resolves to the same parameters. */
  lemma PrintedOverridesReproduce(rng: Rng, problem: string, specs: Specs, interview: string, overrides: Overrides,
                                  names: set<string>)
    requires ValidSpecs(specs) && names <= specs.Keys
    requires Resolved(rng, problem, specs, interview, overrides).Ok?
    ensures var params := Resolved(rng, problem, specs, interview, overrides).value.params;
            var pinned := overrides + map name | name in names && name in params :: Printed(params[name]);
            Resolved(rng, problem, specs, interview, pinned) == Ok(Variant(problem, interview, params, pinned))
  {
    ResolvedMeans(rng, problem, specs, interview, overrides);
    ResolveSucceeds(rng, problem, specs, interview, overrides);
    var params := Resolved(rng, problem, specs, interview, overrides).value.params;
    var pinned := overrides + map name | name in names && name in params :: Printed(params[name]);
    forall name | name in specs
      ensures Param(rng, problem, interview, name, specs[name], pinned) == Ok(params[name])
    {
      if name in names {
        ConvertPrinted(params[name], specs[name]);
      }
    }
    ResolvedMeans(rng, problem, specs, interview, pinned);
    assert Resolved(rng, problem, specs, interview, pinned).value.params == params;
  }

  // ---------------------------------------------------------------- the environment's name

  /** The parts envName hashes: the problem, the id, and each parameter's name and printed value in name order. */
  function EnvParts(v: Variant): seq<string> {
    var names := SortedKeys(v.params.Keys);
    AllNames(v.params, names);
    [v.problem, v.interview] + Pairs(v.params, names)
  }

  function Pairs(params: map<string, Value>, names: seq<string>): (parts: seq<string>)
    requires forall name | name in names :: name in params
    ensures |parts| == 2 * |names|
  {
    if names == [] then []
    else [names[0], Printed(params[names[0]])] + Pairs(params, names[1..])
  }

  /**
   The parts, hashed, behind at most twenty bytes of the problem's id; digest
   is the hex of the hash's first four bytes.
   */
  function EnvNameOf(v: Variant, digest: string -> string): string {
    "iv-" + v.problem[..if |v.problem| > 20 then 20 else |v.problem|] + "-" + digest(E.Encode(EnvParts(v)))
  }

  method EnvName(v: Variant, digest: string -> string) returns (name: string)
    ensures name == EnvNameOf(v, digest)
    ensures name == "iv-" + v.problem[..if |v.problem| > 20 then 20 else |v.problem|] + "-"
                    + digest(E.Encode(EnvParts(v)))
  {
    var problem := v.problem;
    if |problem| > 20 {
      problem := problem[..20];
    }
    assert problem == v.problem[..|problem|];
    var parts := ListParts(v);
    var hashed := E.HashParts(parts);
    name := "iv-" + problem + "-" + digest(hashed);
  }

  method ListParts(v: Variant) returns (parts: seq<string>)
    ensures parts == EnvParts(v)
  {
    parts := [v.problem, v.interview];
    var names := SortedKeys(v.params.Keys);
    AllNames(v.params, names);
    for i := 0 to |names|
      invariant parts == [v.problem, v.interview] + Pairs(v.params, names[..i])
    {
      PairsMore(v.params, names, i);
      Regroup([v.problem, v.interview], Pairs(v.params, names[..i]), [names[i], Printed(v.params[names[i]])]);
      parts := parts + [names[i], Printed(v.params[names[i]])];
    }
  }

  lemma {:induction false} PairsMore(params: map<string, Value>, names: seq<string>, i: nat)
    requires i < |names| && forall name | name in names :: name in params
    ensures Pairs(params, names[..i + 1]) == Pairs(params, names[..i]) + [names[i], Printed(params[names[i]])]
  {
    if i == 0 {
      assert names[..1] == [names[0]] && names[..1][1..] == [];
    } else {
      PairsMore(params, names[1..], i - 1);
      assert names[..i + 1][1..] == names[1..][..i];
      assert names[..i][1..] == names[1..][..i - 1];
    }
  }

  /** Part by part: after the problem and the id, a sorted list of the parameter names, each with its printed value. */
  lemma EnvPartsSpelled(v: Variant)
    ensures var parts := EnvParts(v);
            var names := seq((|parts| - 2) / 2, i requires 0 <= i < (|parts| - 2) / 2 => parts[2 + 2 * i]);
            && |parts| == 2 + 2 * |names| && parts[0] == v.problem && parts[1] == v.interview
            && Sorted(names) && (forall name :: name in names <==> name in v.params)
            && forall i | 0 <= i < |names| :: parts[3 + 2 * i] == Printed(v.params[names[i]])
  {
    var names := SortedKeys(v.params.Keys);
    AllNames(v.params, names);
    PairsSpelled(v.params, names);
    var parts := EnvParts(v);
    assert names == seq((|parts| - 2) / 2, i requires 0 <= i < (|parts| - 2) / 2 => parts[2 + 2 * i]);
    assert forall name :: name in names <==> name in Elems(names);
  }

  lemma {:induction false} PairsSpelled(params: map<string, Value>, names: seq<string>)
    requires forall name | name in names :: name in params
    ensures forall i | 0 <= i < |names| ::
      Pairs(params, names)[2 * i] == names[i] && Pairs(params, names)[2 * i + 1] == Printed(params[names[i]])
  {
    if names != [] {
      PairsSpelled(params, names[1..]);
    }
  }

  lemma {:induction false} PairsDetermine(a: map<string, Value>, names: seq<string>, b: map<string, Value>,
                                          names': seq<string>)
    requires (forall name | name in names :: name in a) && (forall name | name in names' :: name in b)
    requires Pairs(a, names) == Pairs(b, names')
    ensures names == names'
    ensures forall name | name in names :: Printed(a[name]) == Printed(b[name])
  {
    if names != [] {
      var p, q := Pairs(a, names), Pairs(b, names');
      assert p[0] == q[0] && p[1] == q[1];
      assert p[2..] == Pairs(a, names[1..]) && q[2..] == Pairs(b, names'[1..]);
      PairsDetermine(a, names[1..], b, names'[1..]);
      assert names == [names[0]] + names[1..] && names' == [names'[0]] + names'[1..];
    }
  }

  lemma {:induction false} PairsAgree(a: map<string, Value>, b: map<string, Value>, names: seq<string>)
    requires forall name | name in names :: name in a && name in b && Printed(a[name]) == Printed(b[name])
    ensures Pairs(a, names) == Pairs(b, names)
  {
    if names != [] {
      PairsAgree(a, b, names[1..]);
    }
  }

  ghost predicate SamePrinted(v: Variant, v': Variant) {
    && v.problem == v'.problem && v.interview == v'.interview && v.params.Keys == v'.params.Keys
    && forall name | name in v.params :: Printed(v.params[name]) == Printed(v'.params[name])
  }

  /** The parts hashed for an environment's name are the problem, the id and the printed parameters, no less. */
  lemma EnvPartsDetermineVariant(v: Variant, v': Variant)
    ensures EnvParts(v) == EnvParts(v') <==> SamePrinted(v, v')
  {
    var names, names' := SortedKeys(v.params.Keys), SortedKeys(v'.params.Keys);
    AllNames(v.params, names);
    AllNames(v'.params, names');
    if EnvParts(v) == EnvParts(v') {
      var a, b := EnvParts(v), EnvParts(v');
      assert a[0] == b[0] && a[1] == b[1];
      assert a[2..] == Pairs(v.params, names) && b[2..] == Pairs(v'.params, names');
      PairsDetermine(v.params, names, v'.params, names');
    }
    if SamePrinted(v, v') {
      PairsAgree(v.params, v'.params, names);
    }
  }

  /** So are the bytes, as long as every part is shorter than 2^32. */
  lemma EnvBytesDetermineVariant(v: Variant, v': Variant)
    requires E.AllShort(EnvParts(v)) && E.AllShort(EnvParts(v'))
    ensures E.Encode(EnvParts(v)) == E.Encode(EnvParts(v')) <==> SamePrinted(v, v')
  {
    EnvPartsDetermineVariant(v, v');
    if E.Encode(EnvParts(v)) == E.Encode(EnvParts(v')) {
      E.EncodeInjective(EnvParts(v), EnvParts(v'));
    }
  }

  /** Every parameter has a value of its spec's kind, as resolution leaves it. */
  ghost predicate Complies(v: Variant, specs: Specs) {
    v.params.Keys == specs.Keys && forall name | name in specs :: Satisfies(v.params[name], specs[name])
  }

  lemma ResolvedComplies(rng: Rng, problem: string, specs: Specs, interview: string, overrides: Overrides)
    requires ValidSpecs(specs) && Resolved(rng, problem, specs, interview, overrides).Ok?
    ensures Complies(Resolved(rng, problem, specs, interview, overrides).value, specs)
  {
    ResolveSucceeds(rng, problem, specs, interview, overrides);
  }

  /** So, over valid specs, two resolved variants are named from the same bytes exactly when they agree. */
  lemma SameEnvBytesSameParams(rng: Rng, specs: Specs, problem: string, id: string, overrides: Overrides,
                               problem': string, id': string, overrides': Overrides)
    requires ValidSpecs(specs)
    requires Resolved(rng, problem, specs, id, overrides).Ok? && Resolved(rng, problem', specs, id', overrides').Ok?
    requires E.AllShort(EnvParts(Resolved(rng, problem, specs, id, overrides).value))
    requires E.AllShort(EnvParts(Resolved(rng, problem', specs, id', overrides').value))
    ensures var v := Resolved(rng, problem, specs, id, overrides).value;
            var v' := Resolved(rng, problem', specs, id', overrides').value;
            E.Encode(EnvParts(v)) == E.Encode(EnvParts(v'))
            <==> problem == problem' && id == id' && v.params == v'.params
  {
    ResolvedComplies(rng, problem, specs, id, overrides);
    ResolvedComplies(rng, problem', specs, id', overrides');
    ResolvedMeans(rng, problem, specs, id, overrides);
    ResolvedMeans(rng, problem', specs, id', overrides');
    CompliantBytes(specs, Resolved(rng, problem, specs, id, overrides).value,
                   Resolved(rng, problem', specs, id', overrides').value);
  }

  lemma CompliantBytes(specs: Specs, v: Variant, v': Variant)
    requires ValidSpecs(specs) && Complies(v, specs) && Complies(v', specs)
    requires E.AllShort(EnvParts(v)) && E.AllShort(EnvParts(v'))
    ensures E.Encode(EnvParts(v)) == E.Encode(EnvParts(v')) <==>
      v.problem == v'.problem && v.interview == v'.interview && v.params == v'.params
  {
    EnvBytesDetermineVariant(v, v');
    if SamePrinted(v, v') {
      forall name | name in specs
        ensures v.params[name] == v'.params[name]
      {
        ConvertPrinted(v.params[name], specs[name]);
        ConvertPrinted(v'.params[name], specs[name]);
      }
    }
  }
}
