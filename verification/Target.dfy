/**
 The overrides a command line gives (internal/cli/common.go), and how the ones
 recorded with an environment are layered under them, given ones winning.
 */
module Target {
  import opened Wrappers
  import opened Order
  import opened Variants

  // ---------------------------------------------------------------- --set

  datatype Pair = Pair(name: string, value: string)

  /** strings.Cut on the first "=", refusing an empty name. */
  function Cut(p: string): (r: Option<Pair>)
  {
    if p == "" || p[0] == '=' then None else CutAfter("", p)
  }

  function CutAfter(name: string, rest: string): Option<Pair>
    decreases |rest|
  {
    if rest == "" then None
    else if rest[0] == '=' then Some(Pair(name, rest[1..]))
    else CutAfter(name + [rest[0]], rest[1..])
  }

  lemma {:induction false} CutAfterMeans(name: string, rest: string)
    ensures var r := CutAfter(name, rest);
            && (r.None? <==> '=' !in rest)
            && (r.Some? ==> name <= r.value.name && '=' !in r.value.name[|name|..]
                            && name + rest == r.value.name + "=" + r.value.value)
    decreases |rest|
  {
    if rest != "" && rest[0] != '=' {
      CutAfterMeans(name + [rest[0]], rest[1..]);
      assert name + rest == name + [rest[0]] + rest[1..];
      var r := CutAfter(name, rest);
      if r.Some? {
        assert r.value.name[|name|..] == [rest[0]] + r.value.name[|name| + 1..];
      }
    }
  }

  /** A pair is cut at its first "=": before it the name, behind it everything else. */
  lemma CutMeans(p: string)
    ensures Cut(p).None? <==> '=' !in p || p[0] == '='
    ensures Cut(p).Some? ==>
      var pair := Cut(p).value;
      pair.name != "" && '=' !in pair.name && p == pair.name + "=" + pair.value
  {
    if p != "" && p[0] != '=' {
      CutAfterMeans("", p);
      if Cut(p).Some? {
        var pair := Cut(p).value;
        assert pair.name[0..] == pair.name;
        assert "" + p == p;
      }
    }
  }

  lemma CutJoined(name: string, value: string)
    requires name != "" && '=' !in name
    ensures Cut(name + "=" + value) == Some(Pair(name, value))
  {
    var p := name + "=" + value;
    assert p[0] == name[0];
    assert '=' in p by {
      assert p[|name|] == '=';
    }
    CutMeans(p);
    var pair := Cut(p).value;
    FirstEquals(name, value, pair.name, pair.value);
  }

  lemma FirstEquals(a: string, b: string, c: string, d: string)
    requires '=' !in a && '=' !in c && a + "=" + b == c + "=" + d
    ensures a == c && b == d
  {
    var p := a + "=" + b;
    assert p[|a|] == '=' && p[|c|] == '=';
    assert forall i | 0 <= i < |a| :: p[i] == a[i];
    assert forall i | 0 <= i < |c| :: p[i] == c[i];
    assert |a| == |c|;
    assert a == p[..|a|] && c == p[..|a|];
    assert b == p[|a| + 1..] && d == p[|a| + 1..];
  }

  function Parsed(pairs: seq<string>, n: nat): Option<Overrides>
    requires n <= |pairs|
  {
    if n == 0 then Some(map[])
    else match Parsed(pairs, n - 1)
      case None => None
      case Some(out) =>
        (match Cut(pairs[n - 1])
         case None => None
         case Some(pair) => Some(out[pair.name := pair.value]))
  }

  method ParseOverrides(pairs: seq<string>) returns (r: Option<Overrides>)
    ensures r == Parsed(pairs, |pairs|)
  {
    var out: Overrides := map[];
    for i := 0 to |pairs|
      invariant Parsed(pairs, i) == Some(out)
    {
      var pair := Cut(pairs[i]);
      if pair.None? {
        NoneAfter(pairs, i + 1, |pairs|);
        return None;
      }
      out := out[pair.value.name := pair.value.value];
    }
    return Some(out);
  }

  lemma {:induction false} NoneAfter(pairs: seq<string>, i: nat, n: nat)
    requires i <= n <= |pairs| && Parsed(pairs, i).None?
    ensures Parsed(pairs, n).None?
  {
    if i < n {
      NoneAfter(pairs, i, n - 1);
    }
  }

  /** Every pair has to parse, and of the pairs for one name the last counts. */
  lemma {:induction false} LastPairWins(pairs: seq<string>, n: nat, name: string)
    requires n <= |pairs|
    ensures Parsed(pairs, n).Some? <==> forall i | 0 <= i < n :: Cut(pairs[i]).Some?
    ensures Parsed(pairs, n).Some? && name in Parsed(pairs, n).value ==>
      exists i | 0 <= i < n ::
        && Cut(pairs[i]) == Some(Pair(name, Parsed(pairs, n).value[name]))
        && forall j | i < j < n :: Cut(pairs[j]).value.name != name
    ensures Parsed(pairs, n).Some? && name !in Parsed(pairs, n).value ==>
      forall i | 0 <= i < n :: Cut(pairs[i]).value.name != name
  {
    if n > 0 {
      LastPairWins(pairs, n - 1, name);
    }
  }

  /** Overrides written out as --set values. */
  function Written(overrides: Overrides, names: seq<string>): seq<string>
    requires forall name | name in names :: name in overrides
  {
    if names == [] then []
    else
      var last := names[|names| - 1];
      Written(overrides, names[..|names| - 1]) + [last + "=" + overrides[last]]
  }

  lemma {:induction false} WrittenParses(overrides: Overrides, names: seq<string>)
    requires forall name | name in names :: name in overrides && name != "" && '=' !in name
    ensures |Written(overrides, names)| == |names|
    ensures Parsed(Written(overrides, names), |names|) == Some(map name | name in Elems(names) :: overrides[name])
  {
    if names != [] {
      var shorter, last := names[..|names| - 1], names[|names| - 1];
      var w := Written(overrides, shorter);
      WrittenParses(overrides, shorter);
      CutJoined(last, overrides[last]);
      SameParse(w, w + [last + "=" + overrides[last]], |shorter|);
      assert names == shorter + [last];
      assert Elems(names) == Elems(shorter) + {last};
      var m := map name | name in Elems(shorter) :: overrides[name];
      assert Written(overrides, names) == w + [last + "=" + overrides[last]];
      assert Parsed(Written(overrides, names), |names|) == Some(m[last := overrides[last]]);
      assert m[last := overrides[last]] == map name | name in Elems(names) :: overrides[name];
    }
  }

  lemma {:induction false} SameParse(a: seq<string>, b: seq<string>, n: nat)
    requires n <= |a| && n <= |b| && a[..n] == b[..n]
    ensures Parsed(a, n) == Parsed(b, n)
  {
    if n > 0 {
      assert a[..n - 1] == a[..n][..n - 1] && b[..n - 1] == b[..n][..n - 1];
      assert a[n - 1] == a[..n][n - 1] && b[n - 1] == b[..n][n - 1];
      SameParse(a, b, n - 1);
    }
  }

  /** Overrides written as --set values and parsed again are the same overrides. */
  lemma WrittenOverridesParseBack(overrides: Overrides)
    requires forall name | name in overrides :: name != "" && '=' !in name
    ensures var names := SortedKeys(overrides.Keys);
            && (forall name | name in names :: name in overrides)
            && |Written(overrides, names)| == |names|
            && Parsed(Written(overrides, names), |names|) == Some(overrides)
  {
    var names := SortedKeys(overrides.Keys);
    AllNames(overrides, names);
    WrittenParses(overrides, names);
    assert overrides == map name | name in Elems(names) :: overrides[name];
  }

  // ---------------------------------------------------------------- the variant to act on

  datatype Found = Unresolved(why: Why) | Crashed | Acting(v: Variant, warned: bool)

  /** Given overrides have to resolve alone; then recorded and given ones together, if those do. */
  function Targeted(rng: Rng, problem: string, specs: Specs, seed: string, recorded: Overrides,
                    given: Overrides): Found {
    match Resolved(rng, problem, specs, seed, given)
    case Failed(why) => Unresolved(why)
    case Panicked => Crashed
    case Ok(alone) =>
      match Resolved(rng, problem, specs, seed, recorded + given)
      case Ok(v) => Acting(v, false)
      case Failed(_) => Acting(alone, true)
      case Panicked => Crashed
  }

  /** Resolves the given overrides alone, then, unless the recorded ones change nothing, the two together. */
  method LayerOverrides(rng: Rng, problem: string, specs: Specs, seed: string, resolved: Variant,
                        recorded: Overrides, given: Overrides) returns (r: Found)
    requires Resolved(rng, problem, specs, seed, given) == Ok(resolved)
    ensures r == Targeted(rng, problem, specs, seed, recorded, given)
  {
    r := Acting(resolved, false);
    assert map[] + given == given;
    if |recorded| > 0 {
      var merged := recorded + given;
      if merged != given {
        var both := Resolve(rng, problem, specs, seed, merged);
        match both {
          case Failed(why) => r := Acting(resolved, true);
          case Panicked => r := Crashed;
          case Ok(v) => r := Acting(v, false);
        }
      }
    } else {
      assert recorded == map[];
    }
  }

  /** Given overrides win, then recorded ones where they all resolve together, then what no override gives. */
  lemma GivenWinsOverRecorded(rng: Rng, problem: string, specs: Specs, seed: string, recorded: Overrides,
                              given: Overrides, name: string)
    requires Targeted(rng, problem, specs, seed, recorded, given).Acting?
    requires name in specs
    ensures var r := Targeted(rng, problem, specs, seed, recorded, given);
            && name in r.v.params
            && (name in given ==> Convert(specs[name], given[name]) == Ok(r.v.params[name]))
            && (name !in given && name in recorded && !r.warned ==>
                  Convert(specs[name], recorded[name]) == Ok(r.v.params[name]))
            && (name !in given && (name !in recorded || r.warned) ==>
                  Param(rng, problem, seed, name, specs[name], map[]) == Ok(r.v.params[name]))
  {
    ResolvedMeans(rng, problem, specs, seed, given);
    ResolvedMeans(rng, problem, specs, seed, recorded + given);
  }

  /** Recorded overrides are dropped, with a warning, exactly when they no longer fit the problem's specs. */
  lemma WarnedMeansStale(rng: Rng, problem: string, specs: Specs, seed: string, recorded: Overrides, given: Overrides)
    requires ValidSpecs(specs) && Resolved(rng, problem, specs, seed, given).Ok?
    ensures var r := Targeted(rng, problem, specs, seed, recorded, given);
            && r.Acting?
            && (r.warned <==> exists name | name in recorded && name !in given ::
                  name !in specs || !Convert(specs[name], recorded[name]).Ok?)
  {
    var merged := recorded + given;
    ResolveSucceeds(rng, problem, specs, seed, given);
    ResolveSucceeds(rng, problem, specs, seed, merged);
    MergedNeverPanics(rng, problem, specs, seed, recorded, given);
    if forall name | name in recorded && name !in given :: name in specs && Convert(specs[name], recorded[name]).Ok? {
      assert forall name | name in merged :: name in specs && Convert(specs[name], merged[name]).Ok?;
    } else {
      var name :| name in recorded && name !in given && !(name in specs && Convert(specs[name], recorded[name]).Ok?);
      assert name in merged && merged[name] == recorded[name];
    }
  }

  lemma MoreOverridesNeverPanic(rng: Rng, problem: string, seed: string, name: string, spec: ParamSpec,
                                recorded: Overrides, given: Overrides)
    requires Param(rng, problem, seed, name, spec, given).Ok?
    ensures !Param(rng, problem, seed, name, spec, recorded + given).Panicked?
  {
  }

  lemma MergedNeverPanics(rng: Rng, problem: string, specs: Specs, seed: string, recorded: Overrides, given: Overrides)
    requires Resolved(rng, problem, specs, seed, given).Ok?
    ensures !Resolved(rng, problem, specs, seed, recorded + given).Panicked?
  {
    ResolvedMeans(rng, problem, specs, seed, given);
    if KnownNames(specs, recorded + given) {
      var names := SortedKeys(specs.Keys);
      AllNames(specs, names);
      forall name | name in specs
        ensures !Param(rng, problem, seed, name, specs[name], recorded + given).Panicked?
      {
        MoreOverridesNeverPanic(rng, problem, seed, name, specs[name], recorded, given);
      }
      GatherNeverPanics(rng, problem, specs, seed, recorded + given, names, |names|);
    }
  }

  lemma {:induction false} GatherNeverPanics(rng: Rng, problem: string, specs: Specs, seed: string,
                                             overrides: Overrides,
                                             names: seq<string>, n: nat)
    requires n <= |names| && forall name | name in names :: name in specs
    requires forall name | name in specs :: !Param(rng, problem, seed, name, specs[name], overrides).Panicked?
    ensures !Gather(rng, problem, seed, specs, overrides, names, n).Panicked?
  {
    if n > 0 {
      GatherNeverPanics(rng, problem, specs, seed, overrides, names, n - 1);
    }
  }
}
