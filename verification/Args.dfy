/**
 Arguments with flags anywhere among the positionals (internal/cli/common.go).
 The flag package parses up to the first positional; parsePermuted calls it
 again and again. The reference is one scan from left to right.
 */
module Args {
  /** The flags a command defines, true for those that take a value, and what their values may be. */
  datatype Flags = Flags(takesValue: map<string, bool>, accepts: (string, string) -> bool)

  datatype Assign = Assign(name: string, value: string)

  /** What the flag package makes of the front of an argument list. */
  datatype Step = Stop | Terminator | Set(a: Assign, used: nat) | Bad

  datatype Parsed = Rejected(at: nat) | Done(assigns: seq<Assign>, rest: seq<string>)

  predicate IsPlain(arg: string) {
    |arg| < 2 || arg[0] != '-'
  }

  predicate AllPlain(args: seq<string>) {
    forall i | 0 <= i < |args| :: IsPlain(args[i])
  }

  function EqualsAt(s: string): (i: int)
    ensures -1 <= i < |s|
  {
    if s == "" then -1
    else if s[0] == '=' then 0
    else if EqualsAt(s[1..]) < 0 then -1 else EqualsAt(s[1..]) + 1
  }

  /** flag.FlagSet.parseOne. */
  function ParseOne(flags: Flags, args: seq<string>): (r: Step)
    ensures r.Set? ==> 1 <= r.used <= 2 && r.used <= |args|
    ensures r.Terminator? ==> args != [] && args[0] == "--"
    ensures r.Stop? <==> args == [] || IsPlain(args[0])
  {
    if args == [] || IsPlain(args[0]) then Stop
    else if args[0] == "--" then Terminator
    else
      var name := if args[0][1] == '-' then args[0][2..] else args[0][1..];
      if name == "" || name[0] == '-' || name[0] == '=' then Bad
      else
        var eq := EqualsAt(name);
        var key := if eq < 0 then name else name[..eq];
        if key !in flags.takesValue then Bad
        else if !flags.takesValue[key] then
          var value := if eq < 0 then "true" else name[eq + 1..];
          if flags.accepts(key, value) then Set(Assign(key, value), 1) else Bad
        else if eq >= 0 then
          if flags.accepts(key, name[eq + 1..]) then Set(Assign(key, name[eq + 1..]), 1) else Bad
        else if |args| == 1 then Bad
        else if flags.accepts(key, args[1]) then Set(Assign(key, args[1]), 2)
        else Bad
  }

  /** flag.FlagSet.Parse: stops at the first positional, or behind the terminator it swallows. */
  function Parse(flags: Flags, args: seq<string>): (r: Parsed)
    ensures r.Done? ==> |r.rest| <= |args| && r.rest == args[|args| - |r.rest|..]
    decreases |args|
  {
    match ParseOne(flags, args)
    case Stop => Done([], args)
    case Terminator => Done([], args[1..])
    case Bad => Rejected(|args|)
    case Set(a, used) =>
      match Parse(flags, args[used..])
      case Rejected(at) => Rejected(at)
      case Done(assigns, rest) => Done([a] + assigns, rest)
  }

  /** What a command ends up with: where parsing failed, or its flags in order and its positionals. */
  datatype Outcome = Failed(at: nat) | Parsed(assigns: seq<Assign>, positional: seq<string>)

  function After(assigns: seq<Assign>, positional: seq<string>, o: Outcome): Outcome {
    match o
    case Failed(at) => Failed(at)
    case Parsed(more, rest) => Parsed(assigns + more, positional + rest)
  }

  /** The reference: flags and positionals as they come, everything positional behind the first terminator. */
  function Scan(flags: Flags, args: seq<string>): Outcome
    decreases |args|
  {
    if args == [] then Parsed([], [])
    else match ParseOne(flags, args)
      case Stop => After([], [args[0]], Scan(flags, args[1..]))
      case Terminator => Parsed([], args[1..])
      case Bad => Failed(|args|)
      case Set(a, used) => After([a], [], Scan(flags, args[used..]))
  }

  /**
   A flag takes the literal "--" as its value with a positional right behind,
   and anything but positionals follows: there the boundary is misread.
   */
  predicate Misread(flags: Flags, args: seq<string>)
    decreases |args|
  {
    if args == [] then false
    else match ParseOne(flags, args)
      case Stop => Misread(flags, args[1..])
      case Terminator => false
      case Bad => false
      case Set(a, used) =>
        var rest := args[used..];
        if args[used - 1] == "--" && rest != [] && IsPlain(rest[0]) then !AllPlain(rest)
        else Misread(flags, rest)
  }

  // ---------------------------------------------------------------- the loop

  /** What the rest of the loop contributes. */
  function Permuted(flags: Flags, args: seq<string>): Outcome
    decreases |args|, 1
  {
    if args == [] then Parsed([], [])
    else
      match Parse(flags, args)
      case Rejected(at) => Failed(at)
      case Done(assigns, rest) =>
        Continued(flags, assigns, AtTerminator(args, rest), rest)
  }

  /** The last argument parsed, if any, was "--". */
  predicate AtTerminator(args: seq<string>, rest: seq<string>)
    requires |rest| <= |args|
  {
    var n := |args| - |rest|;
    n > 0 && args[n - 1] == "--"
  }

  function Continued(flags: Flags, assigns: seq<Assign>, ended: bool, rest: seq<string>): Outcome
    decreases |rest|, 0
  {
    if ended then Parsed(assigns, rest)
    else if rest == [] then Parsed(assigns, [])
    else After(assigns, [rest[0]], Permuted(flags, rest[1..]))
  }

  /** Parses flags before, between and behind the positionals. */
  method ParsePermuted(flags: Flags, args: seq<string>) returns (o: Outcome)
    ensures o == Scan(flags, args) <==> !Misread(flags, args)
  {
    PermutedIsScan(flags, args);
    var assigns: seq<Assign>, positional: seq<string> := [], [];
    var left := args;
    assert After([], [], Permuted(flags, args)) == Permuted(flags, args);
    while |left| > 0
      invariant Permuted(flags, args) == After(assigns, positional, Permuted(flags, left))
      decreases |left|
    {
      var parsed := Parse(flags, left);
      if parsed.Rejected? {
        return Failed(parsed.at);
      }
      AfterAfter(assigns, positional, parsed.assigns, if parsed.rest == [] then [] else [parsed.rest[0]],
                 if parsed.rest == [] then Parsed([], []) else Permuted(flags, parsed.rest[1..]));
      assigns := assigns + parsed.assigns;                  // the flag set keeps what it parsed
      var rest := parsed.rest;
      var n := |left| - |rest|;
      if n > 0 && left[n - 1] == "--" {
        return Parsed(assigns, positional + rest);
      }
      left := rest;
      if |left| == 0 {
        break;
      }
      positional := positional + [left[0]];
      left := left[1..];
    }
    return Parsed(assigns, positional);
  }

  lemma AfterAfter(a: seq<Assign>, p: seq<string>, b: seq<Assign>, q: seq<string>, o: Outcome)
    ensures After(a, p, After(b, q, o)) == After(a + b, p + q, o)
  {
    if o.Parsed? {
      assert a + (b + o.assigns) == a + b + o.assigns;
      assert p + (q + o.positional) == p + q + o.positional;
    }
  }

  lemma {:induction false} PlainScan(flags: Flags, args: seq<string>)
    ensures Scan(flags, args) == Parsed([], args) <==> AllPlain(args)
    decreases |args|
  {
    if args != [] {
      if IsPlain(args[0]) {
        PlainScan(flags, args[1..]);
        assert args == [args[0]] + args[1..];
        assert forall i | 0 < i < |args| :: args[i] == args[1..][i - 1];
        var o := Scan(flags, args[1..]);
        if o.Parsed? && [args[0]] + o.positional == args {
          assert o.positional == args[1..];
        }
      } else if ParseOne(flags, args).Set? {
        var o := Scan(flags, args[ParseOne(flags, args).used..]);
      }
    }
  }

  /** The loop agrees with the scan exactly where no boundary is misread. */
  lemma {:induction false} PermutedIsScan(flags: Flags, args: seq<string>)
    ensures Permuted(flags, args) == Scan(flags, args) <==> !Misread(flags, args)
    decreases |args|
  {
    if args != [] {
      Unfold(flags, args);
      var r := ParseOne(flags, args);
      match r {
        case Stop =>
          PermutedIsScan(flags, args[1..]);
          AfterCancels([], [args[0]], Permuted(flags, args[1..]), Scan(flags, args[1..]));
        case Terminator =>
        case Bad =>
        case Set(a, used) =>
          var rest := args[used..];
          if args[used - 1] == "--" && rest != [] && IsPlain(rest[0]) {
            PlainScan(flags, rest);
            AfterCancels([a], [], Parsed([], rest), Scan(flags, rest));
          } else {
            PermutedIsScan(flags, rest);
            AfterCancels([a], [], Permuted(flags, rest), Scan(flags, rest));
          }
      }
    }
  }

  lemma AfterCancels(a: seq<Assign>, p: seq<string>, x: Outcome, y: Outcome)
    ensures After(a, p, x) == After(a, p, y) <==> x == y
  {
    if x.Parsed? && y.Parsed? && After(a, p, x) == After(a, p, y) {
      assert x.assigns == (a + x.assigns)[|a|..] && y.assigns == (a + y.assigns)[|a|..];
      assert x.positional == (p + x.positional)[|p|..] && y.positional == (p + y.positional)[|p|..];
    }
  }

  /** One step of the loop, seen from the first argument. */
  function Unfolded(flags: Flags, args: seq<string>): Outcome
    requires args != []
  {
    match ParseOne(flags, args)
    case Stop => After([], [args[0]], Permuted(flags, args[1..]))
    case Terminator => Parsed([], args[1..])
    case Bad => Failed(|args|)
    case Set(a, used) =>
      var rest := args[used..];
      if args[used - 1] == "--" && rest != [] && IsPlain(rest[0]) then After([a], [], Parsed([], rest))
      else After([a], [], Permuted(flags, rest))
  }

  lemma Unfold(flags: Flags, args: seq<string>)
    requires args != []
    ensures Permuted(flags, args) == Unfolded(flags, args)
  {
    match ParseOne(flags, args) {
      case Stop =>
      case Terminator =>
      case Bad =>
      case Set(a, used) => UnfoldSet(flags, args, a, used);
    }
  }

  lemma UnfoldSet(flags: Flags, args: seq<string>, a: Assign, used: nat)
    requires ParseOne(flags, args) == Set(a, used)
    ensures Permuted(flags, args) == Unfolded(flags, args)
  {
    var rest := args[used..];
    var parsed := Parse(flags, rest);
    if parsed.Done? {
      ContinuedMore(flags, a, parsed.assigns, AtTerminator(args, parsed.rest), parsed.rest);
      if |parsed.rest| < |rest| {
        BoundaryInside(args, used, parsed.rest);
        StoppedEarlier(flags, rest);
      } else {
        NothingParsed(flags, rest);
        assert AtTerminator(args, rest) <==> args[used - 1] == "--";
        assert !AtTerminator(rest, rest);
        if rest != [] {
          assert Continued(flags, [], true, rest) == Parsed([], rest);
        } else {
          assert Continued(flags, [], true, rest) == Continued(flags, [], false, rest);
        }
      }
    }
  }

  lemma ContinuedMore(flags: Flags, a: Assign, assigns: seq<Assign>, ended: bool, rest: seq<string>)
    ensures Continued(flags, [a] + assigns, ended, rest) == After([a], [], Continued(flags, assigns, ended, rest))
  {
    assert [] + rest == rest;
    if !ended && rest != [] {
      AfterAfter([a], [], assigns, [rest[0]], Permuted(flags, rest[1..]));
      assert [] + [rest[0]] == [rest[0]];
    }
  }

  lemma BoundaryInside(args: seq<string>, used: nat, rest: seq<string>)
    requires used + |rest| < |args|
    ensures AtTerminator(args, rest) == AtTerminator(args[used..], rest)
  {
    var n := |args| - |rest|;
    assert args[n - 1] == args[used..][n - used - 1];
  }

  lemma NothingParsed(flags: Flags, args: seq<string>)
    requires Parse(flags, args).Done? && |Parse(flags, args).rest| == |args|
    ensures Parse(flags, args) == Done([], args) && (args != [] ==> IsPlain(args[0]))
  {
  }

  lemma StoppedEarlier(flags: Flags, args: seq<string>)
    requires Parse(flags, args).Done? && |Parse(flags, args).rest| < |args|
    ensures !IsPlain(args[0])
  {
  }

  // ---------------------------------------------------------------- what the reference says

  /** Positionals in front, then the terminator: everything behind it is positional, dashes and all. */
  lemma {:induction false} TerminatorEndsFlags(flags: Flags, front: seq<string>, back: seq<string>)
    requires AllPlain(front)
    ensures Scan(flags, front + ["--"] + back) == Parsed([], front + back)
  {
    var args := front + ["--"] + back;
    if front == [] {
      assert args[0] == "--" && args[1..] == back;
      assert front + back == back;
    } else {
      TerminatorEndsFlags(flags, front[1..], back);
      assert args[1..] == front[1..] + ["--"] + back;
      assert args[0] == front[0] && IsPlain(front[0]);
      assert [front[0]] + (front[1..] + back) == front + back;
    }
  }

  /** A flag's name: what stands behind the dashes. */
  ghost predicate IsFlagName(name: string) {
    name != "" && name[0] != '-' && '=' !in name
  }

  /** A flag in front, with its value behind an equals sign, is assigned before the others. */
  lemma JoinedFlagIsAssigned(flags: Flags, name: string, value: string, args: seq<string>)
    requires IsFlagName(name) && name in flags.takesValue && flags.takesValue[name] && flags.accepts(name, value)
    requires args != [] && args[0] == "--" + name + "=" + value && Scan(flags, args[1..]).Parsed?
    ensures var o := Scan(flags, args[1..]);
            Scan(flags, args) == Parsed([Assign(name, value)] + o.assigns, o.positional)
  {
    var text := name + "=" + value;
    assert args[0][2..] == text && text[..|name|] == name && text[|name| + 1..] == value;
    assert text[0] == name[0] != '=';
    EqualsBehind(name, value);
    assert ParseOne(flags, args) == Set(Assign(name, value), 1);
  }

  /** And so is one with its value in the next argument. */
  lemma FlagIsAssigned(flags: Flags, name: string, value: string, args: seq<string>)
    requires IsFlagName(name) && name in flags.takesValue && flags.takesValue[name] && flags.accepts(name, value)
    requires |args| >= 2 && args[0] == "--" + name && args[1] == value && Scan(flags, args[2..]).Parsed?
    ensures var o := Scan(flags, args[2..]);
            Scan(flags, args) == Parsed([Assign(name, value)] + o.assigns, o.positional)
  {
    assert args[0][2..] == name;
    NoEquals(name);
    assert ParseOne(flags, args) == Set(Assign(name, value), 2);
  }

  /** A switch takes no argument; given nothing else it is true. */
  lemma SwitchIsSet(flags: Flags, name: string, args: seq<string>)
    requires IsFlagName(name) && name in flags.takesValue && !flags.takesValue[name] && flags.accepts(name, "true")
    requires args != [] && args[0] == "--" + name && Scan(flags, args[1..]).Parsed?
    ensures var o := Scan(flags, args[1..]);
            Scan(flags, args) == Parsed([Assign(name, "true")] + o.assigns, o.positional)
  {
    assert args[0][2..] == name;
    NoEquals(name);
    assert ParseOne(flags, args) == Set(Assign(name, "true"), 1);
  }

  /** A flag the command does not define, or one left without its value, fails the whole command line. */
  lemma BadFlagFails(flags: Flags, name: string, rest: seq<string>)
    requires IsFlagName(name) && (name !in flags.takesValue || (flags.takesValue[name] && rest == []))
    ensures Scan(flags, ["--" + name] + rest).Failed?
  {
    var args := ["--" + name] + rest;
    assert args[0][2..] == name;
    NoEquals(name);
  }

  lemma {:induction false} EqualsBehind(name: string, value: string)
    requires '=' !in name
    ensures EqualsAt(name + "=" + value) == |name|
  {
    if name != "" {
      EqualsBehind(name[1..], value);
      assert (name + "=" + value)[1..] == name[1..] + "=" + value;
    }
  }

  /** A misread boundary makes positionals of everything behind it, flags included. */
  lemma MisreadBoundary(flags: Flags, args: seq<string>, a: Assign)
    requires |args| > 2 && args[1] == "--" && ParseOne(flags, args) == Set(a, 2)
    requires IsPlain(args[2]) && !AllPlain(args[2..])
    ensures Misread(flags, args)
    ensures Permuted(flags, args) == Parsed([a], args[2..])
    ensures Scan(flags, args) == After([a], [], Scan(flags, args[2..]))
  {
    Unfold(flags, args);
  }

  /** As with a seed of "--": `--seed -- x --json` reads --json as a positional. */
  lemma DashDashSeedMisread(flags: Flags, args: seq<string>)
    requires "seed" in flags.takesValue && flags.takesValue["seed"] && flags.accepts("seed", "--")
    requires args == ["--seed", "--", "x", "--json"]
    ensures Permuted(flags, args) == Parsed([Assign("seed", "--")], args[2..]) != Scan(flags, args)
  {
    SeedFirst(flags, args);
    assert args[2..][1] == "--json";
    MisreadBoundary(flags, args, Assign("seed", "--"));
    PermutedIsScan(flags, args);
  }

  lemma SeedFirst(flags: Flags, args: seq<string>)
    requires "seed" in flags.takesValue && flags.takesValue["seed"] && flags.accepts("seed", "--")
    requires |args| >= 2 && args[0] == "--seed" && args[1] == "--"
    ensures ParseOne(flags, args) == Set(Assign("seed", "--"), 2)
  {
    assert args[0][2..] == "seed";
    NoEquals("seed");
  }

  lemma {:induction false} NoEquals(s: string)
    requires '=' !in s
    ensures EqualsAt(s) == -1
  {
    if s != "" {
      NoEquals(s[1..]);
    }
  }
}
