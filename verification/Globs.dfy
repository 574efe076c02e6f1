/**
 Candidate globs (internal/leak/glob.go): slash-separated patterns whose "**"
 segments stand for any run of path segments. How one ordinary segment is
 matched and how a path is cleaned belong to the path library, and are
 parameters here.
 */
module Globs {
  import opened Wrappers

  /** path.Match on one segment (None: malformed pattern) and path.Clean. */
  datatype Lib = Lib(matches: (string, string) -> Option<bool>, clean: string -> string)

  datatype Glob = Glob(src: string, segs: seq<string>)

  const ANY := "**"

  // ---------------------------------------------------------------- segments

  /** strings.Split on a slash. */
  function Split(name: string): (segs: seq<string>)
    ensures segs != []
  {
    if name == [] then [[]]
    else
      var rest := Split(name[1..]);
      if name[0] == '/' then [[]] + rest
      else [[name[0]] + rest[0]] + rest[1..]
  }

  function Join(segs: seq<string>): string
    requires segs != []
  {
    if |segs| == 1 then segs[0] else segs[0] + "/" + Join(segs[1..])
  }

  /** Splitting loses nothing and leaves no slash inside a segment. */
  lemma {:induction false} SplitJoins(name: string)
    ensures Join(Split(name)) == name
    ensures forall i | 0 <= i < |Split(name)| :: '/' !in Split(name)[i]
  {
    if name != [] {
      SplitJoins(name[1..]);
      var rest := Split(name[1..]);
      assert name == [name[0]] + name[1..];
      if name[0] == '/' {
        assert ([[]] + rest)[1..] == rest;
      } else {
        var segs := Split(name);
        assert segs == [[name[0]] + rest[0]] + rest[1..];
        assert segs[1..] == rest[1..];
        forall i | 0 <= i < |segs|
          ensures '/' !in segs[i]
        {
          if i > 0 {
            assert segs[i] == rest[i];
          }
        }
      }
    }
  }

  // ---------------------------------------------------------------- matching

  /** Tries the empty run for a "**" first, then lets it take one more segment. */
  function MatchSegs(lib: Lib, pat: seq<string>, name: seq<string>): bool
    decreases |pat| + |name|
  {
    if pat == [] then name == []
    else if pat[0] == ANY then
      MatchSegs(lib, pat[1..], name) || (name != [] && MatchSegs(lib, pat, name[1..]))
    else if name == [] then false
    else if lib.matches(pat[0], name[0]) != Some(true) then false
    else MatchSegs(lib, pat[1..], name[1..])
  }

  /** What one pattern segment may stand for. */
  ghost predicate Fits(lib: Lib, seg: string, run: seq<string>) {
    seg == "**" || (|run| == 1 && lib.matches(seg, run[0]) == Some(true))
  }

  function Concat(runs: seq<seq<string>>): seq<string> {
    if runs == [] then [] else runs[0] + Concat(runs[1..])
  }

  /** The name cut into one run per pattern segment, each fitting its own. */
  ghost predicate LinesUp(lib: Lib, pat: seq<string>, runs: seq<seq<string>>, name: seq<string>) {
    && |runs| == |pat|
    && Concat(runs) == name
    && forall i | 0 <= i < |pat| :: Fits(lib, pat[i], runs[i])
  }

  ghost predicate CanLineUp(lib: Lib, pat: seq<string>, name: seq<string>) {
    exists runs :: LinesUp(lib, pat, runs, name)
  }

  /** The backtracking search accepts exactly the names that can be lined up with the pattern. */
  lemma MatchMeansLinesUp(lib: Lib, pat: seq<string>, name: seq<string>)
    ensures MatchSegs(lib, pat, name) <==> CanLineUp(lib, pat, name)
  {
    if MatchSegs(lib, pat, name) {
      var runs := RunsOf(lib, pat, name);
      assert LinesUp(lib, pat, runs, name);
    }
    forall runs | LinesUp(lib, pat, runs, name)
      ensures MatchSegs(lib, pat, name)
    {
      LinedUpMatches(lib, pat, runs, name);
    }
  }

  lemma {:induction false} RunsOf(lib: Lib, pat: seq<string>, name: seq<string>) returns (runs: seq<seq<string>>)
    requires MatchSegs(lib, pat, name)
    ensures LinesUp(lib, pat, runs, name)
    decreases |pat| + |name|
  {
    if pat == [] {
      runs := [];
    } else if pat[0] == ANY && !MatchSegs(lib, pat[1..], name) {
      var more := RunsOf(lib, pat, name[1..]);
      runs := [[name[0]] + more[0]] + more[1..];
      assert runs[1..] == more[1..];
      assert Concat(runs) == [name[0]] + Concat(more);
      forall i | 0 <= i < |pat|
        ensures Fits(lib, pat[i], runs[i])
      {
        if i > 0 {
          assert runs[i] == more[i];
        }
      }
    } else {
      var first := if pat[0] == ANY then [] else [name[0]];
      var rest := RunsOf(lib, pat[1..], name[|first|..]);
      runs := [first] + rest;
      assert runs[1..] == rest;
      assert name == first + name[|first|..];
      forall i | 0 <= i < |pat|
        ensures Fits(lib, pat[i], runs[i])
      {
        if i > 0 {
          assert Fits(lib, pat[1..][i - 1], rest[i - 1]);
        }
      }
    }
  }

  lemma {:induction false} LinedUpMatches(lib: Lib, pat: seq<string>, runs: seq<seq<string>>, name: seq<string>)
    requires LinesUp(lib, pat, runs, name)
    ensures MatchSegs(lib, pat, name)
    decreases |pat| + |name|
  {
    if pat != [] {
      assert Fits(lib, pat[0], runs[0]);
      if pat[0] == ANY && runs[0] != [] {
        var fewer := [runs[0][1..]] + runs[1..];
        assert fewer[1..] == runs[1..];
        assert name == runs[0] + Concat(runs[1..]);
        assert name[1..] == Concat(fewer);
        forall i | 0 <= i < |pat|
          ensures Fits(lib, pat[i], fewer[i])
        {
          if i > 0 {
            assert fewer[i] == runs[i];
          }
        }
        LinedUpMatches(lib, pat, fewer, name[1..]);
      } else {
        assert name[|runs[0]|..] == Concat(runs[1..]);
        forall i | 0 <= i < |pat| - 1
          ensures Fits(lib, pat[1..][i], runs[1..][i])
        {
          assert Fits(lib, pat[i + 1], runs[i + 1]);
        }
        LinedUpMatches(lib, pat[1..], runs[1..], name[|runs[0]|..]);
      }
    }
  }

  // ---------------------------------------------------------------- consequences

  lemma {:induction false} ConcatSplits(a: seq<seq<string>>, b: seq<seq<string>>)
    ensures Concat(a + b) == Concat(a) + Concat(b)
  {
    if a == [] {
      assert a + b == b;
    } else {
      assert (a + b)[1..] == a[1..] + b;
      ConcatSplits(a[1..], b);
    }
  }

  /** Two patterns in a row match what can be cut in two, one half for each. */
  lemma PatternsInARow(lib: Lib, p: seq<string>, q: seq<string>, name: seq<string>)
    ensures MatchSegs(lib, p + q, name) <==>
            exists k | 0 <= k <= |name| :: MatchSegs(lib, p, name[..k]) && MatchSegs(lib, q, name[k..])
  {
    if MatchSegs(lib, p + q, name) {
      var k := CutBetween(lib, p, q, name);
    }
    forall k | 0 <= k <= |name| && MatchSegs(lib, p, name[..k]) && MatchSegs(lib, q, name[k..])
      ensures MatchSegs(lib, p + q, name)
    {
      assert name[..k] + name[k..] == name;
      MatchesJoin(lib, p, q, name[..k], name[k..]);
    }
  }

  lemma CutBetween(lib: Lib, p: seq<string>, q: seq<string>, name: seq<string>) returns (k: nat)
    requires MatchSegs(lib, p + q, name)
    ensures k <= |name| && MatchSegs(lib, p, name[..k]) && MatchSegs(lib, q, name[k..])
  {
    var runs := RunsOf(lib, p + q, name);
    var a, b := runs[..|p|], runs[|p|..];
    assert runs == a + b;
    ConcatSplits(a, b);
    k := |Concat(a)|;
    assert Concat(a) == name[..k] && Concat(b) == name[k..];
    FitsSplit(lib, p, q, a, b);
    LinedUpMatches(lib, p, a, name[..k]);
    LinedUpMatches(lib, q, b, name[k..]);
  }

  lemma MatchesJoin(lib: Lib, p: seq<string>, q: seq<string>, front: seq<string>, back: seq<string>)
    requires MatchSegs(lib, p, front) && MatchSegs(lib, q, back)
    ensures MatchSegs(lib, p + q, front + back)
  {
    var a := RunsOf(lib, p, front);
    var b := RunsOf(lib, q, back);
    ConcatSplits(a, b);
    FitsSplit(lib, p, q, a, b);
    LinedUpMatches(lib, p + q, a + b, front + back);
  }

  lemma FitsSplit(lib: Lib, p: seq<string>, q: seq<string>, a: seq<seq<string>>, b: seq<seq<string>>)
    requires |a| == |p| && |b| == |q|
    ensures (forall i | 0 <= i < |p + q| :: Fits(lib, (p + q)[i], (a + b)[i])) <==>
      (forall i | 0 <= i < |p| :: Fits(lib, p[i], a[i])) && (forall i | 0 <= i < |q| :: Fits(lib, q[i], b[i]))
  {
    assert forall i | 0 <= i < |p| :: (p + q)[i] == p[i] && (a + b)[i] == a[i];
    assert forall i | 0 <= i < |q| :: (p + q)[|p| + i] == q[i] && (a + b)[|p| + i] == b[i];
  }

  lemma {:induction false} AnyMatchesAll(lib: Lib, name: seq<string>)
    ensures MatchSegs(lib, [ANY], name)
  {
    if name != [] {
      AnyMatchesAll(lib, name[1..]);
    }
  }

  /** A second "**" next to the first changes nothing. */
  lemma AdjacentAnyCollapses(lib: Lib, p: seq<string>, q: seq<string>, name: seq<string>)
    ensures MatchSegs(lib, p + [ANY, ANY] + q, name) == MatchSegs(lib, p + [ANY] + q, name)
  {
    forall rest: seq<string>
      ensures MatchSegs(lib, [ANY, ANY], rest) && MatchSegs(lib, [ANY], rest)
    {
      AnyMatchesAll(lib, rest);
      assert [ANY, ANY][1..] == [ANY];
    }
    PatternsInARow(lib, p + [ANY, ANY], q, name);
    PatternsInARow(lib, p + [ANY], q, name);
    forall k | 0 <= k <= |name|
      ensures MatchSegs(lib, p + [ANY, ANY], name[..k]) == MatchSegs(lib, p + [ANY], name[..k])
    {
      PatternsInARow(lib, p, [ANY, ANY], name[..k]);
      PatternsInARow(lib, p, [ANY], name[..k]);
    }
  }

  /** One segment in front of "**" matches what is under a matching directory, and the directory itself. */
  lemma UnderDirectory(lib: Lib, dir: string, name: seq<string>)
    requires dir != ANY
    ensures MatchSegs(lib, [dir, ANY], name) <==> name != [] && lib.matches(dir, name[0]) == Some(true)
  {
    assert [dir, ANY][1..] == [ANY];
    if name != [] {
      AnyMatchesAll(lib, name[1..]);
    }
  }

  // ---------------------------------------------------------------- compiling

  predicate HasAny(seg: string) {
    exists i | 0 <= i < |seg| - 1 :: seg[i] == '*' && seg[i + 1] == '*'
  }

  /** That is, the two stars somewhere in it. */
  lemma HasAnyMeans(seg: string)
    ensures HasAny(seg) <==> exists a, b :: seg == a + "**" + b
  {
    if HasAny(seg) {
      var i :| 0 <= i < |seg| - 1 && seg[i] == '*' && seg[i + 1] == '*';
      assert seg == seg[..i] + "**" + seg[i + 2..];
    }
    forall a, b | seg == a + "**" + b
      ensures HasAny(seg)
    {
      assert seg[|a|] == '*' && seg[|a| + 1] == '*';
    }
  }

  /** A clean relative path whose "**" stand alone and whose other segments the library accepts. */
  ghost predicate Compilable(lib: Lib, pattern: string) {
    && pattern != "" && pattern == lib.clean(pattern) && pattern[0] != '/'
    && forall seg | seg in Split(pattern) :: seg == ANY || (!HasAny(seg) && lib.matches(seg, "").Some?)
  }

  method CompileGlob(lib: Lib, pattern: string) returns (g: Option<Glob>)
    ensures g.Some? <==> Compilable(lib, pattern)
    ensures g.Some? ==> g.value == Glob(pattern, Split(pattern))
  {
    if pattern == "" || pattern != lib.clean(pattern) || pattern[0] == '/' {
      return None;
    }
    var segs := Split(pattern);
    for i := 0 to |segs|
      invariant forall j | 0 <= j < i :: segs[j] == ANY || (!HasAny(segs[j]) && lib.matches(segs[j], "").Some?)
    {
      if segs[i] != ANY {
        if HasAny(segs[i]) || lib.matches(segs[i], "").None? {
          return None;
        }
      }
    }
    return Some(Glob(pattern, segs));
  }
}
