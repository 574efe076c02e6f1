/**
 What a candidate may see (internal/leak/leak.go): fail-closed classification
 of one path, and of a whole tree in one walk. A tree is the list of entries
 a walk visits; `broken` are the paths a particular walk could not look at.
 */
module Leak {
  import opened Wrappers
  import opened Order
  import opened Globs

  datatype Class = InterviewerOnly | CandidateVisible

  const PROTECTED_DIRS: seq<string> := ["interviewer", "faults"]
  const PROTECTED_FILES: seq<string> := ["env.yaml", "review.yaml", "problem.yaml"]

  datatype Classifier = Classifier(candidate: seq<Glob>)

  /** linked: more than one name on disk, or no way to tell. */
  datatype Entry =
    | Dir(path: string)
    | File(path: string, regular: bool, linked: bool, data: string)

  datatype Scan = Scan(candidate: seq<string>, interviewer: seq<string>, unmatched: seq<string>, irregular: seq<string>)

  // ---------------------------------------------------------------- names

  predicate IsAscii(s: string) {
    forall i | 0 <= i < |s| :: s[i] < 128 as char
  }

  function Fold(c: char): char {
    if 'A' <= c <= 'Z' then c + 32 as char else c
  }

  /** strings.EqualFold between ASCII strings. */
  predicate EqualFold(a: string, b: string) {
    |a| == |b| && forall i | 0 <= i < |a| :: Fold(a[i]) == Fold(b[i])
  }

  predicate IsProtectedName(seg: string, names: seq<string>) {
    !IsAscii(seg) || exists i | 0 <= i < |names| :: EqualFold(seg, names[i])
  }

  predicate Protected(lib: Lib, name: string) {
    var segs := Split(lib.clean(name));
    var last := segs[|segs| - 1];
    if exists i | 0 <= i < |segs| - 1 :: IsProtectedName(segs[i], PROTECTED_DIRS) then true
    else if IsProtectedName(last, PROTECTED_DIRS) then true
    else |segs| == 1 && IsProtectedName(last, PROTECTED_FILES)
  }

  /** The name letter by letter, each letter small or capital. */
  ghost predicate InAnyCase(seg: string, name: string) {
    |seg| == |name|
    && forall i | 0 <= i < |name| ::
         seg[i] == name[i] || ('a' <= name[i] <= 'z' && seg[i] as int == name[i] as int - 32)
  }

  /** Folding is exactly that, for a name without capitals. */
  lemma FoldsInAnyCase(seg: string, name: string)
    requires forall i | 0 <= i < |name| :: !('A' <= name[i] <= 'Z')
    ensures EqualFold(seg, name) <==> InAnyCase(seg, name)
  {
  }

  ghost predicate HasWideChar(s: string) {
    exists i | 0 <= i < |s| :: s[i] as int >= 128
  }

  /** A segment nobody may publish: not plain ASCII, or a protected directory's name in any case. */
  ghost predicate Unpublishable(seg: string) {
    HasWideChar(seg) || InAnyCase(seg, "interviewer") || InAnyCase(seg, "faults")
  }

  /** A path is protected exactly when some segment is unpublishable, at any depth, or it is a root spec file. */
  lemma ProtectedMeans(lib: Lib, name: string)
    ensures var segs := Split(lib.clean(name));
            Protected(lib, name) <==>
              || (exists seg | seg in segs :: Unpublishable(seg))
              || (|segs| == 1 && (InAnyCase(segs[0], "env.yaml") || InAnyCase(segs[0], "review.yaml")
                                  || InAnyCase(segs[0], "problem.yaml")))
  {
    var segs := Split(lib.clean(name));
    SomeSegmentProtected(lib, name);
    FilesSpelled(segs[0]);
    forall seg | seg in segs
      ensures IsProtectedName(seg, PROTECTED_DIRS) <==> Unpublishable(seg)
    {
      DirsSpelled(seg);
    }
    assert |segs| == 1 && HasWideChar(segs[0]) ==> Unpublishable(segs[0]);
  }

  lemma SomeSegmentProtected(lib: Lib, name: string)
    ensures var segs := Split(lib.clean(name));
            Protected(lib, name) <==>
              || (exists seg | seg in segs :: IsProtectedName(seg, PROTECTED_DIRS))
              || (|segs| == 1 && IsProtectedName(segs[0], PROTECTED_FILES))
  {
    var segs := Split(lib.clean(name));
    if exists seg | seg in segs :: IsProtectedName(seg, PROTECTED_DIRS) {
      var i :| 0 <= i < |segs| && IsProtectedName(segs[i], PROTECTED_DIRS);
      assert Protected(lib, name);
    }
  }

  lemma DirsSpelled(seg: string)
    ensures IsProtectedName(seg, PROTECTED_DIRS) <==> Unpublishable(seg)
  {
    Spelled(seg, PROTECTED_DIRS);
    FoldsInAnyCase(seg, "interviewer");
    FoldsInAnyCase(seg, "faults");
  }

  lemma FilesSpelled(seg: string)
    ensures IsProtectedName(seg, PROTECTED_FILES) <==>
      || HasWideChar(seg) || InAnyCase(seg, "env.yaml") || InAnyCase(seg, "review.yaml")
      || InAnyCase(seg, "problem.yaml")
  {
    Spelled(seg, PROTECTED_FILES);
    FoldsInAnyCase(seg, "env.yaml");
    FoldsInAnyCase(seg, "review.yaml");
    FoldsInAnyCase(seg, "problem.yaml");
  }

  lemma Spelled(seg: string, names: seq<string>)
    requires 2 <= |names| <= 3
    ensures IsProtectedName(seg, names) <==>
      || !IsAscii(seg) || EqualFold(seg, names[0]) || EqualFold(seg, names[1])
      || (|names| == 3 && EqualFold(seg, names[2]))
  {
  }

  // ---------------------------------------------------------------- classifying one path

  predicate Matches(lib: Lib, g: Glob, name: string) {
    MatchSegs(lib, g.segs, Split(lib.clean(name)))
  }

  function Classify(lib: Lib, c: Classifier, name: string): Class {
    if Protected(lib, lib.clean(name)) then InterviewerOnly
    else if exists i | 0 <= i < |c.candidate| :: Matches(lib, c.candidate[i], name) then CandidateVisible
    else InterviewerOnly
  }

  /** Cleaning a clean path changes nothing, as the path library promises. */
  ghost predicate CleanIsIdempotent(lib: Lib) {
    forall name :: lib.clean(lib.clean(name)) == lib.clean(name)
  }

  /** Visible takes both: no unpublishable segment anywhere, and a glob the path lines up with. */
  lemma VisibleMeans(lib: Lib, c: Classifier, name: string)
    requires CleanIsIdempotent(lib)
    ensures var segs := Split(lib.clean(name));
            Classify(lib, c, name).CandidateVisible? <==>
              && !Protected(lib, name)
              && exists i, runs | 0 <= i < |c.candidate| :: LinesUp(lib, c.candidate[i].segs, runs, segs)
    ensures Classify(lib, c, name).CandidateVisible? ==>
              forall seg | seg in Split(lib.clean(name)) :: !Unpublishable(seg)
  {
    var segs := Split(lib.clean(name));
    ProtectedMeans(lib, name);
    forall i | 0 <= i < |c.candidate|
      ensures Matches(lib, c.candidate[i], name) <==> exists runs :: LinesUp(lib, c.candidate[i].segs, runs, segs)
    {
      MatchMeansLinesUp(lib, c.candidate[i].segs, segs);
    }
  }

  ghost predicate Acceptable(lib: Lib, pattern: string) {
    Compilable(lib, pattern) && forall seg | seg in Split(pattern) :: !IsProtectedName(seg, PROTECTED_DIRS)
  }

  /** Compiles the manifest's globs, refusing any that spells out a protected directory. */
  method NewClassifier(lib: Lib, globs: seq<string>) returns (c: Option<Classifier>)
    ensures c.Some? <==> forall i | 0 <= i < |globs| :: Acceptable(lib, globs[i])
    ensures c.Some? ==> |c.value.candidate| == |globs|
                        && forall i | 0 <= i < |globs| :: c.value.candidate[i] == Glob(globs[i], Split(globs[i]))
  {
    var candidate: seq<Glob> := [];
    for i := 0 to |globs|
      invariant |candidate| == i
      invariant forall j | 0 <= j < i :: Acceptable(lib, globs[j])
      invariant forall j | 0 <= j < i :: candidate[j] == Glob(globs[j], Split(globs[j]))
    {
      var g := CompileGlob(lib, globs[i]);
      if g.None? {
        return None;
      }
      for k := 0 to |g.value.segs|
        invariant forall j | 0 <= j < k :: !IsProtectedName(g.value.segs[j], PROTECTED_DIRS)
      {
        if IsProtectedName(g.value.segs[k], PROTECTED_DIRS) {
          assert g.value.segs[k] in Split(globs[i]);
          assert !Acceptable(lib, globs[i]);
          return None;
        }
      }
      candidate := candidate + [g.value];
    }
    return Some(Classifier(candidate));
  }

  /** The lists it accepts: every glob compiles, and none has an unpublishable segment. */
  lemma AcceptableMeans(lib: Lib, pattern: string)
    ensures Acceptable(lib, pattern) <==>
      Compilable(lib, pattern) && forall seg | seg in Split(pattern) :: !Unpublishable(seg)
  {
    forall seg | seg in Split(pattern)
      ensures IsProtectedName(seg, PROTECTED_DIRS) <==> Unpublishable(seg)
    {
      DirsSpelled(seg);
    }
  }

  /** Refusing a glob that spells out a protected directory withholds nothing: every path it matches is protected. */
  lemma RefusedGlobsLoseNothing(lib: Lib, pat: seq<string>, seg: string, name: string)
    requires seg in pat && (InAnyCase(seg, "interviewer") || InAnyCase(seg, "faults"))
    requires forall x :: lib.matches(seg, x) == Some(true) ==> x == seg           // no wildcard in seg
    requires MatchSegs(lib, pat, Split(lib.clean(name)))
    ensures Protected(lib, name)
  {
    var segs := Split(lib.clean(name));
    var runs := RunsOf(lib, pat, segs);
    var i :| 0 <= i < |pat| && pat[i] == seg;
    assert Fits(lib, pat[i], runs[i]);
    assert |seg| != 2;
    InConcat(runs, i, 0);
    assert segs[|Concat(runs[..i])|] == seg;
    assert Unpublishable(seg);
    ProtectedMeans(lib, name);
  }

  lemma {:induction false} InConcat(runs: seq<seq<string>>, i: nat, j: nat)
    requires i < |runs| && j < |runs[i]|
    ensures |Concat(runs[..i])| + j < |Concat(runs)|
    ensures Concat(runs)[|Concat(runs[..i])| + j] == runs[i][j]
  {
    if i > 0 {
      InConcat(runs[1..], i - 1, j);
      assert runs[..i][1..] == runs[1..][..i - 1];
    }
  }

  // ---------------------------------------------------------------- scanning a tree

  ghost predicate DistinctPaths(tree: seq<Entry>) {
    forall i, j | 0 <= i < j < |tree| :: tree[i].path != tree[j].path
  }

  /** A file the scan will not vouch for by path alone. */
  predicate Irregular(e: Entry)
    requires e.File?
  {
    !e.regular || e.linked || !IsAscii(e.path)
  }

  /** The files the globs are tried on. */
  predicate Considered(lib: Lib, e: Entry) {
    e.File? && !Irregular(e) && !Protected(lib, e.path)
  }

  predicate IsCandidate(lib: Lib, c: Classifier, e: Entry) {
    Considered(lib, e) && exists i | 0 <= i < |c.candidate| :: Matches(lib, c.candidate[i], e.path)
  }

  function CandidatePaths(lib: Lib, c: Classifier, tree: seq<Entry>, n: nat): set<string>
    requires n <= |tree|
  {
    set j | 0 <= j < n && IsCandidate(lib, c, tree[j]) :: tree[j].path
  }

  function WithheldPaths(lib: Lib, c: Classifier, tree: seq<Entry>, n: nat): set<string>
    requires n <= |tree|
  {
    set j | 0 <= j < n && tree[j].File? && !IsCandidate(lib, c, tree[j]) :: tree[j].path
  }

  /** The paths of irregular files, in walk order. */
  function IrregularPaths(tree: seq<Entry>, n: nat): seq<string>
    requires n <= |tree|
  {
    if n == 0 then []
    else if tree[n - 1].File? && Irregular(tree[n - 1]) then IrregularPaths(tree, n - 1) + [tree[n - 1].path]
    else IrregularPaths(tree, n - 1)
  }

  /** Some file the globs were tried on matches this one. */
  ghost predicate MatchedBy(lib: Lib, g: Glob, tree: seq<Entry>, n: nat)
    requires n <= |tree|
  {
    exists j | 0 <= j < n :: Considered(lib, tree[j]) && Matches(lib, g, tree[j].path)
  }

  /** The sources of the first k globs that match nothing. */
  ghost function UnmatchedGlobs(lib: Lib, globs: seq<Glob>, tree: seq<Entry>, k: nat): seq<string>
    requires k <= |globs|
  {
    if k == 0 then []
    else if MatchedBy(lib, globs[k - 1], tree, |tree|) then UnmatchedGlobs(lib, globs, tree, k - 1)
    else UnmatchedGlobs(lib, globs, tree, k - 1) + [globs[k - 1].src]
  }

  ghost predicate IsScanOf(lib: Lib, c: Classifier, tree: seq<Entry>, s: Scan) {
    && Sorted(s.candidate) && Elems(s.candidate) == CandidatePaths(lib, c, tree, |tree|)
    && Sorted(s.interviewer) && Elems(s.interviewer) == WithheldPaths(lib, c, tree, |tree|)
    && s.irregular == IrregularPaths(tree, |tree|)
    && s.unmatched == UnmatchedGlobs(lib, c.candidate, tree, |c.candidate|)
  }

  ghost predicate Walkable(tree: seq<Entry>, broken: set<string>) {
    forall i | 0 <= i < |tree| :: tree[i].path !in broken
  }

  /** Tries every glob on one path, marking the ones that match. */
  method TryGlobs(lib: Lib, c: Classifier, name: string, matched: array<bool>) returns (hit: bool)
    requires matched.Length == |c.candidate|
    modifies matched
    ensures hit <==> exists i | 0 <= i < |c.candidate| :: Matches(lib, c.candidate[i], name)
    ensures forall i | 0 <= i < |c.candidate| :: matched[i] == (old(matched[i]) || Matches(lib, c.candidate[i], name))
  {
    var segs := Split(lib.clean(name));
    hit := false;
    for i := 0 to |c.candidate|
      invariant hit <==> exists j | 0 <= j < i :: Matches(lib, c.candidate[j], name)
      invariant forall j | 0 <= j < i :: matched[j] == (old(matched[j]) || Matches(lib, c.candidate[j], name))
      invariant forall j | i <= j < |c.candidate| :: matched[j] == old(matched[j])
    {
      if MatchSegs(lib, c.candidate[i].segs, segs) {
        hit := true;
        matched[i] := true;
      }
    }
  }

  datatype Verdict = NotAFile | Odd | Withheld | Shown

  /** Where one visited entry goes. */
  method Visit(lib: Lib, c: Classifier, e: Entry, matched: array<bool>) returns (v: Verdict)
    requires matched.Length == |c.candidate|
    modifies matched
    ensures v.NotAFile? <==> e.Dir?
    ensures v.Odd? <==> e.File? && Irregular(e)
    ensures v.Shown? <==> IsCandidate(lib, c, e)
    ensures forall i | 0 <= i < |c.candidate| ::
      matched[i] == (old(matched[i]) || (Considered(lib, e) && Matches(lib, c.candidate[i], e.path)))
  {
    if e.Dir? {
      return NotAFile;
    }
    if !e.regular || e.linked || !IsAscii(e.path) {
      return Odd;
    }
    if Protected(lib, e.path) {
      return Withheld;
    }
    var hit := TryGlobs(lib, c, e.path, matched);
    return if hit then Shown else Withheld;
  }

  method ListUnmatched(lib: Lib, c: Classifier, ghost tree: seq<Entry>, matched: array<bool>)
    returns (unmatched: seq<string>)
    requires matched.Length == |c.candidate|
    requires forall i | 0 <= i < |c.candidate| :: matched[i] <==> MatchedBy(lib, c.candidate[i], tree, |tree|)
    ensures unmatched == UnmatchedGlobs(lib, c.candidate, tree, |c.candidate|)
  {
    unmatched := [];
    for k := 0 to |c.candidate|
      invariant unmatched == UnmatchedGlobs(lib, c.candidate, tree, k)
    {
      if !matched[k] {
        unmatched := unmatched + [c.candidate[k].src];
      }
    }
  }

  /** Walks the tree once and classifies every file. */
  method ScanTree(lib: Lib, c: Classifier, tree: seq<Entry>, broken: set<string>) returns (s: Option<Scan>)
    requires DistinctPaths(tree)
    ensures s.Some? <==> Walkable(tree, broken)
    ensures s.Some? ==> IsScanOf(lib, c, tree, s.value)
  {
    var matched := new bool[|c.candidate|](i => false);
    var candidate: seq<string>, interviewer: seq<string>, irregular: seq<string> := [], [], [];
    for n := 0 to |tree|
      invariant forall i | 0 <= i < n :: tree[i].path !in broken
      invariant Elems(candidate) == CandidatePaths(lib, c, tree, n)
      invariant Elems(interviewer) == WithheldPaths(lib, c, tree, n)
      invariant irregular == IrregularPaths(tree, n)
      invariant forall i | 0 <= i < |c.candidate| :: matched[i] <==> MatchedBy(lib, c.candidate[i], tree, n)
    {
      var e := tree[n];
      if e.path in broken {
        return None;
      }
      NextEntry(lib, c, tree, n, candidate, interviewer);
      var v := Visit(lib, c, e, matched);
      match v {
        case NotAFile =>
        case Odd =>
          irregular := irregular + [e.path];
          interviewer := interviewer + [e.path];
        case Withheld =>
          interviewer := interviewer + [e.path];
        case Shown =>
          candidate := candidate + [e.path];
      }
    }
    var unmatched := ListUnmatched(lib, c, tree, matched);
    s := Some(Scan(SortedKeys(Elems(candidate)), SortedKeys(Elems(interviewer)), unmatched, irregular));
  }

  lemma NextEntry(lib: Lib, c: Classifier, tree: seq<Entry>, n: nat, candidate: seq<string>, interviewer: seq<string>)
    requires n < |tree|
    ensures var e := tree[n];
            && CandidatePaths(lib, c, tree, n + 1)
               == CandidatePaths(lib, c, tree, n) + (if IsCandidate(lib, c, e) then {e.path} else {})
            && WithheldPaths(lib, c, tree, n + 1)
               == WithheldPaths(lib, c, tree, n) + (if e.File? && !IsCandidate(lib, c, e) then {e.path} else {})
            && Elems(candidate + [e.path]) == Elems(candidate) + {e.path}
            && Elems(interviewer + [e.path]) == Elems(interviewer) + {e.path}
  {
  }

  /** Every file of the tree is on exactly one of the two lists, on the right one. */
  lemma ScanPartitions(lib: Lib, c: Classifier, tree: seq<Entry>, s: Scan, i: nat)
    requires CleanIsIdempotent(lib) && DistinctPaths(tree) && IsScanOf(lib, c, tree, s)
    requires i < |tree| && tree[i].File?
    ensures tree[i].path in s.candidate <==>
              && tree[i].regular && !tree[i].linked && !HasWideChar(tree[i].path)
              && Classify(lib, c, tree[i].path).CandidateVisible?
    ensures tree[i].path in s.interviewer <==> tree[i].path !in s.candidate
    ensures tree[i].path in s.irregular <==> !tree[i].regular || tree[i].linked || HasWideChar(tree[i].path)
  {
    var p := tree[i].path;
    assert p in s.candidate <==> p in Elems(s.candidate);
    assert p in s.interviewer <==> p in Elems(s.interviewer);
    assert forall j | 0 <= j < |tree| && tree[j].path == p :: j == i;
    IrregularListed(tree, |tree|, i);
  }

  lemma {:induction false} IrregularListed(tree: seq<Entry>, n: nat, i: nat)
    requires n <= |tree| && i < |tree| && tree[i].File? && DistinctPaths(tree)
    ensures tree[i].path in IrregularPaths(tree, n) <==> i < n && Irregular(tree[i])
  {
    if n > 0 {
      IrregularListed(tree, n - 1, i);
      assert i != n - 1 ==> tree[n - 1].path != tree[i].path;
    }
  }

  /** A glob counts as unmatched exactly when it lines up with no candidate. */
  lemma {:induction false} UnmatchedMeans(lib: Lib, c: Classifier, tree: seq<Entry>, s: Scan, k: nat)
    requires k <= |c.candidate|
    requires IsScanOf(lib, c, tree, s)
    ensures forall src :: src in UnmatchedGlobs(lib, c.candidate, tree, k) <==>
              exists i | 0 <= i < k :: c.candidate[i].src == src && MatchesNone(lib, c.candidate[i], s.candidate)
  {
    if k > 0 {
      UnmatchedMeans(lib, c, tree, s, k - 1);
      MatchedAmongCandidates(lib, c, tree, s, k - 1);
    }
  }

  ghost predicate MatchesNone(lib: Lib, g: Glob, paths: seq<string>) {
    forall p | p in paths :: !CanLineUp(lib, g.segs, Split(lib.clean(p)))
  }

  lemma MatchedAmongCandidates(lib: Lib, c: Classifier, tree: seq<Entry>, s: Scan, i: nat)
    requires i < |c.candidate| && IsScanOf(lib, c, tree, s)
    ensures MatchedBy(lib, c.candidate[i], tree, |tree|) <==> !MatchesNone(lib, c.candidate[i], s.candidate)
  {
    var g := c.candidate[i];
    forall p: string
      ensures Matches(lib, g, p) <==> CanLineUp(lib, g.segs, Split(lib.clean(p)))
    {
      MatchMeansLinesUp(lib, g.segs, Split(lib.clean(p)));
    }
    if MatchedBy(lib, g, tree, |tree|) {
      var j :| 0 <= j < |tree| && Considered(lib, tree[j]) && Matches(lib, g, tree[j].path);
      assert IsCandidate(lib, c, tree[j]);
      assert tree[j].path in Elems(s.candidate);
    }
    if p :| p in s.candidate && Matches(lib, g, p) {
      assert p in Elems(s.candidate);
      var j :| 0 <= j < |tree| && IsCandidate(lib, c, tree[j]) && tree[j].path == p;
      assert Considered(lib, tree[j]);
    }
  }

  /** Nothing listed that was not walked. */
  lemma ScanInventsNothing(lib: Lib, c: Classifier, tree: seq<Entry>, s: Scan, p: string)
    requires IsScanOf(lib, c, tree, s) && (p in s.candidate || p in s.interviewer)
    ensures exists i | 0 <= i < |tree| :: tree[i].File? && tree[i].path == p
  {
    assert p in Elems(s.candidate) || p in Elems(s.interviewer);
  }

  /** Leaks: what a tree about to be handed over must not have. */
  function Leaks(s: Scan): seq<string> {
    s.interviewer
  }
}
