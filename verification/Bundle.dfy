/**
 The candidate drop (internal/bundle/bundle.go, internal/bundle/gate.go): the
 visible files rendered into a directory, and the gate that goes over the
 finished tree again before anyone gets it.
 */
module Bundle {
  import opened Wrappers
  import opened Order
  import opened Globs
  import opened Leak

  const ABOUT := "ABOUT.md"
  const FORBIDDEN: seq<string> := ["interviewer/", "faults/", "{{"]

  predicate InGit(path: string) {
    ".git/" <= path
  }

  /** What a drop has beyond the candidate files. */
  predicate Exempt(path: string) {
    path == ABOUT || InGit(path)
  }

  /** bytes.Contains. */
  predicate Contains(data: string, needle: string) {
    exists i | 0 <= i <= |data| :: needle <= data[i..]
  }

  lemma ContainsMeans(data: string, needle: string)
    ensures Contains(data, needle) <==> exists a, b :: data == a + needle + b
  {
    if Contains(data, needle) {
      var i :| 0 <= i <= |data| && needle <= data[i..];
      assert data == data[..i] + needle + data[i + |needle|..];
    }
    forall a, b | data == a + needle + b
      ensures Contains(data, needle)
    {
      assert data[|a|..] == needle + b;
    }
  }

  ghost predicate Marked(data: string) {
    exists i | 0 <= i < |FORBIDDEN| :: Contains(data, FORBIDDEN[i])
  }

  // ---------------------------------------------------------------- the gate

  /** What each of the gate's three walks could not look at, and what could not be read. */
  datatype Walks = Walks(scan: set<string>, list: set<string>, grep: set<string>, unread: set<string>)

  datatype GateResult =
    | CannotScan
    | Leaking(bad: seq<string>)
    | CannotRead
    | Marker(name: string, needle: string)
    | GatePassed

  /** A walk goes into a directory after visiting it. */
  ghost predicate WellWalked(tree: seq<Entry>) {
    && DistinctPaths(tree)
    && forall i | 0 <= i < |tree| && InGit(tree[i].path) :: exists j | 0 <= j < i :: tree[j] == Dir(".git")
  }

  predicate Bad(lib: Lib, c: Classifier, e: Entry) {
    e.File? && !Exempt(e.path) && !IsCandidate(lib, c, e)
  }

  function BadPaths(lib: Lib, c: Classifier, tree: seq<Entry>): set<string> {
    set i | 0 <= i < |tree| && Bad(lib, c, tree[i]) :: tree[i].path
  }

  ghost predicate GrepsClean(e: Entry, w: Walks) {
    InGit(e.path) || (e.path !in w.grep && (e.File? ==> e.path !in w.unread && !Marked(e.data)))
  }

  /** Every file listed, those a walk could not look at left out. */
  method WrittenPaths(tree: seq<Entry>, broken: set<string>) returns (out: seq<string>)
    ensures forall p :: p in out <==> p !in broken && exists i | 0 <= i < |tree| :: tree[i].File? && tree[i].path == p
  {
    out := [];
    for n := 0 to |tree|
      invariant forall p :: p in out <==> p !in broken && exists i | 0 <= i < n :: tree[i].File? && tree[i].path == p
    {
      if tree[n].path !in broken && !tree[n].Dir? {
        out := out + [tree[n].path];
      }
    }
  }

  /** Reclassifies every file of the finished tree, then searches the ones outside .git for the forbidden markers. */
  method CheckGate(lib: Lib, c: Classifier, tree: seq<Entry>, w: Walks) returns (r: GateResult)
    requires WellWalked(tree)
    ensures r.CannotScan? <==> !Walkable(tree, w.scan)
    ensures r.Leaking? <==> Walkable(tree, w.scan) && BadPaths(lib, c, tree) != {}
    ensures r.Leaking? ==> Elems(r.bad) == BadPaths(lib, c, tree)
    ensures r.GatePassed? <==>
      && Walkable(tree, w.scan) && BadPaths(lib, c, tree) == {}
      && forall i | 0 <= i < |tree| :: GrepsClean(tree[i], w)
    ensures r.Marker? ==> exists i | 0 <= i < |tree| ::
      && tree[i].File? && tree[i].path == r.name && !InGit(r.name)
      && r.needle in FORBIDDEN && Contains(tree[i].data, r.needle)
  {
    var scan := ScanTree(lib, c, tree, w.scan);
    if scan.None? {
      return CannotScan;
    }
    var leaks := Leaks(scan.value);
    WithheldListed(lib, c, tree, scan.value);
    var bad: seq<string> := [];
    var written := WrittenPaths(tree, w.list);
    for i := 0 to |written|
      invariant forall p | p in bad :: p in BadPaths(lib, c, tree)
    {
      if Protected(lib, written[i]) && written[i] != ABOUT && !InGit(written[i]) {
        assert written[i] in written;
        bad := bad + [written[i]];
      }
    }
    for i := 0 to |leaks|
      invariant forall p | p in bad :: p in BadPaths(lib, c, tree)
      invariant forall j | 0 <= j < i && !Exempt(leaks[j]) :: leaks[j] in bad
    {
      if leaks[i] == ABOUT || InGit(leaks[i]) {
        continue;
      }
      assert leaks[i] in leaks;
      bad := bad + [leaks[i]];
    }
    assert Elems(bad) == BadPaths(lib, c, tree);
    ElemsEmpty(bad);
    if |bad| > 0 {
      return Leaking(bad);
    }
    r := Grep(tree, w);
  }

  method Grep(tree: seq<Entry>, w: Walks) returns (r: GateResult)
    requires WellWalked(tree)
    ensures r.CannotRead? || r.Marker? || r.GatePassed?
    ensures r.GatePassed? <==> forall i | 0 <= i < |tree| :: GrepsClean(tree[i], w)
    ensures r.Marker? ==> exists i | 0 <= i < |tree| ::
      && tree[i].File? && tree[i].path == r.name && !InGit(r.name)
      && r.needle in FORBIDDEN && Contains(tree[i].data, r.needle)
  {
    var skipping := false;
    for n := 0 to |tree|
      invariant skipping <==> exists j | 0 <= j < n :: tree[j] == Dir(".git")
      invariant forall i | 0 <= i < n :: GrepsClean(tree[i], w)
    {
      var e := tree[n];
      if skipping && InGit(e.path) {
        continue;
      }
      if e.path in w.grep {
        return CannotRead;
      }
      if e.Dir? {
        if e.path == ".git" {
          skipping := true;
        }
        continue;
      }
      if e.path in w.unread {
        return CannotRead;
      }
      for k := 0 to |FORBIDDEN|
        invariant forall j | 0 <= j < k :: !Contains(e.data, FORBIDDEN[j])
      {
        if Contains(e.data, FORBIDDEN[k]) {
          return Marker(e.path, FORBIDDEN[k]);
        }
      }
    }
    return GatePassed;
  }

  lemma WithheldListed(lib: Lib, c: Classifier, tree: seq<Entry>, s: Scan)
    requires DistinctPaths(tree) && IsScanOf(lib, c, tree, s)
    ensures forall p :: (p in s.interviewer && !Exempt(p)) <==> p in BadPaths(lib, c, tree)
    ensures forall i | 0 <= i < |tree| && tree[i].File? && Protected(lib, tree[i].path) && !Exempt(tree[i].path) ::
      tree[i].path in BadPaths(lib, c, tree)
  {
    assert forall p :: p in s.interviewer <==> p in Elems(s.interviewer);
  }

  lemma BadListed(lib: Lib, c: Classifier, tree: seq<Entry>, i: nat)
    requires i < |tree| && Bad(lib, c, tree[i])
    ensures tree[i].path in BadPaths(lib, c, tree)
  {
  }

  /** What passing means for an arbitrary tree, whatever wrote it. */
  lemma PassingMeans(lib: Lib, c: Classifier, tree: seq<Entry>, w: Walks, i: nat)
    requires CleanIsIdempotent(lib) && WellWalked(tree)
    requires BadPaths(lib, c, tree) == {} && forall i | 0 <= i < |tree| :: GrepsClean(tree[i], w)
    requires i < |tree| && tree[i].File? && !(".git/" <= tree[i].path)
    ensures tree[i].path != "ABOUT.md" ==>
      && tree[i].regular && !tree[i].linked
      && Classify(lib, c, tree[i].path).CandidateVisible?
      && forall seg | seg in Split(lib.clean(tree[i].path)) :: !Unpublishable(seg)
    ensures forall a, b :: tree[i].data != a + "interviewer/" + b
    ensures forall a, b :: tree[i].data != a + "faults/" + b
    ensures forall a, b :: tree[i].data != a + "{{" + b
  {
    ContainsMeans(tree[i].data, "interviewer/");
    ContainsMeans(tree[i].data, "faults/");
    ContainsMeans(tree[i].data, "{{");
    assert GrepsClean(tree[i], w);
    assert FORBIDDEN[0] == "interviewer/" && FORBIDDEN[1] == "faults/" && FORBIDDEN[2] == "{{";
    if tree[i].path != ABOUT {
      if Bad(lib, c, tree[i]) {
        BadListed(lib, c, tree, i);
      }
      VisibleMeans(lib, c, tree[i].path);
    }
  }

  // ---------------------------------------------------------------- the fixed point

  /** The files of a tree are fresh regular files at exactly these paths. */
  ghost predicate FreshTree(tree: seq<Entry>, paths: set<string>) {
    && DistinctPaths(tree)
    && (forall i | 0 <= i < |tree| && tree[i].File? :: tree[i].regular && !tree[i].linked && tree[i].path in paths)
    && forall p | p in paths :: exists i | 0 <= i < |tree| :: tree[i].File? && tree[i].path == p
  }

  /** Visibility is decided by path alone, so it holds of a fresh file written at a candidate path. */
  lemma CandidateAnywhere(lib: Lib, c: Classifier, source: seq<Entry>, e: Entry)
    requires e.path in CandidatePaths(lib, c, source, |source|)
    requires e.File? && e.regular && !e.linked
    ensures IsCandidate(lib, c, e)
  {
  }

  /** Scanning what a scan let out finds the same candidates, nothing withheld, and the same drifted globs. */
  lemma ScanIsAFixedPoint(lib: Lib, c: Classifier, source: seq<Entry>, s: Scan, tree: seq<Entry>, again: Scan)
    requires IsScanOf(lib, c, source, s)
    requires FreshTree(tree, Elems(s.candidate)) && IsScanOf(lib, c, tree, again)
    ensures again == s.(interviewer := [], irregular := [])
  {
    forall i | 0 <= i < |tree| && tree[i].File?
      ensures IsCandidate(lib, c, tree[i])
    {
      CandidateAnywhere(lib, c, source, tree[i]);
    }
    assert WithheldPaths(lib, c, tree, |tree|) == {};
    ElemsEmpty(again.interviewer);
    assert CandidatePaths(lib, c, tree, |tree|) == Elems(s.candidate);
    SortedUnique(again.candidate, s.candidate);
    NoneIrregular(lib, c, tree, |tree|);
    SameUnmatched(lib, c, source, tree, |c.candidate|);
  }

  lemma {:induction false} NoneIrregular(lib: Lib, c: Classifier, tree: seq<Entry>, n: nat)
    requires n <= |tree| && forall i | 0 <= i < n && tree[i].File? :: IsCandidate(lib, c, tree[i])
    ensures IrregularPaths(tree, n) == []
  {
    if n > 0 {
      NoneIrregular(lib, c, tree, n - 1);
    }
  }

  lemma {:induction false} SameUnmatched(lib: Lib, c: Classifier, source: seq<Entry>, tree: seq<Entry>, k: nat)
    requires k <= |c.candidate|
    requires FreshTree(tree, CandidatePaths(lib, c, source, |source|))
    requires forall i | 0 <= i < |tree| && tree[i].File? :: IsCandidate(lib, c, tree[i])
    ensures UnmatchedGlobs(lib, c.candidate, tree, k) == UnmatchedGlobs(lib, c.candidate, source, k)
  {
    if k > 0 {
      SameUnmatched(lib, c, source, tree, k - 1);
      var i := k - 1;
      MatchedInBoth(lib, c, source, tree, i);
    }
  }

  lemma MatchedInBoth(lib: Lib, c: Classifier, source: seq<Entry>, tree: seq<Entry>, g: nat)
    requires g < |c.candidate|
    requires FreshTree(tree, CandidatePaths(lib, c, source, |source|))
    requires forall i | 0 <= i < |tree| && tree[i].File? :: IsCandidate(lib, c, tree[i])
    ensures MatchedBy(lib, c.candidate[g], tree, |tree|) <==> MatchedBy(lib, c.candidate[g], source, |source|)
  {
    if MatchedBy(lib, c.candidate[g], source, |source|) {
      var j :| 0 <= j < |source| && Considered(lib, source[j]) && Matches(lib, c.candidate[g], source[j].path);
      assert IsCandidate(lib, c, source[j]);
      assert source[j].path in CandidatePaths(lib, c, source, |source|);
      var i :| 0 <= i < |tree| && tree[i].File? && tree[i].path == source[j].path;
      assert IsCandidate(lib, c, tree[i]);
      assert Considered(lib, tree[i]);
    }
    if MatchedBy(lib, c.candidate[g], tree, |tree|) {
      var i :| 0 <= i < |tree| && Considered(lib, tree[i]) && Matches(lib, c.candidate[g], tree[i].path);
      assert tree[i].path in CandidatePaths(lib, c, source, |source|);
      var j :| 0 <= j < |source| && IsCandidate(lib, c, source[j]) && source[j].path == tree[i].path;
      assert Considered(lib, source[j]);
    }
  }

  // ---------------------------------------------------------------- writing a drop

  datatype Source = Source(data: string, exec: bool)

  /** What a problem writes: its candidate files, how templates render for the variant, and its front page. */
  datatype Problem = Problem(
    candidate: seq<string>,
    files: map<string, Source>,
    templated: string -> bool,
    render: string -> Option<string>,
    about: Option<string>,
    gitInit: bool)

  /** The file a candidate path becomes, if it can be read and rendered. */
  function Rendered(p: Problem, name: string): Option<Source> {
    if name !in p.files then None
    else
      var f := p.files[name];
      if !p.templated(name) then Some(f)
      else match p.render(f.data)
        case None => None
        case Some(data) => Some(Source(data, f.exec))
  }

  ghost predicate Renders(p: Problem) {
    (forall i | 0 <= i < |p.candidate| :: Rendered(p, p.candidate[i]).Some?) && p.about.Some?
  }

  /** A drop holds every candidate file as rendered, the front page, and nothing else outside .git. */
  ghost predicate IsDrop(p: Problem, out: map<string, Source>) {
    && (forall name | name in out && !InGit(name) :: name == ABOUT || name in p.candidate)
    && (forall name | name in p.candidate && name != ABOUT && !InGit(name) ::
          name in out && Rendered(p, name) == Some(out[name]))
    && ABOUT in out && p.about == Some(out[ABOUT].data)
  }

  ghost predicate Unmarked(out: map<string, Source>) {
    forall name | name in out && !InGit(name) :: !Marked(out[name].data)
  }

  /** No candidate file renders to anything with a forbidden marker in it. */
  ghost predicate NothingMarked(p: Problem) {
    && (forall name | name in p.candidate && Rendered(p, name).Some? :: !Marked(Rendered(p, name).value.data))
    && (p.about.Some? ==> !Marked(p.about.value))
  }

  /** Each candidate file as it is in a drop: a template's rendering or the file's own bytes, executable if it was. */
  lemma DropMeans(p: Problem, out: map<string, Source>, name: string)
    requires IsDrop(p, out) && name in p.candidate && name != "ABOUT.md" && !(".git/" <= name)
    ensures name in out && name in p.files && out[name].exec == p.files[name].exec
    ensures p.templated(name) ==> p.render(p.files[name].data) == Some(out[name].data)
    ensures !p.templated(name) ==> out[name].data == p.files[name].data
  {
  }

  lemma DropUnmarked(p: Problem, out: map<string, Source>)
    requires IsDrop(p, out) && NothingMarked(p)
    ensures Unmarked(out)
  {
    forall name | name in out && !InGit(name)
      ensures !Marked(out[name].data)
    {
      if name != ABOUT {
        assert Rendered(p, name) == Some(out[name]);
      }
    }
  }

  class Drop {
    var out: Option<map<string, Source>>          // None: no such directory
    var failed: bool                              // the file system or git refused something
    var unremoved: bool                           // ... and then would not let the remains go

    constructor (out: Option<map<string, Source>>)
      ensures this.out == out && !failed && !unremoved
    {
      this.out, failed, unremoved := out, false, false;
    }

    method Attempt() returns (ok: bool)
      modifies this`failed
      ensures failed == (old(failed) || !ok)
    {
      ok := *;
      failed := failed || !ok;
    }

    /** Makes the directory, or accepts an empty one. */
    method EnsureEmptyDir() returns (ok: bool)
      modifies this`out, this`failed
      ensures ok ==> out == Some(map[]) && failed == old(failed)
      ensures !ok ==> out == old(out) && (failed || (out.Some? && out.value != map[]))
    {
      ok := Attempt();
      if !ok {
        return;
      }
      if out.None? {
        out := Some(map[]);
        return;
      }
      ok := |out.value| == 0;
      assert out.value == map[] <==> |out.value| == 0;
    }

    /** A failed write may have left anything under the name. */
    method WriteFile(name: string, f: Source) returns (ok: bool)
      requires out.Some?
      modifies this`out, this`failed
      ensures failed == (old(failed) || !ok) && out.Some?
      ensures ok ==> out.value == old(out).value[name := f]
    {
      ok := Attempt();
      var torn: bool := *;
      if ok {
        out := Some(out.value[name := f]);
      } else if torn {
        var part: Source := *;
        out := Some(out.value[name := part]);
      }
    }

    method WriteFiles(p: Problem) returns (ok: bool)
      requires out == Some(map[])
      modifies this`out, this`failed
      ensures out.Some?
      ensures !ok ==> failed || !Renders(p)
      ensures ok ==> failed == old(failed)
      ensures ok ==> out.value.Keys == Elems(p.candidate)
                     && forall name | name in p.candidate :: Rendered(p, name) == Some(out.value[name])
    {
      for i := 0 to |p.candidate|
        invariant out.Some? && failed == old(failed)
        invariant out.value.Keys == Elems(p.candidate[..i])
        invariant forall j | 0 <= j < i ::
          p.candidate[j] in out.value && Rendered(p, p.candidate[j]) == Some(out.value[p.candidate[j]])
      {
        var name := p.candidate[i];
        assert p.candidate[..i + 1] == p.candidate[..i] + [name];
        assert Elems(p.candidate[..i + 1]) == Elems(p.candidate[..i]) + {name};
        ok := Attempt();                                   // read and stat
        if !ok {
          return;
        }
        if name !in p.files {
          return false;
        }
        var data := p.files[name].data;
        if p.templated(name) {
          var rendered := p.render(data);
          if rendered.None? {
            return false;
          }
          data := rendered.value;
        }
        ok := WriteFile(name, Source(data, p.files[name].exec));
        if !ok {
          return;
        }
      }
      assert p.candidate[..|p.candidate|] == p.candidate;
      ok := true;
    }

    /** git init, add, commit: whatever they do, they do under .git. */
    method GitInit() returns (ok: bool)
      requires out.Some?
      modifies this`out, this`failed
      ensures failed == (old(failed) || !ok) && out.Some?
      ensures forall name | !InGit(name) :: name in out.value <==> name in old(out).value
      ensures forall name | !InGit(name) && name in out.value :: out.value[name] == old(out).value[name]
    {
      ok := Attempt();
      var made: map<string, Source> := *;
      out := Some(out.value + map name | name in made && InGit(name) :: made[name]);
    }

    /** A walk of the finished tree; nothing is below a .git that is a file. */
    method Walk() returns (tree: seq<Entry>)
      requires out.Some?
      ensures WellWalked(tree)
      ensures forall i | 0 <= i < |tree| :: tree[i].File? || tree[i] == Dir(".git")
      ensures forall i | 0 <= i < |tree| && tree[i].File? ::
        tree[i].path in out.value && tree[i] == File(tree[i].path, true, false, out.value[tree[i].path].data)
      ensures forall name | name in out.value && !InGit(name) ::
        exists i | 0 <= i < |tree| :: tree[i] == File(name, true, false, out.value[name].data)
    {
      var isFile := ".git" in out.value;
      var names := SortedKeys(set name | name in out.value && !(isFile && InGit(name)));
      SortedDistinct(names);
      tree := if isFile then [] else [Dir(".git")];
      var n := |tree|;
      for i := 0 to |names|
        invariant |tree| == n + i && n == (if isFile then 0 else 1)
        invariant !isFile ==> tree[0] == Dir(".git")
        invariant forall j | 0 <= j < i ::
          names[j] in out.value && tree[n + j] == File(names[j], true, false, out.value[names[j]].data)
      {
        assert names[i] in Elems(names);
        tree := tree + [File(names[i], true, false, out.value[names[i]].data)];
      }
      forall i | 0 <= i < |tree|
        ensures if i < n then tree[i] == Dir(".git") else tree[i].path == names[i - n] && names[i - n] in Elems(names)
      {
      }
      forall name | name in out.value && !InGit(name)
        ensures exists i | 0 <= i < |tree| :: tree[i] == File(name, true, false, out.value[name].data)
      {
        assert name in Elems(names);
        var k :| 0 <= k < |names| && names[k] == name;
        assert tree[n + k] == File(name, true, false, out.value[name].data);
      }
    }

    /** Writes everything and sends it through the gate. */
    method WriteBundle(lib: Lib, c: Classifier, p: Problem, ghost source: seq<Entry>, ghost s: Scan) returns (ok: bool)
      requires out == Some(map[])
      requires IsScanOf(lib, c, source, s) && p.candidate == s.candidate
      modifies this`out, this`failed
      ensures out.Some?
      ensures ok ==> IsDrop(p, out.value) && Unmarked(out.value)
      ensures !ok ==> failed || !Renders(p) || !NothingMarked(p)
    {
      ok := WriteFiles(p);
      if !ok {
        return;
      }
      if p.about.None? {
        return false;
      }
      assert ABOUT[0] != ".git/"[0];
      ok := WriteFile(ABOUT, Source(p.about.value, false));
      if !ok {
        return;
      }
      if p.gitInit {
        ok := GitInit();
        if !ok {
          return;
        }
      }
      assert IsDrop(p, out.value);
      ok := Gate(lib, c, p, source, s);
      if NothingMarked(p) {
        DropUnmarked(p, out.value);
      }
    }

    method Gate(lib: Lib, c: Classifier, p: Problem, ghost source: seq<Entry>, ghost s: Scan) returns (ok: bool)
      requires out.Some? && IsDrop(p, out.value)
      requires IsScanOf(lib, c, source, s) && p.candidate == s.candidate
      modifies this`failed
      ensures old(failed) ==> failed
      ensures ok ==> Unmarked(out.value)
      ensures !ok ==> failed || !Unmarked(out.value)
    {
      var tree := Walk();
      var w: Walks := *;
      var r := CheckGate(lib, c, tree, w);
      ok := r.GatePassed?;
      if r.CannotScan? || r.CannotRead? {
        failed := true;
      }
      assert BadPaths(lib, c, tree) == {} by {
        forall i | 0 <= i < |tree| && tree[i].File? && !Exempt(tree[i].path)
          ensures IsCandidate(lib, c, tree[i])
        {
          assert tree[i].path in p.candidate && tree[i].path in Elems(s.candidate);
          CandidateAnywhere(lib, c, source, tree[i]);
        }
      }
      forall name | ok && name in out.value && !InGit(name)
        ensures !Marked(out.value[name].data)
      {
        var i :| 0 <= i < |tree| && tree[i] == File(name, true, false, out.value[name].data);
        assert GrepsClean(tree[i], w);
      }
    }

    /** Writes a drop into a new or empty directory; a drop that fails is removed whole. */
    method Write(lib: Lib, c: Classifier, p: Problem, ghost source: seq<Entry>, ghost s: Scan) returns (ok: bool)
      requires IsScanOf(lib, c, source, s) && p.candidate == s.candidate
      modifies this
      ensures ok ==> out.Some? && IsDrop(p, out.value) && Unmarked(out.value)
      ensures !ok ==> out == old(out) || out.None? || unremoved
      ensures ok <== !failed && (old(out).None? || old(out).value == map[]) && Renders(p) && NothingMarked(p)
    {
      failed, unremoved := false, false;
      ok := EnsureEmptyDir();
      if !ok {
        return;
      }
      ok := WriteBundle(lib, c, p, source, s);
      if !ok {
        var removed: bool := *;
        if removed {
          out := None;
        } else {
          unremoved := true;
        }
      }
    }
  }
}
