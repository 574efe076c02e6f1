/**
 A debugging scenario's faults (internal/debug/scenario.go). Loading collects
 issues instead of failing fast; a scenario with no issue has its faults in
 strictly increasing id order, and everything the engine does relies on that.
 */
module Scenario {
  import opened Wrappers
  import opened Order

  datatype Fault = Fault(
    id: string,
    title: string,
    tier: string,
    packs: seq<string>,
    settleSeconds: int,
    fixTimeoutSeconds: int)

  const TIERS: set<string> := {"easy", "medium", "hard"}

  /** One entry of faults/: its fault.yaml if it decodes, and whether every script and note is there. */
  datatype Entry = Entry(name: string, isDir: bool, spec: Option<Fault>, filesPresent: bool)

  datatype Issue = NotADirectory(name: string) | Undecodable(name: string) | Invalid(name: string) | NoFaults

  function Ids(faults: seq<Fault>): seq<string> {
    seq(|faults|, i requires 0 <= i < |faults| => faults[i].id)
  }

  /** What a loaded scenario guarantees: ids strictly increasing, hence distinct. */
  ghost predicate WellFormed(faults: seq<Fault>) {
    Sorted(Ids(faults))
  }

  // ---------------------------------------------------------------- lookups

  function InPack(faults: seq<Fault>, pack: string): seq<Fault> {
    if faults == [] then []
    else if pack in faults[0].packs then [faults[0]] + InPack(faults[1..], pack)
    else InPack(faults[1..], pack)
  }

  function Find(faults: seq<Fault>, id: string): Option<Fault> {
    if faults == [] then None
    else if faults[0].id == id then Some(faults[0])
    else Find(faults[1..], id)
  }

  method PackFaults(faults: seq<Fault>, pack: string) returns (out: seq<Fault>)
    ensures out == InPack(faults, pack)
  {
    out := [];
    for i := 0 to |faults|
      invariant out + InPack(faults[i..], pack) == InPack(faults, pack)
    {
      assert faults[i..] == [faults[i]] + faults[i + 1..];
      if pack in faults[i].packs {
        out := out + [faults[i]];
      }
    }
  }

  method Lookup(faults: seq<Fault>, id: string) returns (f: Option<Fault>)
    ensures f == Find(faults, id)
  {
    for i := 0 to |faults|
      invariant Find(faults[i..], id) == Find(faults, id)
    {
      assert faults[i..] == [faults[i]] + faults[i + 1..];
      if faults[i].id == id {
        return Some(faults[i]);
      }
    }
    return None;
  }

  lemma WellFormedTail(faults: seq<Fault>)
    requires WellFormed(faults) && faults != []
    ensures WellFormed(faults[1..])
  {
    assert Ids(faults)[1..] == Ids(faults[1..]);
  }

  /** A pack keeps the scenario's order, draws only from it, and takes every member. */
  lemma {:induction false} PackMembers(faults: seq<Fault>, pack: string)
    ensures forall f :: f in InPack(faults, pack) <==> f in faults && pack in f.packs
  {
    if faults != [] {
      PackMembers(faults[1..], pack);
      assert faults == [faults[0]] + faults[1..];
    }
  }

  lemma {:induction false} PackSorted(faults: seq<Fault>, pack: string)
    requires WellFormed(faults)
    ensures Sorted(Ids(InPack(faults, pack)))
  {
    if faults != [] {
      var rest := InPack(faults[1..], pack);
      WellFormedTail(faults);
      PackSorted(faults[1..], pack);
      PackMembers(faults[1..], pack);
      forall k | k in Elems(Ids(rest))
        ensures Less(faults[0].id, k)
      {
        var i :| 0 <= i < |rest| && Ids(rest)[i] == k;
        assert rest[i] in faults[1..];
        var j :| 0 <= j < |faults[1..]| && faults[1..][j] == rest[i];
        assert Ids(faults)[0] == faults[0].id && Ids(faults)[j + 1] == k;
      }
      ConsSorted(faults[0].id, Ids(rest));
      assert Ids([faults[0]] + rest) == [faults[0].id] + Ids(rest);
    }
  }

  /** Looking a fault up by id finds that fault: ids do not collide. */
  lemma {:induction false} FindById(faults: seq<Fault>, f: Fault)
    requires WellFormed(faults) && f in faults
    ensures Find(faults, f.id) == Some(f)
  {
    if faults[0] != f {
      var j :| 0 <= j < |faults| && faults[j] == f;
      assert Ids(faults)[0] == faults[0].id && Ids(faults)[j] == f.id;
      LessAsymmetric(faults[0].id, f.id);
      WellFormedTail(faults);
      assert faults[1..][j - 1] == f;
      FindById(faults[1..], f);
    }
  }

  /** Every id of a pack looks up to a pack member. */
  lemma PackIdKnown(faults: seq<Fault>, pack: string, i: nat)
    requires WellFormed(faults)
    requires i < |InPack(faults, pack)|
    ensures Find(faults, Ids(InPack(faults, pack))[i]) == Some(InPack(faults, pack)[i])
  {
    PackMembers(faults, pack);
    FindById(faults, InPack(faults, pack)[i]);
  }

  // ---------------------------------------------------------------- loading

  function InsertById(f: Fault, sorted: seq<Fault>): seq<Fault> {
    if sorted == [] then [f]
    else if Less(sorted[0].id, f.id) then [sorted[0]] + InsertById(f, sorted[1..])
    else [f] + sorted
  }

  /** slices.SortFunc by id. */
  function SortById(faults: seq<Fault>): seq<Fault> {
    if faults == [] then [] else InsertById(faults[0], SortById(faults[1..]))
  }

  function ValidateFault(f: Fault, dirName: string, filesPresent: bool, kebab: string -> bool): seq<Issue> {
    (if !kebab(f.id) || f.id != dirName then [Invalid(dirName)] else [])
    + (if f.title == "" then [Invalid(dirName)] else [])
    + (if f.tier !in TIERS then [Invalid(dirName)] else [])
    + (if f.packs == [] then [Invalid(dirName)] else [])
    + (if f.settleSeconds < 0 || f.fixTimeoutSeconds < 0 then [Invalid(dirName)] else [])
    + (if filesPresent then [] else [Invalid(dirName)])
  }

  lemma {:induction false} InsertMembers(f: Fault, sorted: seq<Fault>)
    ensures multiset(InsertById(f, sorted)) == multiset(sorted) + multiset{f}
  {
    if sorted != [] {
      InsertMembers(f, sorted[1..]);
      assert sorted == [sorted[0]] + sorted[1..];
    }
  }

  lemma {:induction false} SortMembers(faults: seq<Fault>)
    ensures multiset(SortById(faults)) == multiset(faults)
  {
    if faults != [] {
      SortMembers(faults[1..]);
      InsertMembers(faults[0], SortById(faults[1..]));
      assert faults == [faults[0]] + faults[1..];
    }
  }

  lemma {:induction false} InsertSorted(f: Fault, sorted: seq<Fault>)
    requires WellFormed(sorted)
    requires f.id !in Ids(sorted)
    ensures WellFormed(InsertById(f, sorted))
  {
    if sorted != [] {
      var head, tail := sorted[0], sorted[1..];
      assert Ids(sorted) == [head.id] + Ids(tail);
      WellFormedTail(sorted);
      if Less(head.id, f.id) {
        InsertSorted(f, tail);
        LaterThanHead(f, sorted);
        var rest := InsertById(f, tail);
        ConsSorted(head.id, Ids(rest));
        assert Ids([head] + rest) == [head.id] + Ids(rest);
      } else {
        InsertFirst(f, sorted);
      }
    }
  }

  lemma LaterThanHead(f: Fault, sorted: seq<Fault>)
    requires WellFormed(sorted) && sorted != [] && Less(sorted[0].id, f.id)
    ensures forall k | k in Elems(Ids(InsertById(f, sorted[1..]))) :: Less(sorted[0].id, k)
  {
    var head, tail := sorted[0], sorted[1..];
    var rest := InsertById(f, tail);
    InsertMembers(f, tail);
    forall k | k in Elems(Ids(rest))
      ensures Less(head.id, k)
    {
      var i :| 0 <= i < |rest| && Ids(rest)[i] == k;
      assert rest[i] in multiset(rest);
      if rest[i] != f {
        assert rest[i] in tail;
        var j :| 0 <= j < |tail| && tail[j] == rest[i];
        assert Ids(sorted)[0] == head.id && Ids(sorted)[j + 1] == k;
      }
    }
  }

  lemma InsertFirst(f: Fault, sorted: seq<Fault>)
    requires WellFormed(sorted) && sorted != [] && f.id !in Ids(sorted) && !Less(sorted[0].id, f.id)
    ensures WellFormed([f] + sorted)
  {
    var head := sorted[0];
    assert head.id == Ids(sorted)[0];
    LessTotal(f.id, head.id);
    forall k | k in Elems(Ids(sorted))
      ensures Less(f.id, k)
    {
      var i :| 0 <= i < |sorted| && Ids(sorted)[i] == k;
      if i > 0 {
        LessTransitive(f.id, head.id, k);
      }
    }
    ConsSorted(f.id, Ids(sorted));
    assert Ids([f] + sorted) == [f.id] + Ids(sorted);
  }

  lemma {:induction false} SortSorted(faults: seq<Fault>)
    requires forall i, j | 0 <= i < j < |faults| :: faults[i].id != faults[j].id
    ensures WellFormed(SortById(faults))
  {
    if faults != [] {
      var rest := SortById(faults[1..]);
      SortSorted(faults[1..]);
      SortMembers(faults[1..]);
      forall i | 0 <= i < |rest|
        ensures rest[i].id != faults[0].id
      {
        assert rest[i] in multiset(rest);
        var j :| 0 <= j < |faults[1..]| && faults[1..][j] == rest[i];
        assert faults[j + 1] == rest[i];
      }
      InsertSorted(faults[0], rest);
    }
  }

  /** A directory holding a decodable, valid fault of the directory's own name. */
  predicate Sound(e: Entry, kebab: string -> bool) {
    && e.isDir && e.spec.Some?
    && var f := e.spec.value;
    && kebab(f.id) && f.id == e.name && f.title != "" && f.tier in {"easy", "medium", "hard"} && f.packs != []
    && f.settleSeconds >= 0 && f.fixTimeoutSeconds >= 0 && e.filesPresent
  }

  /**
   Reads every fault directory. A listing names each entry once, so when no
   issue was found the ids, which equal the directory names, are distinct and
   the sorted faults are well formed; the faults are those of the entries.
   */
  method LoadFaults(entries: seq<Entry>, kebab: string -> bool) returns (faults: seq<Fault>, issues: seq<Issue>)
    requires forall i, j | 0 <= i < j < |entries| :: entries[i].name != entries[j].name
    ensures issues == [] <==> entries != [] && forall i | 0 <= i < |entries| :: Sound(entries[i], kebab)
    ensures issues == [] ==> WellFormed(faults) && faults != []
    ensures issues == [] ==> |faults| == |entries|
    ensures issues == [] ==>
      forall i | 0 <= i < |entries| :: entries[i].spec.Some? && entries[i].spec.value.id == entries[i].name
                                       && entries[i].spec.value in faults
    ensures forall i | 0 <= i < |entries| && !entries[i].isDir :: NotADirectory(entries[i].name) in issues
  {
    faults, issues := [], [];
    for i := 0 to |entries|
      invariant issues == [] <==> forall j | 0 <= j < i :: Sound(entries[j], kebab)
      invariant issues == [] ==> |faults| == i
      invariant issues == [] ==>
        forall j | 0 <= j < i :: entries[j].spec == Some(faults[j]) && faults[j].id == entries[j].name
      invariant forall j | 0 <= j < i && !entries[j].isDir :: NotADirectory(entries[j].name) in issues
    {
      var e := entries[i];
      if !e.isDir {
        issues := issues + [NotADirectory(e.name)];
      } else if e.spec.None? {
        issues := issues + [Undecodable(e.name)];
      } else {
        issues := issues + ValidateFault(e.spec.value, e.name, e.filesPresent, kebab);
        faults := faults + [e.spec.value];
      }
    }
    if faults == [] && issues == [] {
      issues := issues + [NoFaults];
    }
    if issues == [] {
      SortSorted(faults);
    }
    SortMembers(faults);
    ghost var unsorted := faults;
    faults := SortById(faults);
    assert |faults| == |multiset(faults)| == |multiset(unsorted)| == |unsorted|;
    if issues == [] {
      forall i | 0 <= i < |entries|
        ensures entries[i].spec.value in faults
      {
        assert unsorted[i] in multiset(unsorted);
      }
    }
  }
}
