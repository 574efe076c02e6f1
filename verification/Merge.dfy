/**
 MergeHints (internal/grading/score.go): ledgers combined into session order,
 each hint once. grade sheet applies it to two ledgers at a time.
 */
module Merge {
  import opened Wrappers
  import opened Order
  import opened Ledger

  // ---------------------------------------------------------------- specification

  /** The first appearances in s of hints outside base. */
  function NewIn(base: set<Hint>, s: seq<Hint>): seq<Hint> {
    if s == [] then []
    else
      var d := NewIn(base, s[..|s| - 1]);
      var h := s[|s| - 1];
      if h in base || h in d then d else d + [h]
  }

  function Dedup(s: seq<Hint>): seq<Hint> {
    NewIn({}, s)
  }

  function Insert(h: Hint, sorted: seq<Hint>): seq<Hint> {
    if sorted == [] || h.minute <= sorted[0].minute then [h] + sorted
    else [sorted[0]] + Insert(h, sorted[1..])
  }

  /** sort.SliceStable by minute. */
  function StableSort(s: seq<Hint>): seq<Hint> {
    if s == [] then [] else Insert(s[0], StableSort(s[1..]))
  }

  function Merged(sets: seq<seq<Hint>>): seq<Hint> {
    StableSort(Dedup(Flatten(sets)))
  }

  /** What grade sheet does: one ledger after the other, two at a time. */
  function Folded(first: seq<Hint>, rest: seq<seq<Hint>>): seq<Hint> {
    if rest == [] then first
    else Merged([Folded(first, rest[..|rest| - 1]), rest[|rest| - 1]])
  }

  // ---------------------------------------------------------------- the algorithm

  method MergeHints(sets: seq<seq<Hint>>) returns (out: seq<Hint>)
    ensures out == Merged(sets)
  {
    out := [];
    var seen: set<Hint> := {};
    ghost var done := [];
    assert sets[..0] == [] && Flatten(sets[..0]) == [];
    for i := 0 to |sets|
      invariant done == Flatten(sets[..i])
      invariant out == Dedup(done) && seen == Elems(out)
    {
      ghost var before := done;
      assert before == before + sets[i][..0];
      for j := 0 to |sets[i]|
        invariant done == before + sets[i][..j]
        invariant out == Dedup(done) && seen == Elems(out)
      {
        var h := sets[i][j];
        ghost var longer := done + [h];
        assert longer[..|longer| - 1] == done;
        assert longer == before + sets[i][..j + 1];
        done := longer;
        if h !in seen {
          seen := seen + {h};
          out := out + [h];
        }
      }
      assert sets[i][..|sets[i]|] == sets[i];
      assert sets[..i + 1][..i] == sets[..i];
    }
    assert sets[..|sets|] == sets;
    out := StableSort(out);
  }

  // ---------------------------------------------------------------- deduplication

  ghost predicate NoDuplicates(s: seq<Hint>) {
    forall i, j | 0 <= i < j < |s| :: s[i] != s[j]
  }

  lemma {:induction false} NewInMembers(base: set<Hint>, s: seq<Hint>)
    ensures NoDuplicates(NewIn(base, s))
    ensures Elems(NewIn(base, s)) == Elems(s) - base
  {
    if s != [] {
      var last := |s| - 1;
      NewInMembers(base, s[..last]);
      var d := NewIn(base, s[..last]);
      assert s == s[..last] + [s[last]];
      assert forall h :: h in d <==> h in Elems(d);
    }
  }

  lemma {:induction false} NewInSplits(base: set<Hint>, a: seq<Hint>, b: seq<Hint>)
    ensures NewIn(base, a + b) == NewIn(base, a) + NewIn(base + Elems(a), b)
  {
    if b == [] {
      assert a + b == a;
    } else {
      var last := |b| - 1;
      NewInSplits(base, a, b[..last]);
      assert (a + b)[..|a + b| - 1] == a + b[..last];
      NewInMembers(base, a);
      var d := NewIn(base, a);
      assert forall h :: h in d <==> h in Elems(d);
    }
  }

  lemma {:induction false} NewInOfDistinct(s: seq<Hint>)
    requires NoDuplicates(s)
    ensures Dedup(s) == s
  {
    if s != [] {
      var last := |s| - 1;
      NewInOfDistinct(s[..last]);
      assert s == s[..last] + [s[last]];
      assert s[last] !in s[..last];
    }
  }

  lemma {:induction false} NothingNew(base: set<Hint>, s: seq<Hint>)
    requires Elems(s) <= base
    ensures NewIn(base, s) == []
  {
    if s != [] {
      assert s == s[..|s| - 1] + [s[|s| - 1]];
      assert s[|s| - 1] in Elems(s);
      assert Elems(s[..|s| - 1]) <= Elems(s);
      NothingNew(base, s[..|s| - 1]);
    }
  }

  function FirstAt(s: seq<Hint>, h: Hint): (i: nat)
    requires h in s
    ensures i < |s| && s[i] == h && forall k | 0 <= k < i :: s[k] != h
  {
    if s[0] == h then 0 else 1 + FirstAt(s[1..], h)
  }

  /** Deduplication keeps hints in the order they first appear. */
  lemma {:induction false} DedupOrder(s: seq<Hint>, i: nat, j: nat)
    requires i < j < |Dedup(s)|
    ensures Dedup(s)[i] in s && Dedup(s)[j] in s
    ensures FirstAt(s, Dedup(s)[i]) < FirstAt(s, Dedup(s)[j])
  {
    NewInMembers({}, s);
    var d := Dedup(s);
    assert d[i] in Elems(d) && d[j] in Elems(d);
    var last := |s| - 1;
    var before := Dedup(s[..last]);
    NewInMembers({}, s[..last]);
    assert before[i] in Elems(before);
    SameFirst(s, before[i]);
    if j < |before| {
      DedupOrder(s[..last], i, j);
      assert before[j] in Elems(before);
      SameFirst(s, before[j]);
    } else {
      assert d[j] == s[last];
      assert d == before + [s[last]];
      assert s[last] !in before && s[last] !in Elems(before);
    }
  }

  lemma SameFirst(s: seq<Hint>, h: Hint)
    requires s != [] && h in s[..|s| - 1]
    ensures h in s && FirstAt(s, h) == FirstAt(s[..|s| - 1], h)
  {
    var t := s[..|s| - 1];
    var a, b := FirstAt(s, h), FirstAt(t, h);
    assert s[b] == h && t[b] == h;
    assert a < |t| ==> t[a] == s[a];
    assert t[b] == s[b];
  }

  // ---------------------------------------------------------------- stable sorting

  ghost predicate SortedByMinute(s: seq<Hint>) {
    forall i, j | 0 <= i < j < |s| :: s[i].minute <= s[j].minute
  }

  /** The hints of one minute, in order. */
  function OfMinute(s: seq<Hint>, m: int): seq<Hint> {
    if s == [] then []
    else (if s[0].minute == m then [s[0]] else []) + OfMinute(s[1..], m)
  }

  lemma OfMinuteCons(h: Hint, s: seq<Hint>, m: int)
    ensures OfMinute([h] + s, m) == (if h.minute == m then [h] else []) + OfMinute(s, m)
  {
    assert ([h] + s)[1..] == s;
  }

  lemma {:induction false} OfMinuteConcat(a: seq<Hint>, b: seq<Hint>, m: int)
    ensures OfMinute(a + b, m) == OfMinute(a, m) + OfMinute(b, m)
  {
    if a == [] {
      assert a + b == b;
    } else {
      OfMinuteConcat(a[1..], b, m);
      OfMinuteCons(a[0], a[1..] + b, m);
      assert a + b == [a[0]] + (a[1..] + b);
    }
  }

  lemma {:induction false} InsertMembers(h: Hint, sorted: seq<Hint>)
    ensures multiset(Insert(h, sorted)) == multiset(sorted) + multiset{h}
  {
    if sorted != [] && h.minute > sorted[0].minute {
      InsertMembers(h, sorted[1..]);
      assert sorted == [sorted[0]] + sorted[1..];
    }
  }

  lemma {:induction false} InsertSorted(h: Hint, sorted: seq<Hint>)
    requires SortedByMinute(sorted)
    ensures SortedByMinute(Insert(h, sorted))
  {
    if sorted != [] && h.minute > sorted[0].minute {
      InsertSorted(h, sorted[1..]);
      InsertMembers(h, sorted[1..]);
      var rest := Insert(h, sorted[1..]);
      forall j | 0 <= j < |rest|
        ensures sorted[0].minute <= rest[j].minute
      {
        assert rest[j] in multiset(rest);
        assert rest[j] == h || rest[j] in sorted[1..];
      }
    }
  }

  lemma {:induction false} InsertOfMinute(h: Hint, sorted: seq<Hint>, m: int)
    ensures OfMinute(Insert(h, sorted), m) == (if h.minute == m then [h] else []) + OfMinute(sorted, m)
  {
    if sorted == [] || h.minute <= sorted[0].minute {
      OfMinuteCons(h, sorted, m);
    } else {
      InsertOfMinute(h, sorted[1..], m);
      OfMinuteCons(sorted[0], Insert(h, sorted[1..]), m);
    }
  }

  lemma {:induction false} SortIsStable(s: seq<Hint>, m: int)
    ensures SortedByMinute(StableSort(s))
    ensures multiset(StableSort(s)) == multiset(s)
    ensures OfMinute(StableSort(s), m) == OfMinute(s, m)
  {
    if s != [] {
      SortIsStable(s[1..], m);
      InsertMembers(s[0], StableSort(s[1..]));
      InsertSorted(s[0], StableSort(s[1..]));
      InsertOfMinute(s[0], StableSort(s[1..]), m);
      assert s == [s[0]] + s[1..];
    }
  }

  /** A sorted list is determined by what each minute holds, in order. */
  lemma {:induction false} SortedDetermined(a: seq<Hint>, b: seq<Hint>)
    requires SortedByMinute(a) && SortedByMinute(b)
    requires forall m :: OfMinute(a, m) == OfMinute(b, m)
    ensures a == b
  {
    if a == [] || b == [] {
      SomeMinute(a);
      SomeMinute(b);
    } else {
      EarliestFirst(a, b);
      EarliestFirst(b, a);
      var m0 := a[0].minute;
      assert OfMinute(a, m0) == OfMinute(b, m0);
      assert OfMinute(a, m0)[0] == a[0] && OfMinute(b, m0)[0] == b[0];
      forall m
        ensures OfMinute(a[1..], m) == OfMinute(b[1..], m)
      {
        assert OfMinute(a, m) == OfMinute(b, m);
        if m == m0 {
          assert OfMinute(a, m)[1..] == OfMinute(a[1..], m);
          assert OfMinute(b, m)[1..] == OfMinute(b[1..], m);
        } else {
          assert [] + OfMinute(a[1..], m) == OfMinute(a[1..], m);
          assert [] + OfMinute(b[1..], m) == OfMinute(b[1..], m);
        }
      }
      SortedDetermined(a[1..], b[1..]);
      assert a == [a[0]] + a[1..] && b == [b[0]] + b[1..];
    }
  }

  lemma SomeMinute(s: seq<Hint>)
    ensures s == [] || OfMinute(s, s[0].minute) != []
  {
  }

  lemma EarliestFirst(a: seq<Hint>, b: seq<Hint>)
    requires SortedByMinute(b) && a != [] && b != []
    requires OfMinute(a, a[0].minute) == OfMinute(b, a[0].minute)
    ensures b[0].minute <= a[0].minute
  {
    if b[0].minute > a[0].minute {
      NoneEarlier(b, a[0].minute);
    }
  }

  lemma {:induction false} NoneEarlier(s: seq<Hint>, m: int)
    requires forall i | 0 <= i < |s| :: s[i].minute != m
    ensures OfMinute(s, m) == []
  {
    if s != [] {
      NoneEarlier(s[1..], m);
    }
  }

  lemma SortsAlike(a: seq<Hint>, b: seq<Hint>)
    requires forall m :: OfMinute(a, m) == OfMinute(b, m)
    ensures StableSort(a) == StableSort(b)
  {
    forall m
      ensures OfMinute(StableSort(a), m) == OfMinute(StableSort(b), m)
    {
      SortIsStable(a, m);
      SortIsStable(b, m);
    }
    SortIsStable(a, 0);
    SortIsStable(b, 0);
    SortedDetermined(StableSort(a), StableSort(b));
  }

  // ---------------------------------------------------------------- theorems

  /**
   The merge is the stable order of the first appearances: no hint twice, none
   lost or added, sorted by minute, and within a minute in order of first
   appearance across the ledgers.
   */
  lemma MergeIsSessionOrder(sets: seq<seq<Hint>>, m: int)
    ensures NoDuplicates(Merged(sets))
    ensures Elems(Merged(sets)) == Elems(Flatten(sets))
    ensures SortedByMinute(Merged(sets))
    ensures OfMinute(Merged(sets), m) == OfMinute(Dedup(Flatten(sets)), m)
  {
    var s := Flatten(sets);
    var d := Dedup(s);
    NewInMembers({}, s);
    SortIsStable(d, m);
    var out := StableSort(d);
    assert forall h :: h in out <==> h in multiset(out);
    assert forall h :: h in d <==> h in multiset(d);
    assert Elems(out) == Elems(d);
    DistinctByCount(d, out);
  }

  lemma DistinctByCount(a: seq<Hint>, b: seq<Hint>)
    requires NoDuplicates(a) && multiset(a) == multiset(b)
    ensures NoDuplicates(b)
  {
    forall i, j | 0 <= i < j < |b|
      ensures b[i] != b[j]
    {
      if b[i] == b[j] {
        var h := b[i];
        TwiceCounts(b, i, j);
        OnceCounts(a, h);
        assert false;
      }
    }
  }

  lemma TwiceCounts(s: seq<Hint>, i: nat, j: nat)
    requires i < j < |s| && s[i] == s[j]
    ensures multiset(s)[s[i]] >= 2
  {
    assert s == s[..i] + [s[i]] + s[i + 1..j] + [s[j]] + s[j + 1..];
  }

  lemma {:induction false} OnceCounts(s: seq<Hint>, h: Hint)
    requires NoDuplicates(s)
    ensures multiset(s)[h] <= 1
  {
    if s != [] {
      OnceCounts(s[1..], h);
      assert s == [s[0]] + s[1..];
      if s[0] == h {
        assert h !in s[1..];
      }
    }
  }

  /** Merging a merge with one more ledger is merging them all. */
  lemma Absorb(sets: seq<seq<Hint>>, b: seq<Hint>)
    ensures Merged([Merged(sets), b]) == Merged(sets + [b])
  {
    var x := Flatten(sets);
    var d := Dedup(x);
    var s := Merged(sets);
    MergeIsSessionOrder(sets, 0);
    NewInSplits({}, s, b);
    NewInSplits({}, x, b);
    NewInOfDistinct(s);
    assert {} + Elems(s) == Elems(x) == {} + Elems(x);
    var added := NewIn(Elems(x), b);
    FlattenTwo(s, b);
    assert (sets + [b])[..|sets|] == sets;
    forall m
      ensures OfMinute(s + added, m) == OfMinute(d + added, m)
    {
      MergeIsSessionOrder(sets, m);
      OfMinuteConcat(s, added, m);
      OfMinuteConcat(d, added, m);
    }
    SortsAlike(s + added, d + added);
  }

  lemma FlattenOne(a: seq<Hint>)
    ensures Flatten([a]) == a
  {
    assert [a][..0] == [];
    assert [] + a == a;
  }

  lemma FlattenTwo(a: seq<Hint>, b: seq<Hint>)
    ensures Flatten([a, b]) == a + b
  {
    assert [a, b][..1] == [a];
    FlattenOne(a);
  }

  /** Two at a time, as the sheet merges, gives the n-ary merge. */
  lemma {:induction false} FoldIsNary(first: seq<Hint>, rest: seq<seq<Hint>>)
    requires rest != []
    ensures Folded(first, rest) == Merged([first] + rest)
  {
    var last := |rest| - 1;
    if last == 0 {
      assert rest[..0] == [];
      assert [first] + rest == [first, rest[0]];
    } else {
      FoldIsNary(first, rest[..last]);
      Absorb([first] + rest[..last], rest[last]);
      assert [first] + rest[..last] + [rest[last]] == [first] + rest;
    }
  }

  /** Naming a ledger again changes nothing. */
  lemma RemergeChangesNothing(sets: seq<seq<Hint>>, i: nat)
    requires i < |sets|
    ensures Merged([Merged(sets), sets[i]]) == Merged(sets)
  {
    var x := Flatten(sets);
    Absorb(sets, sets[i]);
    assert (sets + [sets[i]])[..|sets|] == sets;
    InFlatten(sets, i);
    NewInSplits({}, x, sets[i]);
    NothingNew({} + Elems(x), sets[i]);
    assert Dedup(x) + [] == Dedup(x);
  }

  // ---------------------------------------------------------------- reading a ledger again

  /** The same hints, up to which pointer a decoded location got. */
  ghost predicate SameHint(a: Hint, b: Hint) {
    && a.(at := b.at) == b && a.at.ns == b.at.ns
    && match a.at.zone
       case Shared(_) => a.at.zone == b.at.zone
       case Decoded(offset, _) => b.at.zone.Decoded? && b.at.zone.offset == offset
  }

  /** Two loads of one ledger: the hints agree, and every decoded location is a new one. */
  ghost predicate LoadedTwice(a: seq<Hint>, b: seq<Hint>) {
    && |a| == |b|
    && (forall i | 0 <= i < |a| :: SameHint(a[i], b[i]))
    && forall i, j | 0 <= i < |a| && 0 <= j < |b| :: a[i].at.zone.Decoded? ==> a[i].at.zone != b[j].at.zone
  }

  /**
   Loading a ledger again and merging it in changes nothing exactly when no
   hint's location had to be decoded for it.
   */
  lemma RereadChangesNothing(a: seq<Hint>, b: seq<Hint>)
    requires LoadedTwice(a, b)
    ensures Merged([a, b]) == Merged([a]) <==> forall i | 0 <= i < |a| :: a[i].at.zone.Shared?
  {
    if forall i | 0 <= i < |a| :: a[i].at.zone.Shared? {
      assert a == b by {
        forall i | 0 <= i < |a|
          ensures a[i] == b[i]
        {
          assert SameHint(a[i], b[i]);
        }
      }
      FlattenOne(a);
      FlattenTwo(a, a);
      NewInSplits({}, a, a);
      NothingNew({} + Elems(a), a);
      assert Dedup(a) + [] == Dedup(a);
    } else {
      var i :| 0 <= i < |a| && a[i].at.zone.Decoded?;
      OnlyReread(a, b, i);
    }
  }

  /** A hint with a decoded location is doubled: its second reading is none of the first. */
  lemma OnlyReread(a: seq<Hint>, b: seq<Hint>, i: nat)
    requires LoadedTwice(a, b) && i < |a| && a[i].at.zone.Decoded?
    ensures b[i] in Merged([a, b]) && b[i] !in Merged([a])
  {
    MergeIsSessionOrder([a, b], 0);
    MergeIsSessionOrder([a], 0);
    FlattenOne(a);
    FlattenTwo(a, b);
    assert SameHint(a[i], b[i]);
    assert b[i] in Elems(a + b) by {
      assert (a + b)[|a| + i] == b[i];
    }
    assert forall k | 0 <= k < |a| :: a[k].at.zone != b[i].at.zone;
    assert forall h, s: seq<Hint> :: h in s <==> h in Elems(s);
  }

  /** One hint logged at +05:30, named twice: the sheet lists it twice. */
  lemma NamedTwiceDoubles(a: seq<Hint>, b: seq<Hint>)
    requires a == [Hint(12, "look at the readiness probe", Instant(0, Decoded(19800, 1)))]
    requires b == [Hint(12, "look at the readiness probe", Instant(0, Decoded(19800, 2)))]
    ensures LoadedTwice(a, b) && |Merged([a, b])| == 2
  {
    assert LoadedTwice(a, b);
    OnlyReread(a, b, 0);
    FlattenTwo(a, b);
    var s := a + b;
    NewInOfDistinct(s);
    SortIsStable(s, 0);
    assert |StableSort(s)| == |multiset(StableSort(s))| == |multiset(s)| == |s|;
  }

  /** A merged ledger is already merged. */
  lemma MergeIsIdempotent(sets: seq<seq<Hint>>)
    ensures Merged([Merged(sets)]) == Merged(sets)
  {
    var s, d := Merged(sets), Dedup(Flatten(sets));
    FlattenOne(s);
    MergeIsSessionOrder(sets, 0);
    NewInOfDistinct(s);
    forall m
      ensures OfMinute(s, m) == OfMinute(d, m)
    {
      MergeIsSessionOrder(sets, m);
    }
    SortsAlike(s, d);
  }

  lemma {:induction false} InFlatten(sets: seq<seq<Hint>>, i: nat)
    requires i < |sets|
    ensures Elems(sets[i]) <= Elems(Flatten(sets))
  {
    var last := |sets| - 1;
    if i < last {
      InFlatten(sets[..last], i);
      assert sets[..last][i] == sets[i];
      assert forall h | h in Flatten(sets[..last]) :: h in Flatten(sets);
      assert forall h :: h in Elems(Flatten(sets[..last])) <==> h in Flatten(sets[..last]);
    }
  }
}
