/**
 Byte-wise string order, as strings.Compare and slices.Sorted use it, and the
 sorted key list of a map. A strictly sorted list is determined by its
 elements, which is what makes every name derived from a map well defined.
 */
module Order {

  predicate Less(a: string, b: string) {
    if b == [] then false
    else if a == [] then true
    else a[0] < b[0] || (a[0] == b[0] && Less(a[1..], b[1..]))
  }

  /** That is, a proper prefix, or smaller at the first character that differs. */
  lemma {:induction false} LessMeans(a: string, b: string)
    ensures Less(a, b) <==> (a <= b && a != b) || exists n | 0 <= n < |a| && n < |b| :: a[..n] == b[..n] && a[n] < b[n]
  {
    if a != [] && b != [] {
      LessMeans(a[1..], b[1..]);
      forall n | 0 <= n < |a| && n < |b| && a[..n] == b[..n] && a[n] < b[n]
        ensures Less(a, b)
      {
        if n > 0 {
          assert a[0] == a[..n][0] == b[..n][0];
          assert a[1..][..n - 1] == a[..n][1..] == b[..n][1..] == b[1..][..n - 1];
        }
      }
      if a[0] == b[0] {
        if n :| 0 <= n < |a[1..]| && n < |b[1..]| && a[1..][..n] == b[1..][..n] && a[1..][n] < b[1..][n] {
          assert a[..n + 1] == [a[0]] + a[1..][..n] && b[..n + 1] == [b[0]] + b[1..][..n];
        }
        assert a == [a[0]] + a[1..] && b == [b[0]] + b[1..];
      } else {
        assert a[..0] == b[..0];
      }
    }
  }

  function Elems<T>(s: seq<T>): set<T> {
    set x | x in s
  }

  lemma ElemsEmpty<T>(s: seq<T>)
    ensures Elems(s) == {} <==> s == []
  {
    if s != [] {
      assert s[0] in Elems(s);
    }
  }

  ghost predicate Sorted(s: seq<string>) {
    forall i, j | 0 <= i < j < |s| :: Less(s[i], s[j])
  }

  lemma LessIrreflexive(a: string)
    ensures !Less(a, a)
  {
  }

  lemma {:induction false} LessTransitive(a: string, b: string, c: string)
    requires Less(a, b) && Less(b, c)
    ensures Less(a, c)
  {
    if a != [] && a[0] == b[0] == c[0] {
      LessTransitive(a[1..], b[1..], c[1..]);
    }
  }

  lemma {:induction false} LessTotal(a: string, b: string)
    ensures a == b || Less(a, b) || Less(b, a)
  {
    if a != [] && b != [] && a[0] == b[0] {
      LessTotal(a[1..], b[1..]);
      assert a == [a[0]] + a[1..] && b == [b[0]] + b[1..];
    }
  }

  lemma LessAsymmetric(a: string, b: string)
    requires Less(a, b)
    ensures !Less(b, a) && a != b
  {
    LessIrreflexive(a);
    if Less(b, a) {
      LessTransitive(a, b, a);
    }
  }

  lemma SortedDistinct(ids: seq<string>)
    requires Sorted(ids)
    ensures forall i, j | 0 <= i < j < |ids| :: ids[i] != ids[j]
  {
    forall i, j | 0 <= i < j < |ids|
      ensures ids[i] != ids[j]
    {
      LessIrreflexive(ids[i]);
    }
  }

  /** The head of a strictly sorted list is below everything behind it. */
  lemma SortedTail(s: seq<string>)
    requires Sorted(s) && s != []
    ensures Sorted(s[1..])
    ensures s[0] !in s[1..]
    ensures Elems(s[1..]) == Elems(s) - {s[0]}
  {
    LessIrreflexive(s[0]);
    assert s == [s[0]] + s[1..];
  }

  lemma HeadsAgree(a: seq<string>, b: seq<string>)
    requires Sorted(a) && Sorted(b) && a != [] && b != []
    requires a[0] in b && b[0] in a
    ensures a[0] == b[0]
  {
    var i :| 0 <= i < |b| && b[i] == a[0];
    var j :| 0 <= j < |a| && a[j] == b[0];
    if i > 0 && j > 0 {
      LessAsymmetric(b[0], b[i]);
      assert false;
    }
  }

  /** Two strictly sorted lists with the same elements are the same list. */
  lemma {:induction false} SortedUnique(a: seq<string>, b: seq<string>)
    requires Sorted(a) && Sorted(b)
    requires Elems(a) == Elems(b)
    ensures a == b
  {
    if a == [] {
      ElemsEmpty(b);
    } else {
      assert a[0] in Elems(a);
      assert b != [] && b[0] in Elems(b);
      HeadsAgree(a, b);
      SortedTail(a);
      SortedTail(b);
      SortedUnique(a[1..], b[1..]);
      assert a == [a[0]] + a[1..] && b == [b[0]] + b[1..];
    }
  }

  predicate IsLeast(least: string, keys: set<string>) {
    least in keys && forall k | k in keys && k != least :: Less(least, k)
  }

  /** A nonempty set of strings has exactly one least element. */
  lemma {:induction false} LeastExists(keys: set<string>)
    requires keys != {}
    ensures exists least :: IsLeast(least, keys)
    ensures forall a, b | IsLeast(a, keys) && IsLeast(b, keys) :: a == b
  {
    forall a, b | IsLeast(a, keys) && IsLeast(b, keys)
      ensures a == b
    {
      if a != b {
        LessAsymmetric(a, b);
      }
    }
    var k :| k in keys;
    if keys == {k} {
      assert IsLeast(k, keys);
    } else {
      var rest := keys - {k};
      LeastExists(rest);
      var m :| IsLeast(m, rest);
      LessTotal(k, m);
      if Less(k, m) {
        forall o | o in keys && o != k
          ensures Less(k, o)
        {
          if o != m {
            LessTransitive(k, m, o);
          }
        }
        assert IsLeast(k, keys);
      } else {
        assert IsLeast(m, keys);
      }
    }
  }

  function Least(keys: set<string>): (least: string)
    requires keys != {}
    ensures IsLeast(least, keys)
  {
    LeastExists(keys);
    var least :| least in keys && IsLeast(least, keys);
    least
  }

  /** slices.Sorted over a map's keys. */
  function SortedKeys(keys: set<string>): (s: seq<string>)
    ensures Sorted(s)
    ensures Elems(s) == keys
  {
    if keys == {} then []
    else
      var least := Least(keys);
      var rest := SortedKeys(keys - {least});
      ConsSorted(least, rest);
      [least] + rest
  }

  lemma ConsSorted(least: string, rest: seq<string>)
    requires Sorted(rest)
    requires forall k | k in Elems(rest) :: Less(least, k)
    ensures Sorted([least] + rest)
    ensures Elems([least] + rest) == {least} + Elems(rest)
  {
    var s := [least] + rest;
    forall i, j | 0 <= i < j < |s|
      ensures Less(s[i], s[j])
    {
      assert s[j] == rest[j - 1];
      assert rest[j - 1] in Elems(rest);
    }
  }
}
