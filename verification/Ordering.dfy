/** Orders and sorting shared by the other modules: the byte-wise order of strings
    (the `<` of Go strings and of Python strings alike) and a sort over any strict
    total order, with the fact that makes a sort deterministic. */
module Ordering {

  predicate StringLess(a: string, b: string) {
    if |b| == 0 then false
    else if |a| == 0 then true
    else if a[0] != b[0] then a[0] < b[0]
    else StringLess(a[1..], b[1..])
  }

  lemma {:induction false} StringLessTrichotomy(a: string, b: string)
    ensures StringLess(a, b) || StringLess(b, a) || a == b
    ensures !(StringLess(a, b) && StringLess(b, a))
    ensures a == b ==> !StringLess(a, b)
  {
    if |a| > 0 && |b| > 0 && a[0] == b[0] {
      StringLessTrichotomy(a[1..], b[1..]);
      assert a[1..] == b[1..] ==> a == [a[0]] + a[1..] == [b[0]] + b[1..] == b;
    }
  }

  /** The order is the lexicographic one: a proper prefix, or a smaller character where the
      strings first differ. */
  lemma {:induction false} StringLessExactly(a: string, b: string)
    ensures StringLess(a, b) <==>
              (|a| < |b| && a == b[..|a|])
              || exists k :: 0 <= k < |a| && k < |b| && a[..k] == b[..k] && a[k] < b[k]
  {
    if |a| > 0 && |b| > 0 && a[0] == b[0] {
      StringLessExactly(a[1..], b[1..]);
      assert a == [a[0]] + a[1..] && b == [b[0]] + b[1..];
      if |a| < |b| && a[1..] == b[1..][..|a| - 1] { assert a == b[..|a|]; }
      if |a| < |b| && a == b[..|a|] { assert a[1..] == b[1..][..|a| - 1]; }
      if k :| 0 <= k < |a[1..]| && k < |b[1..]| && a[1..][..k] == b[1..][..k] && a[1..][k] < b[1..][k] {
        assert a[..k + 1] == [a[0]] + a[1..][..k] && b[..k + 1] == [b[0]] + b[1..][..k];
        assert a[k + 1] < b[k + 1];
      }
      if k :| 0 <= k < |a| && k < |b| && a[..k] == b[..k] && a[k] < b[k] {
        assert k > 0;
        assert a[1..][..k - 1] == a[..k][1..] && b[1..][..k - 1] == b[..k][1..];
        assert a[1..][k - 1] < b[1..][k - 1];
      }
    } else if |a| > 0 && |b| > 0 {
      assert a[..0] == b[..0];
    }
  }

  lemma {:induction false} StringLessTransitive(a: string, b: string, c: string)
    requires StringLess(a, b) && StringLess(b, c)
    ensures StringLess(a, c)
  {
    if |a| > 0 && a[0] == b[0] && b[0] == c[0] {
      StringLessTransitive(a[1..], b[1..], c[1..]);
    }
  }

  /** `before` is irreflexive, transitive and total on `s`. */
  ghost predicate StrictOrderOn<T(!new)>(before: (T, T) -> bool, s: set<T>) {
    && (forall x | x in s :: !before(x, x))
    && (forall x, y, z {:trigger before(x, y), before(y, z)} |
          x in s && y in s && z in s && before(x, y) && before(y, z) :: before(x, z))
    && (forall x, y | x in s && y in s :: x == y || before(x, y) || before(y, x))
  }

  lemma StringOrderOn(s: set<string>)
    ensures StrictOrderOn(StringLess, s)
  {
    forall x, y ensures x == y || StringLess(x, y) || StringLess(y, x)
      ensures !StringLess(x, x)
    {
      StringLessTrichotomy(x, y);
      StringLessTrichotomy(x, x);
    }
    forall x, y, z | StringLess(x, y) && StringLess(y, z) ensures StringLess(x, z) {
      StringLessTransitive(x, y, z);
    }
  }

  function Elements<T>(s: seq<T>): set<T> {
    set x | x in s
  }

  lemma NoElements<T>(s: seq<T>)
    ensures s == [] <==> Elements(s) == {}
  {
    if s != [] { assert s[0] in Elements(s); }
  }

  ghost predicate Sorted<T>(before: (T, T) -> bool, s: seq<T>) {
    forall i, j | 0 <= i < j < |s| :: before(s[i], s[j])
  }

  ghost predicate Distinct<T>(s: seq<T>) {
    forall i, j | 0 <= i < j < |s| :: s[i] != s[j]
  }

  function Insert<T>(before: (T, T) -> bool, x: T, s: seq<T>): seq<T> {
    if s == [] then [x]
    else if before(s[0], x) then [s[0]] + Insert(before, x, s[1..])
    else [x] + s
  }

  function Sort<T>(before: (T, T) -> bool, s: seq<T>): seq<T> {
    if s == [] then [] else Insert(before, s[0], Sort(before, s[1..]))
  }

  lemma {:induction false} InsertElements<T>(before: (T, T) -> bool, x: T, s: seq<T>)
    ensures forall y :: y in Insert(before, x, s) <==> y == x || y in s
  {
    if s != [] && before(s[0], x) {
      InsertElements(before, x, s[1..]);
      assert s == [s[0]] + s[1..];
    }
  }

  lemma {:induction false} InsertSorts<T(!new)>(before: (T, T) -> bool, x: T, s: seq<T>)
    requires StrictOrderOn(before, Elements(s) + {x})
    requires Sorted(before, s) && x !in s
    ensures Sorted(before, Insert(before, x, s))
  {
    if s != [] {
      ghost var all := Elements(s) + {x};
      assert s[0] in all && x in all && s[0] != x;
      if before(s[0], x) {
        assert Elements(s[1..]) + {x} <= all;
        InsertSorts(before, x, s[1..]);
        InsertElements(before, x, s[1..]);
        var t := Insert(before, x, s[1..]);
        forall j | 0 <= j < |t| ensures before(s[0], t[j]) {
          assert t[j] == x || t[j] in s[1..];
          if t[j] in s[1..] {
            var k :| 0 <= k < |s[1..]| && s[1..][k] == t[j];
            assert t[j] == s[k + 1];
          }
        }
      } else {
        forall j | 0 <= j < |s| ensures before(x, s[j]) {
          assert s[j] in all;
          if j > 0 { assert before(s[0], s[j]); }
        }
      }
    }
  }

  /** Sorting a duplicate-free sequence gives the same elements in order. */
  lemma {:induction false} SortSorts<T(!new)>(before: (T, T) -> bool, s: seq<T>)
    requires StrictOrderOn(before, Elements(s)) && Distinct(s)
    ensures Elements(Sort(before, s)) == Elements(s)
    ensures Sorted(before, Sort(before, s))
  {
    if s != [] {
      var rest := s[1..];
      assert s == [s[0]] + rest;
      assert Elements(s) == {s[0]} + Elements(rest);
      SortSorts(before, rest);
      var t := Sort(before, rest);
      assert forall x :: x in t <==> x in Elements(t);
      assert Elements(t) + {s[0]} == Elements(s);
      InsertSorts(before, s[0], t);
      InsertElements(before, s[0], t);
      assert Elements(Insert(before, s[0], t)) == Elements(t) + {s[0]};
    }
  }

  lemma HeadFirst<T(!new)>(before: (T, T) -> bool, s: seq<T>, x: T)
    requires s != [] && Sorted(before, s) && x in s
    ensures x == s[0] || before(s[0], x)
  {
    var k :| 0 <= k < |s| && s[k] == x;
  }

  /** A set has one sorted enumeration, so no choice made while collecting its
      elements shows in the result of a sort. */
  lemma {:induction false} SortedIsUnique<T(!new)>(before: (T, T) -> bool, a: seq<T>, b: seq<T>)
    requires Sorted(before, a) && Sorted(before, b)
    requires Elements(a) == Elements(b)
    requires StrictOrderOn(before, Elements(a))
    ensures a == b
  {
    assert forall x :: (x in a <==> x in Elements(a)) && (x in b <==> x in Elements(b));
    if a == [] {
      NoElements(a);
      NoElements(b);
    } else {
      assert a[0] in b && b[0] in a;
      HeadFirst(before, a, b[0]);
      HeadFirst(before, b, a[0]);
      assert a[0] == b[0];
      TailElements(before, a);
      TailElements(before, b);
      SortedIsUnique(before, a[1..], b[1..]);
      assert a == [a[0]] + a[1..] && b == [b[0]] + b[1..];
    }
  }

  lemma TailElements<T(!new)>(before: (T, T) -> bool, s: seq<T>)
    requires s != [] && Sorted(before, s) && StrictOrderOn(before, Elements(s))
    ensures Elements(s[1..]) == Elements(s) - {s[0]}
  {
    assert s == [s[0]] + s[1..];
    assert s[0] in Elements(s);
    assert s[0] !in s[1..] by {
      assert forall k | 0 <= k < |s[1..]| :: s[1..][k] == s[k + 1] && before(s[0], s[k + 1]);
    }
  }

  function Filter<T>(keep: T -> bool, s: seq<T>): seq<T> {
    if s == [] then []
    else (if keep(s[0]) then [s[0]] else []) + Filter(keep, s[1..])
  }

  lemma {:induction false} FilterMembers<T>(keep: T -> bool, s: seq<T>)
    ensures forall x :: x in Filter(keep, s) <==> x in s && keep(x)
  {
    if s != [] {
      FilterMembers(keep, s[1..]);
      assert s == [s[0]] + s[1..];
    }
  }

  lemma {:induction false} FilterSorted<T(!new)>(before: (T, T) -> bool, keep: T -> bool, s: seq<T>)
    requires Sorted(before, s)
    ensures Sorted(before, Filter(keep, s))
  {
    if s != [] {
      FilterSorted(before, keep, s[1..]);
      FilterMembers(keep, s[1..]);
      var t := Filter(keep, s[1..]);
      forall j | 0 <= j < |t| ensures before(s[0], t[j]) {
        assert t[j] in s[1..];
        var k :| 0 <= k < |s[1..]| && s[1..][k] == t[j];
        assert s[k + 1] == t[j];
      }
    }
  }

  lemma SortedDistinct<T(!new)>(before: (T, T) -> bool, s: seq<T>)
    requires Sorted(before, s) && StrictOrderOn(before, Elements(s))
    ensures Distinct(s)
  {
    forall i, j | 0 <= i < j < |s| ensures s[i] != s[j] {
      assert s[i] in Elements(s) && before(s[i], s[j]);
    }
  }

  ghost function Enumerate<T>(s: set<T>): seq<T> {
    if s == {} then [] else var x :| x in s; [x] + Enumerate(s - {x})
  }

  lemma {:induction false} EnumerateElements<T>(s: set<T>)
    ensures Elements(Enumerate(s)) == s && Distinct(Enumerate(s))
  {
    if s != {} {
      var e := Enumerate(s);
      var x := e[0];
      assert x in s && e == [x] + Enumerate(s - {x});
      EnumerateElements(s - {x});
      assert Elements(e) == {x} + Elements(e[1..]);
      assert forall y :: y in e[1..] <==> y in Elements(e[1..]);
    }
  }

  /** `sorted` of a set of strings. */
  ghost function SortedStrings(s: set<string>): seq<string> { Sort(StringLess, Enumerate(s)) }

  lemma SortedStringsMembers(s: set<string>)
    ensures forall x :: x in SortedStrings(s) <==> x in s
    ensures Distinct(SortedStrings(s)) && Sorted(StringLess, SortedStrings(s))
  {
    EnumerateElements(s);
    StringOrderOn(s);
    SortSorts(StringLess, Enumerate(s));
    SortedDistinct(StringLess, SortedStrings(s));
    assert forall x :: x in SortedStrings(s) <==> x in Elements(SortedStrings(s));
  }

  lemma SubsetSize<T>(a: set<T>, b: set<T>)
    requires a <= b
    ensures |a| <= |b|
  {
    assert b == a + (b - a);
  }

  lemma SubsetOfSameSize<T>(a: set<T>, b: set<T>)
    requires a <= b && |a| == |b|
    ensures a == b
  {
    assert b == a + (b - a);
  }
}
