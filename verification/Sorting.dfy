/**
 Sorting by a strict order.  The library sort the runtime calls is unspecified as an
 algorithm; `SortedIsUnique` shows that under a strict total order every sort returns
 the same list, so the insertion sort below stands for all of them.
 */
module Sorting {

  function Insert<T>(less: (T, T) -> bool, x: T, s: seq<T>): seq<T> {
    if s == [] then [x]
    else if less(s[0], x) then [s[0]] + Insert(less, x, s[1..])
    else [x] + s
  }

  function Sort<T>(less: (T, T) -> bool, s: seq<T>): seq<T> {
    if s == [] then [] else Insert(less, s[0], Sort(less, s[1..]))
  }

  /** `less` is a strict total order on the elements of `s`. */
  ghost predicate StrictTotalOn<T(!new)>(less: (T, T) -> bool, s: multiset<T>) {
    && (forall x {:trigger less(x, x)} | x in s :: !less(x, x))
    && (forall x, y {:trigger less(x, y)} | x in s && y in s && x != y :: less(x, y) || less(y, x))
    && (forall x, y, z {:trigger less(x, y), less(y, z)} | x in s && y in s && z in s && less(x, y) && less(y, z) :: less(x, z))
  }

  /** Nothing in `s` comes before `x`. */
  ghost predicate LeadsAll<T>(less: (T, T) -> bool, x: T, s: seq<T>) {
    forall y {:trigger y in s} :: y in s ==> y == x || less(x, y)
  }

  ghost predicate Sorted<T>(less: (T, T) -> bool, s: seq<T>) {
    s != [] ==> LeadsAll(less, s[0], s[1..]) && Sorted(less, s[1..])
  }

  lemma {:induction false} InsertPermutes<T>(less: (T, T) -> bool, x: T, s: seq<T>)
    ensures multiset(Insert(less, x, s)) == multiset(s) + multiset{x}
    ensures |Insert(less, x, s)| == |s| + 1
  {
    if s != [] {
      assert s == [s[0]] + s[1..];
      if less(s[0], x) {
        InsertPermutes(less, x, s[1..]);
      }
    }
  }

  lemma {:induction false} SortPermutes<T>(less: (T, T) -> bool, s: seq<T>)
    ensures multiset(Sort(less, s)) == multiset(s)
    ensures |Sort(less, s)| == |s|
  {
    if s != [] {
      assert s == [s[0]] + s[1..];
      SortPermutes(less, s[1..]);
      InsertPermutes(less, s[0], Sort(less, s[1..]));
    }
  }

  lemma {:induction false} InsertSorted<T(!new)>(less: (T, T) -> bool, x: T, s: seq<T>)
    requires StrictTotalOn(less, multiset(s) + multiset{x})
    requires Sorted(less, s)
    ensures Sorted(less, Insert(less, x, s))
  {
    if s != [] {
      assert s == [s[0]] + s[1..];
      assert multiset(s) == multiset{s[0]} + multiset(s[1..]);
      if less(s[0], x) {
        InsertSorted(less, x, s[1..]);
        InsertPermutes(less, x, s[1..]);
        var t := Insert(less, x, s[1..]);
        forall y | y in t ensures y == s[0] || less(s[0], y) {
          assert y in multiset(t);
          assert y == x || y in multiset(s[1..]);
          assert y == x || y in s[1..];
        }
        assert Insert(less, x, s)[1..] == t;
      } else {
        forall y | y in s ensures y == x || less(x, y) {
          assert y in multiset(s) && s[0] in multiset(s);
          assert y == s[0] || y in s[1..];
          assert x == s[0] || less(x, s[0]);
        }
        assert Insert(less, x, s)[1..] == s;
      }
    }
  }

  lemma {:induction false} SortSorts<T(!new)>(less: (T, T) -> bool, s: seq<T>)
    requires StrictTotalOn(less, multiset(s))
    ensures Sorted(less, Sort(less, s))
  {
    if s != [] {
      assert s == [s[0]] + s[1..];
      assert multiset(s) == multiset(s[1..]) + multiset{s[0]};
      SortSorts(less, s[1..]);
      SortPermutes(less, s[1..]);
      InsertSorted(less, s[0], Sort(less, s[1..]));
    }
  }

  lemma FirstLeads<T>(less: (T, T) -> bool, s: seq<T>, y: T)
    requires Sorted(less, s) && y in s
    ensures y == s[0] || less(s[0], y)
  {
    assert s == [s[0]] + s[1..];
  }

  /** Two sorted lists with the same elements are the same list. */
  lemma {:induction false} SortedIsUnique<T(!new)>(less: (T, T) -> bool, a: seq<T>, b: seq<T>)
    requires multiset(a) == multiset(b)
    requires StrictTotalOn(less, multiset(a))
    requires Sorted(less, a) && Sorted(less, b)
    ensures a == b
  {
    assert |a| == |multiset(a)| == |multiset(b)| == |b|;
    if a != [] {
      SameFirst(less, a, b);
      assert a == [a[0]] + a[1..] && b == [b[0]] + b[1..];
      assert multiset(a[1..]) == multiset(a) - multiset{a[0]};
      assert multiset(b[1..]) == multiset(b) - multiset{a[0]};
      StrictTotalOnFewer(less, multiset(a), multiset(a[1..]));
      SortedIsUnique(less, a[1..], b[1..]);
    }
  }

  lemma StrictTotalOnFewer<T(!new)>(less: (T, T) -> bool, s: multiset<T>, t: multiset<T>)
    requires StrictTotalOn(less, s) && t <= s
    ensures StrictTotalOn(less, t)
  {
  }

  lemma SameFirst<T(!new)>(less: (T, T) -> bool, a: seq<T>, b: seq<T>)
    requires multiset(a) == multiset(b) && a != [] && b != []
    requires StrictTotalOn(less, multiset(a))
    requires Sorted(less, a) && Sorted(less, b)
    ensures a[0] == b[0]
  {
    assert a[0] in multiset(b) && b[0] in multiset(a);
    assert a[0] in b && b[0] in a;
    FirstLeads(less, a, b[0]);
    FirstLeads(less, b, a[0]);
    assert !less(a[0], a[0]);
  }

  /** Sorting forgets the input order. */
  lemma SortForgetsOrder<T(!new)>(less: (T, T) -> bool, a: seq<T>, b: seq<T>)
    requires multiset(a) == multiset(b)
    requires StrictTotalOn(less, multiset(a))
    ensures Sort(less, a) == Sort(less, b)
  {
    SortPermutes(less, a);
    SortPermutes(less, b);
    SortSorts(less, a);
    SortSorts(less, b);
    SortedIsUnique(less, Sort(less, a), Sort(less, b));
  }
}
