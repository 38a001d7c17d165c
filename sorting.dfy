/** A stable insertion sort over a caller-supplied ordering. It stands for the
    orderings the backing store applies (`order by`) and for JavaScript's
    stable `Array.prototype.sort` with a comparator. */
module Sorting {

  import opened Common

  /** `le` is total and transitive: a comparator consistent enough to sort by. */
  ghost predicate TotalPreorder<T(!new)>(le: (T, T) -> bool)
  {
    && (forall a, b :: le(a, b) || le(b, a))
    && (forall a, b, c :: le(a, b) && le(b, c) ==> le(a, c))
  }

  ghost predicate SortedBy<T>(s: seq<T>, le: (T, T) -> bool)
  {
    forall i, j :: 0 <= i < j < |s| ==> le(s[i], s[j])
  }

  /** Places `x` before the first element it may precede. */
  function Insert<T>(x: T, s: seq<T>, le: (T, T) -> bool): (r: seq<T>)
    ensures |r| == |s| + 1
    ensures multiset(r) == multiset(s) + multiset{x}
  {
    if s == [] then [x]
    else if le(x, s[0]) then [x] + s
    else
      assert s == [s[0]] + s[1..];
      [s[0]] + Insert(x, s[1..], le)
  }

  /** Insertion sort; earlier elements stay before later equal ones. */
  function SortBy<T>(s: seq<T>, le: (T, T) -> bool): (r: seq<T>)
    ensures |r| == |s|
    ensures multiset(r) == multiset(s)
  {
    if s == [] then []
    else
      assert s == [s[0]] + s[1..];
      Insert(s[0], SortBy(s[1..], le), le)
  }

  /** Inserting adds `x` and nothing else. */
  lemma {:induction false} InsertElements<T>(x: T, s: seq<T>, le: (T, T) -> bool)
    ensures forall y :: y in Insert(x, s, le) ==> y == x || y in s
  {
    if s != [] && !le(x, s[0]) {
      InsertElements(x, s[1..], le);
    }
  }

  lemma {:induction false} InsertSorted<T(!new)>(x: T, s: seq<T>, le: (T, T) -> bool)
    requires TotalPreorder(le)
    requires SortedBy(s, le)
    ensures SortedBy(Insert(x, s, le), le)
  {
    if s != [] && !le(x, s[0]) {
      InsertSorted(x, s[1..], le);
      var r := Insert(x, s, le);
      var t := Insert(x, s[1..], le);
      assert r == [s[0]] + t;
      InsertElements(x, s[1..], le);
      assert le(s[0], x);
      forall j | 0 < j < |r|
        ensures le(r[0], r[j])
      {
        var y := t[j - 1];
        assert r[j] == y && y in t;
        if y != x {
          var k :| 0 <= k < |s[1..]| && s[1..][k] == y;
          assert s[k + 1] == y;
        }
      }
    }
  }

  /** The sort's output is ordered whenever `le` is a total preorder. */
  lemma {:induction false} SortBySorted<T(!new)>(s: seq<T>, le: (T, T) -> bool)
    requires TotalPreorder(le)
    ensures SortedBy(SortBy(s, le), le)
  {
    if s != [] {
      SortBySorted(s[1..], le);
      InsertSorted(s[0], SortBy(s[1..], le), le);
    }
  }

  /** Sorting an input that is already ordered changes nothing. */
  lemma {:induction false} SortBySortedInput<T(!new)>(s: seq<T>, le: (T, T) -> bool)
    requires SortedBy(s, le)
    ensures SortBy(s, le) == s
  {
    if s != [] {
      assert SortedBy(s[1..], le);
      SortBySortedInput(s[1..], le);
      assert SortBy(s, le) == Insert(s[0], s[1..], le);
      if |s| > 1 {
        assert le(s[0], s[1]);
      }
    }
  }

  lemma {:induction false} InsertKeepsDistinct<T, K>(x: T, s: seq<T>, le: (T, T) -> bool, key: T -> K)
    requires DistinctBy(s, key)
    requires forall i :: 0 <= i < |s| ==> key(s[i]) != key(x)
    ensures DistinctBy(Insert(x, s, le), key)
  {
    if s != [] && !le(x, s[0]) {
      assert DistinctBy(s[1..], key);
      InsertKeepsDistinct(x, s[1..], le, key);
      var t := Insert(x, s[1..], le);
      forall j | 0 <= j < |t| ensures key(s[0]) != key(t[j]) {
        assert t[j] in multiset(t);
        if t[j] != x {
          assert t[j] in multiset(s[1..]);
          var k :| 0 <= k < |s[1..]| && s[1..][k] == t[j];
          assert s[k + 1] == t[j];
        }
      }
    }
  }

  /** Sorting a sequence with unique keys keeps the keys unique. */
  lemma {:induction false} SortByKeepsDistinct<T, K>(s: seq<T>, le: (T, T) -> bool, key: T -> K)
    requires DistinctBy(s, key)
    ensures DistinctBy(SortBy(s, le), key)
  {
    if s != [] {
      assert DistinctBy(s[1..], key);
      SortByKeepsDistinct(s[1..], le, key);
      var t := SortBy(s[1..], le);
      forall j | 0 <= j < |t| ensures key(t[j]) != key(s[0]) {
        assert t[j] in multiset(s[1..]);
        var k :| 0 <= k < |s[1..]| && s[1..][k] == t[j];
        assert s[k + 1] == t[j];
      }
      InsertKeepsDistinct(s[0], t, le, key);
    }
  }

  /** The elements `le` ranks equal to `e`. */
  ghost predicate TiedWith<T>(le: (T, T) -> bool, e: T, y: T)
  {
    le(y, e) && le(e, y)
  }

  /** The elements of `s` tied with `e`, in the order of `s`. */
  ghost function Ties<T>(s: seq<T>, le: (T, T) -> bool, e: T): seq<T>
  {
    if s == [] then [] else (if TiedWith(le, e, s[0]) then [s[0]] else []) + Ties(s[1..], le, e)
  }

  /** Inserting `x` keeps the order of the elements tied with `e`, with `x`
      ahead of them when it is one of them. */
  lemma {:induction false} InsertKeepsTies<T>(x: T, s: seq<T>, le: (T, T) -> bool, e: T)
    requires forall y :: le(x, e) && le(e, y) ==> le(x, y)
    ensures Ties(Insert(x, s, le), le, e) == (if TiedWith(le, e, x) then [x] else []) + Ties(s, le, e)
  {
    if s == [] {
    } else if le(x, s[0]) {
      assert ([x] + s)[1..] == s;
    } else {
      InsertKeepsTies(x, s[1..], le, e);
      var t := Insert(x, s[1..], le);
      var rest := Ties(s[1..], le, e);
      assert Insert(x, s, le) == [s[0]] + t;
      assert ([s[0]] + t)[1..] == t;
      assert Ties([s[0]] + t, le, e) == (if TiedWith(le, e, s[0]) then [s[0]] else []) + Ties(t, le, e);
      if TiedWith(le, e, x) {
        assert !TiedWith(le, e, s[0]);
        assert Ties(t, le, e) == [x] + rest;
        assert Ties(s, le, e) == rest;
      } else {
        assert Ties(t, le, e) == rest;
      }
    }
  }

  /** The sort is stable: the elements tied with any `e` come out in the
      order they came in. */
  lemma {:induction false} SortByStable<T(!new)>(s: seq<T>, le: (T, T) -> bool, e: T)
    requires TotalPreorder(le)
    ensures Ties(SortBy(s, le), le, e) == Ties(s, le, e)
  {
    if s != [] {
      SortByStable(s[1..], le, e);
      assert forall y :: le(s[0], e) && le(e, y) ==> le(s[0], y);
      InsertKeepsTies(s[0], SortBy(s[1..], le), le, e);
    }
  }
}
