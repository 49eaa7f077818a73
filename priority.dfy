/**
  The ordering step of `init_middlewares`: `middleware.sort(key=take_second)`,
  a stable ascending sort of (callable, priority) pairs by priority. The sort is
  given by insertion, each entry placed after every entry of equal or smaller
  priority already placed, and its three promises are proved: the result is
  ordered, it is a permutation, and entries of equal priority keep their order.
 */
module Priority {

  /** Inserts `x` after every entry whose priority is not greater than its own. */
  function Insert<T>(s: seq<(T, int)>, x: (T, int)): (r: seq<(T, int)>) {
    if s == [] then [x]
    else if x.1 < s[0].1 then [x] + s
    else [s[0]] + Insert(s[1..], x)
  }

  /** The list after `sort(key=take_second)`. */
  function SortByPriority<T>(s: seq<(T, int)>): (r: seq<(T, int)>) {
    if s == [] then [] else Insert(SortByPriority(s[..|s| - 1]), s[|s| - 1])
  }

  /** Non-decreasing by priority. */
  ghost predicate Sorted<T>(s: seq<(T, int)>) {
    forall i, j :: 0 <= i < j < |s| ==> s[i].1 <= s[j].1
  }

  /** The entries of priority `k`, in list order. */
  ghost function WithPriority<T>(s: seq<(T, int)>, k: int): (r: seq<(T, int)>) {
    if s == [] then [] else (if s[0].1 == k then [s[0]] else []) + WithPriority(s[1..], k)
  }

  // ---------------------------------------------------------------- insertion

  lemma {:induction false} InsertSorted<T>(s: seq<(T, int)>, x: (T, int))
    requires Sorted(s)
    ensures Sorted(Insert(s, x))
    ensures |Insert(s, x)| == |s| + 1
    ensures forall e :: e in Insert(s, x) ==> e in s || e == x
  {
    if s != [] && x.1 >= s[0].1 {
      InsertSorted(s[1..], x);
      var r := Insert(s, x);
      forall i, j | 0 <= i < j < |r| ensures r[i].1 <= r[j].1 {
        if i == 0 {
          assert r[j] in Insert(s[1..], x);
          assert r[j] in s[1..] || r[j] == x;
        }
      }
    }
  }

  lemma {:induction false} InsertMultiset<T>(s: seq<(T, int)>, x: (T, int))
    ensures multiset(Insert(s, x)) == multiset(s) + multiset{x}
  {
    if s != [] && x.1 >= s[0].1 {
      InsertMultiset(s[1..], x);
      assert s == [s[0]] + s[1..];
    }
  }

  lemma {:induction false} WithPriorityAppend<T>(a: seq<(T, int)>, b: seq<(T, int)>, k: int)
    ensures WithPriority(a + b, k) == WithPriority(a, k) + WithPriority(b, k)
  {
    if a == [] {
      assert a + b == b;
    } else {
      var c := a + b;
      assert c[0] == a[0] && c[1..] == a[1..] + b;
      WithPriorityAppend(a[1..], b, k);
      var h := if a[0].1 == k then [a[0]] else [];
      calc {
        WithPriority(c, k);
        h + WithPriority(a[1..] + b, k);
        h + (WithPriority(a[1..], k) + WithPriority(b, k));
        (h + WithPriority(a[1..], k)) + WithPriority(b, k);
      }
    }
  }

  lemma {:induction false} WithPriorityNone<T>(s: seq<(T, int)>, k: int)
    requires forall e :: e in s ==> e.1 != k
    ensures WithPriority(s, k) == []
  {
    if s != [] {
      WithPriorityNone(s[1..], k);
    }
  }

  /** Inserting `x` puts it last among the entries of its own priority. */
  lemma {:induction false} InsertStable<T>(s: seq<(T, int)>, x: (T, int), k: int)
    requires Sorted(s)
    ensures WithPriority(Insert(s, x), k) == WithPriority(s, k) + (if x.1 == k then [x] else [])
  {
    if s == [] {
      assert Insert(s, x) == [x];
    } else if x.1 < s[0].1 {
      InsertFront(s, x, k);
    } else {
      var tail := Insert(s[1..], x);
      assert Insert(s, x) == [s[0]] + tail;
      InsertStable(s[1..], x, k);
      WithPriorityCons(s[0], tail, k);
      WithPriorityCons(s[0], s[1..], k);
      assert [s[0]] + s[1..] == s;
    }
  }

  /** An entry placed before a sorted list of greater priorities adds itself to its own priority only. */
  lemma InsertFront<T>(s: seq<(T, int)>, x: (T, int), k: int)
    requires Sorted(s) && s != [] && x.1 < s[0].1
    ensures WithPriority(Insert(s, x), k) == WithPriority(s, k) + (if x.1 == k then [x] else [])
  {
    assert Insert(s, x) == [x] + s;
    WithPriorityCons(x, s, k);
    if x.1 == k {
      forall e | e in s ensures e.1 != k {
        var i :| 0 <= i < |s| && s[i] == e;
        assert s[0].1 <= s[i].1;
      }
      WithPriorityNone(s, k);
    }
  }

  lemma WithPriorityCons<T>(x: (T, int), s: seq<(T, int)>, k: int)
    ensures WithPriority([x] + s, k) == (if x.1 == k then [x] else []) + WithPriority(s, k)
  {
    assert ([x] + s)[0] == x && ([x] + s)[1..] == s;
  }

  // ---------------------------------------------------------------- the sort

  /** The sorted list is non-decreasing by priority. */
  lemma {:induction false} SortSorted<T>(s: seq<(T, int)>)
    ensures Sorted(SortByPriority(s))
    ensures |SortByPriority(s)| == |s|
  {
    if s != [] {
      SortSorted(s[..|s| - 1]);
      InsertSorted(SortByPriority(s[..|s| - 1]), s[|s| - 1]);
    }
  }

  /** The sorted list holds the same entries, as often as the original. */
  lemma {:induction false} SortPermutation<T>(s: seq<(T, int)>)
    ensures multiset(SortByPriority(s)) == multiset(s)
  {
    if s != [] {
      SortPermutation(s[..|s| - 1]);
      InsertMultiset(SortByPriority(s[..|s| - 1]), s[|s| - 1]);
      assert s == s[..|s| - 1] + [s[|s| - 1]];
    }
  }

  /** Entries of equal priority keep their original relative order. */
  lemma {:induction false} SortStable<T>(s: seq<(T, int)>, k: int)
    ensures WithPriority(SortByPriority(s), k) == WithPriority(s, k)
  {
    if s != [] {
      var init, last := s[..|s| - 1], s[|s| - 1];
      SortStable(init, k);
      SortSorted(init);
      InsertStable(SortByPriority(init), last, k);
      assert s == init + [last];
      WithPriorityAppend(init, [last], k);
    }
  }

  // ---------------------------------------------------------------- uniqueness

  lemma {:induction false} WithPriorityMember<T>(s: seq<(T, int)>, k: int, e: (T, int))
    ensures e in WithPriority(s, k) <==> e in s && e.1 == k
  {
    if s != [] {
      WithPriorityMember(s[1..], k, e);
    }
  }

  /** In a sorted list, the entries of the first entry's priority start with it. */
  lemma WithPriorityHead<T>(s: seq<(T, int)>)
    requires s != [] && Sorted(s)
    ensures WithPriority(s, s[0].1) == [s[0]] + WithPriority(s[1..], s[0].1)
  {
  }

  lemma {:induction false} WithPriorityTail<T>(s: seq<(T, int)>, k: int)
    requires s != []
    ensures WithPriority(s[1..], k) == if s[0].1 == k then WithPriority(s, k)[1..] else WithPriority(s, k)
  {
  }

  /**
    Ordering and stability pin the result down: a list that is sorted by priority
    and has, for every priority, the same entries in the same order as `s`, is
    the sorted `s`.
   */
  lemma {:induction false} SortUnique<T>(s: seq<(T, int)>, t: seq<(T, int)>)
    requires Sorted(t)
    requires forall k :: WithPriority(t, k) == WithPriority(s, k)
    ensures t == SortByPriority(s)
  {
    var u := SortByPriority(s);
    SortSorted(s);
    forall k ensures WithPriority(t, k) == WithPriority(u, k) {
      SortStable(s, k);
    }
    SortedEqual(t, u);
  }

  lemma SameEmptiness<T>(a: seq<(T, int)>, b: seq<(T, int)>)
    requires forall k :: WithPriority(a, k) == WithPriority(b, k)
    ensures a == [] <==> b == []
  {
    if a != [] {
      assert WithPriority(a, a[0].1) != [];
    }
    if b != [] {
      assert WithPriority(b, b[0].1) != [];
    }
  }

  lemma {:induction false} SortedEqual<T>(a: seq<(T, int)>, b: seq<(T, int)>)
    requires Sorted(a) && Sorted(b)
    requires forall k :: WithPriority(a, k) == WithPriority(b, k)
    ensures a == b
    decreases |a|
  {
    SameEmptiness(a, b);
    if a != [] {
      var p, q := a[0].1, b[0].1;
      // the two smallest priorities agree
      WithPriorityMember(a, q, b[0]);
      WithPriorityMember(b, q, b[0]);
      WithPriorityMember(b, p, a[0]);
      WithPriorityMember(a, p, a[0]);
      assert a[0] in WithPriority(b, p);
      assert b[0] in WithPriority(a, q);
      assert p == q;
      WithPriorityHead(a);
      WithPriorityHead(b);
      assert a[0] == b[0] by {
        assert WithPriority(a, p)[0] == a[0];
        assert WithPriority(b, p)[0] == b[0];
      }
      forall k ensures WithPriority(a[1..], k) == WithPriority(b[1..], k) {
        WithPriorityTail(a, k);
        WithPriorityTail(b, k);
      }
      SortedEqual(a[1..], b[1..]);
      assert a == [a[0]] + a[1..] && b == [b[0]] + b[1..];
    }
  }
}
