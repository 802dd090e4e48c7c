/** Stable sorting by an integer key, as `sort_by` and `Array.sort` do it. */
module StableSort {

  predicate SortedBy<T>(s: seq<T>, key: T -> int) {
    forall i, j | 0 <= i < j < |s| :: key(s[i]) <= key(s[j])
  }

  /** Put `x` behind every element whose key is not greater. */
  function Insert<T>(s: seq<T>, x: T, key: T -> int): seq<T> {
    if s == [] then [x]
    else if key(s[|s| - 1]) <= key(x) then s + [x]
    else Insert(s[..|s| - 1], x, key) + [s[|s| - 1]]
  }

  function Sort<T>(s: seq<T>, key: T -> int): seq<T> {
    if s == [] then [] else Insert(Sort(s[..|s| - 1], key), s[|s| - 1], key)
  }

  /** The elements with one key, in their order. */
  function WithKey<T>(s: seq<T>, key: T -> int, k: int): seq<T> {
    if s == [] then []
    else WithKey(s[..|s| - 1], key, k) + if key(s[|s| - 1]) == k then [s[|s| - 1]] else []
  }

  lemma WithKeySnoc<T>(s: seq<T>, x: T, key: T -> int, k: int)
    ensures WithKey(s + [x], key, k) == WithKey(s, key, k) + if key(x) == k then [x] else []
  {
    assert (s + [x])[..|s|] == s;
  }

  lemma {:induction false} InsertAdds<T>(s: seq<T>, x: T, key: T -> int)
    ensures multiset(Insert(s, x, key)) == multiset(s) + multiset{x}
    ensures forall y <- Insert(s, x, key) :: y in s || y == x
  {
    if s != [] {
      var front, last := s[..|s| - 1], s[|s| - 1];
      assert s == front + [last];
      InsertAdds(front, x, key);
    }
  }

  lemma {:induction false} InsertSorts<T>(s: seq<T>, x: T, key: T -> int)
    requires SortedBy(s, key)
    ensures SortedBy(Insert(s, x, key), key)
  {
    if s != [] && key(s[|s| - 1]) > key(x) {
      var front := s[..|s| - 1];
      InsertSorts(front, x, key);
      InsertAdds(front, x, key);
      assert forall y <- front :: key(y) <= key(s[|s| - 1]);
    }
  }

  lemma {:induction false} InsertIsStable<T>(s: seq<T>, x: T, key: T -> int, k: int)
    requires SortedBy(s, key)
    ensures WithKey(Insert(s, x, key), key, k) == WithKey(s, key, k) + if key(x) == k then [x] else []
  {
    if s == [] || key(s[|s| - 1]) <= key(x) {
      WithKeySnoc(s, x, key, k);
      assert s == [] ==> s + [x] == [x];
    } else {
      var front, last := s[..|s| - 1], s[|s| - 1];
      assert s == front + [last];
      InsertIsStable(front, x, key, k);
      WithKeySnoc(Insert(front, x, key), last, key, k);
    }
  }

  /** `Sort` orders by key, keeps the elements, and keeps the order among equal keys. */
  lemma {:induction false} SortIsStableSort<T>(s: seq<T>, key: T -> int)
    ensures SortedBy(Sort(s, key), key)
    ensures multiset(Sort(s, key)) == multiset(s)
    ensures forall k :: WithKey(Sort(s, key), key, k) == WithKey(s, key, k)
  {
    if s != [] {
      var front, last := s[..|s| - 1], s[|s| - 1];
      assert s == front + [last];
      SortIsStableSort(front, key);
      InsertSorts(Sort(front, key), last, key);
      InsertAdds(Sort(front, key), last, key);
      forall k ensures WithKey(Sort(s, key), key, k) == WithKey(s, key, k) {
        InsertIsStable(Sort(front, key), last, key, k);
      }
    }
  }

  lemma SortKeepsElements<T>(s: seq<T>, key: T -> int)
    ensures |Sort(s, key)| == |s|
    ensures forall x :: x in Sort(s, key) <==> x in s
  {
    SortIsStableSort(s, key);
    assert |multiset(Sort(s, key))| == |multiset(s)|;
    forall x ensures x in Sort(s, key) <==> x in s {
      assert x in multiset(Sort(s, key)) <==> x in multiset(s);
    }
  }

  // ---------------------------------------------------------------------------------------
  // Lists keyed by an id
  // ---------------------------------------------------------------------------------------

  predicate UniqueBy<T>(s: seq<T>, id: T -> string) {
    forall i, j | 0 <= i < j < |s| :: id(s[i]) != id(s[j])
  }

  /** How many elements have one id. */
  function CountId<T>(s: seq<T>, id: T -> string, x: string): nat {
    if s == [] then 0 else CountId(s[..|s| - 1], id, x) + if id(s[|s| - 1]) == x then 1 else 0
  }

  lemma {:induction false} CountIdInsert<T>(s: seq<T>, x: T, key: T -> int, id: T -> string, i: string)
    ensures CountId(Insert(s, x, key), id, i) == CountId(s, id, i) + if id(x) == i then 1 else 0
  {
    if s == [] || key(s[|s| - 1]) <= key(x) {
      assert (s + [x])[..|s|] == s;
      assert s == [] ==> s + [x] == [x];
    } else {
      var front, last := s[..|s| - 1], s[|s| - 1];
      CountIdInsert(front, x, key, id, i);
      var inserted := Insert(front, x, key);
      assert (inserted + [last])[..|inserted|] == inserted;
    }
  }

  lemma {:induction false} CountIdSort<T>(s: seq<T>, key: T -> int, id: T -> string, i: string)
    ensures CountId(Sort(s, key), id, i) == CountId(s, id, i)
  {
    if s != [] {
      CountIdSort(s[..|s| - 1], key, id, i);
      CountIdInsert(Sort(s[..|s| - 1], key), s[|s| - 1], key, id, i);
    }
  }

  lemma {:induction false} CountIdPositive<T>(s: seq<T>, id: T -> string, i: nat)
    requires i < |s|
    ensures CountId(s, id, id(s[i])) >= 1
  {
    if i < |s| - 1 {
      CountIdPositive(s[..|s| - 1], id, i);
    }
  }

  lemma {:induction false} CountIdTwice<T>(s: seq<T>, id: T -> string, i: nat, j: nat)
    requires i < j < |s| && id(s[i]) == id(s[j])
    ensures CountId(s, id, id(s[i])) >= 2
  {
    if j < |s| - 1 {
      CountIdTwice(s[..|s| - 1], id, i, j);
    } else {
      CountIdPositive(s[..|s| - 1], id, i);
    }
  }

  lemma {:induction false} UniqueCountsOnce<T>(s: seq<T>, id: T -> string, x: string)
    requires UniqueBy(s, id)
    ensures CountId(s, id, x) <= 1
    ensures CountId(s, id, x) == 1 <==> exists y :: y in s && id(y) == x
  {
    if s != [] {
      var front, last := s[..|s| - 1], s[|s| - 1];
      assert s == front + [last];
      UniqueCountsOnce(front, id, x);
      if y :| y in s && id(y) == x {
        assert y in front || y == last;
      }
    }
  }

  /** Sorting keeps ids unique. */
  lemma SortKeepsUnique<T>(s: seq<T>, key: T -> int, id: T -> string)
    requires UniqueBy(s, id)
    ensures UniqueBy(Sort(s, key), id)
  {
    var t := Sort(s, key);
    forall i, j | 0 <= i < j < |t| ensures id(t[i]) != id(t[j]) {
      if id(t[i]) == id(t[j]) {
        CountIdTwice(t, id, i, j);
        CountIdSort(s, key, id, id(t[i]));
        UniqueCountsOnce(s, id, id(t[i]));
      }
    }
  }
}
