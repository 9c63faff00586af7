/**
  * Python's `list.sort(key=k, reverse=True)`: a stable sort into descending key order.
  * `ge(a, b)` says that `a`'s key is at least `b`'s key; it must be a total preorder.
  */
module Sorting {

  ghost predicate Transitive<T(!new)>(ge: (T, T) -> bool) {
    forall a, b, c :: ge(a, b) && ge(b, c) ==> ge(a, c)
  }

  ghost predicate TotalPreorder<T(!new)>(ge: (T, T) -> bool) {
    (forall a, b :: ge(a, b) || ge(b, a)) && Transitive(ge)
  }

  /** Non-increasing key order. */
  ghost predicate SortedDesc<T>(s: seq<T>, ge: (T, T) -> bool) {
    forall i, j :: 0 <= i < j < |s| ==> ge(s[i], s[j])
  }

  /** Equal keys. */
  predicate Tied<T>(ge: (T, T) -> bool, a: T, b: T) {
    ge(a, b) && ge(b, a)
  }

  /** The elements of `s` whose key ties with `y`'s, in their order in `s`. */
  function TiedWith<T>(s: seq<T>, ge: (T, T) -> bool, y: T): (r: seq<T>)
    ensures |r| <= |s|
  {
    if s == [] then []
    else (if Tied(ge, s[0], y) then [s[0]] else []) + TiedWith(s[1..], ge, y)
  }

  /** Places `x` after every element whose key is at least `x`'s. */
  function Insert<T>(x: T, s: seq<T>, ge: (T, T) -> bool): (r: seq<T>)
    ensures multiset(r) == multiset(s) + multiset{x}
  {
    if s == [] then [x]
    else if ge(s[0], x) then
      assert s == [s[0]] + s[1..];
      [s[0]] + Insert(x, s[1..], ge)
    else [x] + s
  }

  /** The stable descending sort, by insertion. */
  function SortDesc<T>(s: seq<T>, ge: (T, T) -> bool): (r: seq<T>)
    ensures multiset(r) == multiset(s)
  {
    if s == [] then []
    else
      assert s == s[..|s| - 1] + [s[|s| - 1]];
      Insert(s[|s| - 1], SortDesc(s[..|s| - 1], ge), ge)
  }

  lemma {:induction false} InsertSorted<T(!new)>(x: T, s: seq<T>, ge: (T, T) -> bool)
    requires TotalPreorder(ge) && SortedDesc(s, ge)
    ensures SortedDesc(Insert(x, s, ge), ge)
  {
    if s == [] {
    } else if ge(s[0], x) {
      SortedTail(s, ge);
      InsertSorted(x, s[1..], ge);
      var t := Insert(x, s[1..], ge);
      assert Insert(x, s, ge) == [s[0]] + t;
      forall e | e in t ensures ge(s[0], e) {
        HeadAboveInsert(x, s, ge, e);
      }
      ConsSorted(s[0], t, ge);
    } else {
      forall e | e in s ensures ge(x, e) {
        var k :| 0 <= k < |s| && s[k] == e;
        assert k == 0 || ge(s[0], s[k]);
      }
      ConsSorted(x, s, ge);
    }
  }

  lemma SortedTail<T>(s: seq<T>, ge: (T, T) -> bool)
    requires SortedDesc(s, ge) && s != []
    ensures SortedDesc(s[1..], ge)
  {
    forall i, j | 0 <= i < j < |s| - 1 ensures ge(s[1..][i], s[1..][j]) {
      assert s[1..][i] == s[i + 1] && s[1..][j] == s[j + 1];
    }
  }

  lemma ConsSorted<T>(h: T, t: seq<T>, ge: (T, T) -> bool)
    requires SortedDesc(t, ge) && forall e :: e in t ==> ge(h, e)
    ensures SortedDesc([h] + t, ge)
  {
    forall i, j | 0 <= i < j < |t| + 1 ensures ge(([h] + t)[i], ([h] + t)[j]) {
      if i == 0 {
        assert ([h] + t)[j] == t[j - 1];
      } else {
        assert ([h] + t)[i] == t[i - 1] && ([h] + t)[j] == t[j - 1];
      }
    }
  }

  lemma HeadAboveInsert<T>(x: T, s: seq<T>, ge: (T, T) -> bool, e: T)
    requires SortedDesc(s, ge) && s != [] && ge(s[0], x)
    requires e in Insert(x, s[1..], ge)
    ensures ge(s[0], e)
  {
    assert e in multiset(Insert(x, s[1..], ge));
    assert e in multiset(s[1..]) + multiset{x};
    if e != x {
      assert e in s[1..];
      var k :| 0 <= k < |s[1..]| && s[1..][k] == e;
      assert s[k + 1] == e;
    }
  }

  /** The result is in descending key order. */
  lemma {:induction false} SortDescSorted<T(!new)>(s: seq<T>, ge: (T, T) -> bool)
    requires TotalPreorder(ge)
    ensures SortedDesc(SortDesc(s, ge), ge)
  {
    if s != [] {
      SortDescSorted(s[..|s| - 1], ge);
      InsertSorted(s[|s| - 1], SortDesc(s[..|s| - 1], ge), ge);
    }
  }

  lemma {:induction false} TiedWithNone<T>(s: seq<T>, ge: (T, T) -> bool, y: T)
    requires forall e :: e in s ==> !Tied(ge, e, y)
    ensures TiedWith(s, ge, y) == []
  {
    if s != [] {
      TiedWithNone(s[1..], ge, y);
    }
  }

  lemma NothingTiedBelow<T(!new)>(x: T, s: seq<T>, ge: (T, T) -> bool, y: T)
    requires Transitive(ge) && SortedDesc(s, ge)
    requires s != [] && !ge(s[0], x) && Tied(ge, x, y)
    ensures forall e :: e in s ==> !Tied(ge, e, y)
  {
    forall e | e in s ensures !ge(e, y) {
      var i :| 0 <= i < |s| && s[i] == e;
      assert i == 0 || ge(s[0], s[i]);
    }
  }

  lemma {:induction false} InsertStable<T(!new)>(x: T, s: seq<T>, ge: (T, T) -> bool, y: T)
    requires Transitive(ge) && SortedDesc(s, ge)
    ensures TiedWith(Insert(x, s, ge), ge, y) ==
            TiedWith(s, ge, y) + (if Tied(ge, x, y) then [x] else [])
    decreases |s|, 1
  {
    if s == [] {
      assert TiedWith([x], ge, y) == (if Tied(ge, x, y) then [x] else []) + TiedWith([], ge, y);
    } else if ge(s[0], x) {
      InsertStableAfterHead(x, s, ge, y);
    } else {
      InsertStableAtFront(x, s, ge, y);
    }
  }

  lemma {:induction false} InsertStableAfterHead<T(!new)>(x: T, s: seq<T>, ge: (T, T) -> bool, y: T)
    requires Transitive(ge) && SortedDesc(s, ge) && s != [] && ge(s[0], x)
    ensures TiedWith(Insert(x, s, ge), ge, y) ==
            TiedWith(s, ge, y) + (if Tied(ge, x, y) then [x] else [])
    decreases |s|, 0
  {
    SortedTail(s, ge);
    InsertStable(x, s[1..], ge, y);
    InsertAfterHeadTies(x, s, ge, y);
  }

  /** Inserting behind the head: the head's tie (if any) comes first, then the tail's. */
  lemma InsertAfterHeadTies<T>(x: T, s: seq<T>, ge: (T, T) -> bool, y: T)
    requires s != [] && ge(s[0], x)
    requires TiedWith(Insert(x, s[1..], ge), ge, y) ==
             TiedWith(s[1..], ge, y) + (if Tied(ge, x, y) then [x] else [])
    ensures TiedWith(Insert(x, s, ge), ge, y) ==
            TiedWith(s, ge, y) + (if Tied(ge, x, y) then [x] else [])
  {
    var t := Insert(x, s[1..], ge);
    assert Insert(x, s, ge) == [s[0]] + t;
    var h := if Tied(ge, s[0], y) then [s[0]] else [];
    var xs := if Tied(ge, x, y) then [x] else [];
    calc {
      TiedWith([s[0]] + t, ge, y);
      { TiedWithCons(s[0], t, ge, y); }
      h + TiedWith(t, ge, y);
      h + (TiedWith(s[1..], ge, y) + xs);
      { AppendAssoc(h, TiedWith(s[1..], ge, y), xs); }
      (h + TiedWith(s[1..], ge, y)) + xs;
      { assert TiedWith(s, ge, y) == h + TiedWith(s[1..], ge, y); }
      TiedWith(s, ge, y) + xs;
    }
  }

  lemma AppendAssoc<T>(a: seq<T>, b: seq<T>, c: seq<T>)
    ensures a + (b + c) == (a + b) + c
  {
  }

  lemma TiedWithCons<T>(h: T, t: seq<T>, ge: (T, T) -> bool, y: T)
    ensures TiedWith([h] + t, ge, y) == (if Tied(ge, h, y) then [h] else []) + TiedWith(t, ge, y)
  {
    assert ([h] + t)[1..] == t;
  }

  lemma InsertStableAtFront<T(!new)>(x: T, s: seq<T>, ge: (T, T) -> bool, y: T)
    requires Transitive(ge) && SortedDesc(s, ge) && s != [] && !ge(s[0], x)
    ensures TiedWith(Insert(x, s, ge), ge, y) ==
            TiedWith(s, ge, y) + (if Tied(ge, x, y) then [x] else [])
  {
    assert Insert(x, s, ge) == [x] + s;
    assert ([x] + s)[1..] == s;
    if Tied(ge, x, y) {
      NothingTiedBelow(x, s, ge, y);
      TiedWithNone(s, ge, y);
    }
  }

  /**
    * Stability: for every key, the elements with that key keep their original order
    * (as Python's sort does, also with `reverse=True`).
    */
  lemma {:induction false} SortDescStable<T(!new)>(s: seq<T>, ge: (T, T) -> bool, y: T)
    requires TotalPreorder(ge)
    ensures TiedWith(SortDesc(s, ge), ge, y) == TiedWith(s, ge, y)
  {
    if s != [] {
      var init, x := s[..|s| - 1], s[|s| - 1];
      assert s == init + [x];
      assert SortDesc(s, ge) == Insert(x, SortDesc(init, ge), ge);
      SortDescStable(init, ge, y);
      SortDescSorted(init, ge);
      InsertStable(x, SortDesc(init, ge), ge, y);
      TiedWithAppend(init, [x], ge, y);
      assert TiedWith([x], ge, y) == (if Tied(ge, x, y) then [x] else []) by {
        assert [x][1..] == [];
      }
    }
  }

  lemma {:induction false} TiedWithAppend<T>(a: seq<T>, b: seq<T>, ge: (T, T) -> bool, y: T)
    ensures TiedWith(a + b, ge, y) == TiedWith(a, ge, y) + TiedWith(b, ge, y)
  {
    if a != [] {
      TiedWithAppend(a[1..], b, ge, y);
      assert (a + b)[1..] == a[1..] + b;
    } else {
      assert a + b == b;
    }
  }

  /** The first `n` elements, or all of them (`s[:n]`). */
  function Take<T>(s: seq<T>, n: nat): (r: seq<T>)
    ensures |r| == if |s| < n then |s| else n
    ensures forall i :: 0 <= i < |r| ==> r[i] == s[i]
  {
    if |s| <= n then s else s[..n]
  }
}
