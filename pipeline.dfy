/**
  * RSS items as the feed parsers see them, and the loop every feed parser runs: walk the items in feed order, skip the ones that fail a
  * check (`continue`), and append what the others become.
  */
module Pipeline {
  import opened Wrappers

  const SecondsPerDay: int := 86400

  /** An XML element; its text may be missing. */
  datatype Element = Element(text: Option<string>)

  /** How an item's publication date came out: no date element, a time in seconds, or text that does not parse. */
  datatype Published = Missing | Parsed(time: int) | Unparseable

  /** One RSS item, each child element present or not. */
  datatype Item = Item(title: Option<Element>, link: Option<Element>, description: Option<Element>, published: Published)

  /** What the loop has appended after seeing `items`, in feed order. */
  function FilterMap<I, A>(items: seq<I>, f: I -> Option<A>): (r: seq<A>)
    ensures |r| <= |items|
    ensures forall a :: a in r ==> exists x :: x in items && f(x) == Some(a)
  {
    if items == [] then []
    else
      var init := items[..|items| - 1];
      var last := items[|items| - 1];
      assert forall x :: x in init ==> x in items;
      FilterMap(init, f) + (if f(last).Some? then [f(last).value] else [])
  }

  /** Every item that becomes something is appended. */
  lemma {:induction false} FilterMapKeepsAll<I, A>(items: seq<I>, f: I -> Option<A>, x: I)
    requires x in items && f(x).Some?
    ensures f(x).value in FilterMap(items, f)
  {
    var init := items[..|items| - 1];
    if x != items[|items| - 1] {
      assert x in init;
      FilterMapKeepsAll(init, f, x);
    }
  }

  /** The parse loop. */
  method Collect<I, A>(items: seq<I>, f: I -> Option<A>) returns (r: seq<A>)
    ensures r == FilterMap(items, f)
  {
    r := [];
    var i := 0;
    while i < |items|
      invariant i <= |items|
      invariant r == FilterMap(items[..i], f)
    {
      assert items[..i + 1][..i] == items[..i];
      var a := f(items[i]);
      if a.Some? {
        r := r + [a.value];
      }
      i := i + 1;
    }
    assert items[..i] == items;
  }

  /** `[x for x in s if p(x)]`. */
  function Filter<T>(s: seq<T>, p: T -> bool): (r: seq<T>)
    ensures |r| <= |s|
    ensures forall x :: x in r ==> x in s && p(x)
    ensures forall i :: 0 <= i < |s| && p(s[i]) ==> s[i] in r
  {
    if s == [] then []
    else
      assert forall i :: 0 <= i < |s| - 1 ==> s[i] == s[..|s| - 1][i];
      Filter(s[..|s| - 1], p) + (if p(s[|s| - 1]) then [s[|s| - 1]] else [])
  }

  /** The positions of `s` whose element passes `p`, in increasing order: all of them, each once. */
  function Positions<T>(s: seq<T>, p: T -> bool): (idx: seq<nat>)
    ensures forall k :: 0 <= k < |idx| ==> idx[k] < |s| && p(s[idx[k]])
    ensures forall k, l :: 0 <= k < l < |idx| ==> idx[k] < idx[l]
    ensures forall i :: 0 <= i < |s| && p(s[i]) ==> i in idx
  {
    if s == [] then []
    else
      assert forall i :: 0 <= i < |s| - 1 ==> s[i] == s[..|s| - 1][i];
      Positions(s[..|s| - 1], p) + (if p(s[|s| - 1]) then [|s| - 1] else [])
  }

  /**
    * The filter keeps the passing elements in their order and with their repeats: its k-th element
    * is the element at the k-th passing position.
    */
  lemma {:induction false} FilterAtPositions<T>(s: seq<T>, p: T -> bool)
    ensures |Filter(s, p)| == |Positions(s, p)|
    ensures forall k :: 0 <= k < |Filter(s, p)| ==> Filter(s, p)[k] == s[Positions(s, p)[k]]
  {
    if s != [] {
      var init := s[..|s| - 1];
      var last := s[|s| - 1];
      FilterAtPositions(init, p);
      var f := Filter(init, p);
      var q := Positions(init, p);
      assert Filter(s, p) == f + (if p(last) then [last] else []);
      assert Positions(s, p) == q + (if p(last) then [|s| - 1] else []);
      forall k | 0 <= k < |Filter(s, p)| ensures Filter(s, p)[k] == s[Positions(s, p)[k]] {
        if k < |f| {
          assert Filter(s, p)[k] == f[k] == init[q[k]];
          assert Positions(s, p)[k] == q[k];
        }
      }
    }
  }

  /** Filtering a list with a head: the head's verdict first, then the rest. */
  lemma {:induction false} FilterCons<T>(a: T, t: seq<T>, p: T -> bool)
    ensures Filter([a] + t, p) == (if p(a) then [a] else []) + Filter(t, p)
    decreases |t|
  {
    if t != [] {
      var u, init, last := [a] + t, t[..|t| - 1], t[|t| - 1];
      var head, tail := if p(a) then [a] else [], if p(last) then [last] else [];
      FilterCons(a, init, p);
      assert u[..|u| - 1] == [a] + init && u[|u| - 1] == last;
      assert Filter(u, p) == Filter([a] + init, p) + tail;
      assert Filter(t, p) == Filter(init, p) + tail;
      assert Filter(u, p) == (head + Filter(init, p)) + tail;
    }
  }

  /** Each value occurs in the filter as often as in the list when it passes, and not at all otherwise. */
  lemma {:induction false} FilterCount<T>(s: seq<T>, p: T -> bool, x: T)
    ensures multiset(Filter(s, p))[x] == if p(x) then multiset(s)[x] else 0
  {
    if s != [] {
      var init := s[..|s| - 1];
      FilterCount(init, p, x);
      assert s == init + [s[|s| - 1]];
    }
  }

  /** A list and its complement filter share out its elements: their sizes add up. */
  lemma {:induction false} FilterPartition<T>(s: seq<T>, p: T -> bool)
    ensures |Filter(s, p)| + |Filter(s, x => !p(x))| == |s|
  {
    if s != [] {
      FilterPartition(s[..|s| - 1], p);
    }
  }

  /** Filters by predicates that agree everywhere are the same list. */
  lemma {:induction false} FilterSame<T>(s: seq<T>, p: T -> bool, q: T -> bool)
    requires forall x :: p(x) == q(x)
    ensures Filter(s, p) == Filter(s, q)
  {
    if s != [] {
      FilterSame(s[..|s| - 1], p, q);
    }
  }

  /** A filter and a filter by the opposite test share out the list's elements. */
  lemma FilterComplement<T>(s: seq<T>, p: T -> bool, q: T -> bool)
    requires forall x :: q(x) == !p(x)
    ensures |Filter(s, p)| + |Filter(s, q)| == |s|
  {
    FilterPartition(s, p);
    FilterSame(s, x => !p(x), q);
  }

  predicate Distinct<T(==)>(s: seq<T>) {
    forall i, j :: 0 <= i < j < |s| ==> s[i] != s[j]
  }

  /** The elements of `s` without repeats, each where it first occurs. */
  function Dedup<T(==)>(s: seq<T>): (r: seq<T>)
    ensures Distinct(r)
    ensures forall x :: x in r ==> x in s
    ensures forall i :: 0 <= i < |s| ==> s[i] in r
  {
    if s == [] then []
    else
      var init := s[..|s| - 1];
      var last := s[|s| - 1];
      assert forall i :: 0 <= i < |s| - 1 ==> s[i] == init[i];
      Dedup(init) + (if last in Dedup(init) then [] else [last])
  }

  /** `set(s)`: the elements of a list, without order or repeats. */
  function Elements<T>(s: seq<T>): set<T> {
    set x | x in s
  }

  /** A list without repeats has as many elements as its set. */
  lemma {:induction false} DistinctCard<T>(s: seq<T>)
    requires Distinct(s)
    ensures |Elements(s)| == |s|
  {
    if s != [] {
      var init, last := s[..|s| - 1], s[|s| - 1];
      assert Distinct(init) by {
        forall i, j | 0 <= i < j < |init| ensures init[i] != init[j] {
          assert init[i] == s[i] && init[j] == s[j];
        }
      }
      DistinctCard(init);
      assert s == init + [last];
      assert Elements(s) == Elements(init) + {last};
      assert last !in Elements(init);
    }
  }

  /** `len(set(s))`: de-duplicating keeps exactly one copy of each element. */
  lemma DedupCard<T>(s: seq<T>)
    ensures |Dedup(s)| == |Elements(s)|
  {
    assert Elements(Dedup(s)) == Elements(s) by {
      forall x | x in s ensures x in Dedup(s) {
        var i :| 0 <= i < |s| && s[i] == x;
      }
    }
    DistinctCard(Dedup(s));
  }
}
