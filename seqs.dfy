/** Searches, filters and the stable sort the document store and the handlers
    use: a query returns matches in collection order, a Python `for` loop with
    an early `return` yields the first match, and `list.sort(key=..., reverse=True)`
    is a stable sort by a string key, largest first. */
module Seqs {
  import opened Values
  import opened Text

  /** Index of the first element satisfying p. */
  function IndexOf<T>(s: seq<T>, p: T -> bool): (r: Option<nat>)
    ensures r.Some? ==> r.value < |s| && p(s[r.value]) && forall j :: 0 <= j < r.value ==> !p(s[j])
    ensures r.None? ==> forall j :: 0 <= j < |s| ==> !p(s[j])
  {
    if s == [] then None
    else if p(s[0]) then Some(0)
    else match IndexOf(s[1..], p)
      case None => None
      case Some(i) => Some(i + 1)
  }

  /** The first element satisfying p, if any. */
  function First<T>(s: seq<T>, p: T -> bool): (r: Option<T>)
    ensures r.Some? <==> exists i :: 0 <= i < |s| && p(s[i])
    ensures r.Some? ==> p(r.value) && r.value in s
  {
    match IndexOf(s, p)
    case None => None
    case Some(i) => Some(s[i])
  }

  /** The elements satisfying p, in their order. */
  function Filter<T(!new)>(s: seq<T>, p: T -> bool): (r: seq<T>)
    ensures |r| <= |s|
    ensures forall x :: x in r <==> x in s && p(x)
    ensures multiset(r) <= multiset(s)
  {
    if s == [] then []
    else
      var init := s[..|s| - 1];
      assert s == init + [s[|s| - 1]];
      Filter(init, p) + (if p(s[|s| - 1]) then [s[|s| - 1]] else [])
  }

  /** Filter keeps every occurrence of a matching element and none of the
      others: it counts duplicates exactly. */
  lemma {:induction false} FilterCounts<T(!new)>(s: seq<T>, p: T -> bool)
    ensures forall x :: multiset(Filter(s, p))[x] == if p(x) then multiset(s)[x] else 0
  {
    if s != [] {
      var init := s[..|s| - 1];
      assert s == init + [s[|s| - 1]];
      FilterCounts(init, p);
    }
  }

  /** Filter keeps all of s exactly when every element satisfies p. */
  lemma {:induction false} FilterKeepsAll<T(!new)>(s: seq<T>, p: T -> bool)
    ensures |Filter(s, p)| == |s| <==> forall i :: 0 <= i < |s| ==> p(s[i])
  {
    if s != [] {
      var init := s[..|s| - 1];
      var last := s[|s| - 1];
      assert s == init + [last];
      FilterSnoc(init, last, p);
      FilterKeepsAll(init, p);
      if forall i :: 0 <= i < |s| ==> p(s[i]) {
        assert p(last);
        assert forall i :: 0 <= i < |init| ==> p(init[i]) by {
          forall i | 0 <= i < |init| ensures p(init[i]) {
            assert init[i] == s[i];
          }
        }
      } else {
        var i :| 0 <= i < |s| && !p(s[i]);
        if i < |init| {
          assert !p(init[i]);
        }
      }
    }
  }

  /** Filter keeps nothing exactly when no element satisfies p. */
  lemma {:induction false} FilterKeepsNone<T(!new)>(s: seq<T>, p: T -> bool)
    ensures Filter(s, p) == [] <==> forall i :: 0 <= i < |s| ==> !p(s[i])
  {
    if Filter(s, p) != [] {
      var x := Filter(s, p)[0];
      assert x in Filter(s, p);
      var i :| 0 <= i < |s| && s[i] == x;
      assert p(s[i]);
    } else {
      forall i | 0 <= i < |s| ensures !p(s[i]) {
        assert s[i] in s;
      }
    }
  }

  /** Filtering keeps a descending order. */
  lemma {:induction false} FilterKeepsSorted<T(!new)>(s: seq<T>, p: T -> bool, key: T -> string)
    requires SortedDesc(s, key)
    ensures SortedDesc(Filter(s, p), key)
  {
    if s != [] {
      var init := s[..|s| - 1];
      var last := s[|s| - 1];
      assert SortedDesc(init, key) by {
        forall i, j | 0 <= i < j < |init| ensures StrLe(key(init[j]), key(init[i])) {
          assert init[i] == s[i] && init[j] == s[j];
        }
      }
      FilterKeepsSorted(init, p, key);
      var f := Filter(init, p);
      if p(last) {
        var r := f + [last];
        forall i, j | 0 <= i < j < |r| ensures StrLe(key(r[j]), key(r[i])) {
          if j == |f| {
            assert r[i] in init;
            var k :| 0 <= k < |init| && init[k] == r[i];
            assert s[k] == r[i];
          } else {
            assert r[i] == f[i] && r[j] == f[j];
          }
        }
      }
    }
  }

  /** Two predicates that never hold together select at most |s| elements between them. */
  lemma {:induction false} FilterDisjointCount<T(!new)>(s: seq<T>, p: T -> bool, q: T -> bool)
    requires forall x :: !(p(x) && q(x))
    ensures |Filter(s, p)| + |Filter(s, q)| <= |s|
  {
    if s != [] {
      FilterDisjointCount(s[..|s| - 1], p, q);
    }
  }

  /** Splitting the elements satisfying p by whether q holds counts each exactly once. */
  lemma {:induction false} FilterSplitCount<T(!new)>(s: seq<T>, p: T -> bool, q: T -> bool, both: T -> bool, only: T -> bool)
    requires forall x :: both(x) == (p(x) && q(x))
    requires forall x :: only(x) == (p(x) && !q(x))
    ensures |Filter(s, both)| + |Filter(s, only)| == |Filter(s, p)|
  {
    if s != [] {
      FilterSplitCount(s[..|s| - 1], p, q, both, only);
    }
  }

  /** The first n elements (all of them if there are fewer), like a query's `.limit(n)`
      or a slice `[:n]`. */
  function Take<T>(s: seq<T>, n: nat): (r: seq<T>)
    ensures |r| <= n && |r| <= |s|
    ensures r == s[..|r|]
    ensures |s| <= n ==> r == s
    ensures |r| == if n < |s| then n else |s|
  {
    if n < |s| then s[..n] else s
  }

  /** The predicate "the key of x is k". */
  function WithKey<T>(keyOf: T -> string, k: string): T -> bool {
    x => keyOf(x) == k
  }

  /** The complement of a predicate. */
  function Not<T>(p: T -> bool): T -> bool {
    x => !p(x)
  }

  /** No two elements share a key (document ids in a collection). */
  predicate KeysUnique<T>(s: seq<T>, keyOf: T -> string) {
    forall i, j :: 0 <= i < j < |s| ==> keyOf(s[i]) != keyOf(s[j])
  }

  /** No element has key k. */
  predicate KeyUnused<T>(s: seq<T>, keyOf: T -> string, k: string) {
    forall i :: 0 <= i < |s| ==> keyOf(s[i]) != k
  }

  /** With unique keys, a lookup by an element's key finds that element's position. */
  lemma IndexOfUniqueKey<T>(s: seq<T>, keyOf: T -> string, i: nat)
    requires KeysUnique(s, keyOf) && i < |s|
    ensures IndexOf(s, WithKey(keyOf, keyOf(s[i]))) == Some(i)
  {
    var p := WithKey(keyOf, keyOf(s[i]));
    assert p(s[i]);
    var r := IndexOf(s, p);
    assert r.value <= i;
  }

  /** Filtering keeps the keys unique. */
  lemma FilterKeepsKeysUnique<T(!new)>(s: seq<T>, keyOf: T -> string, p: T -> bool)
    requires KeysUnique(s, keyOf)
    ensures KeysUnique(Filter(s, p), keyOf)
    decreases |s|
  {
    if s != [] {
      var init := s[..|s| - 1];
      var last := s[|s| - 1];
      FilterKeepsKeysUnique(init, keyOf, p);
      var f := Filter(init, p);
      if p(last) {
        forall i | 0 <= i < |f| ensures keyOf(f[i]) != keyOf(last) {
          assert f[i] in init;
          var j :| 0 <= j < |init| && init[j] == f[i];
          assert s[j] == f[i];
        }
      }
    }
  }

  /** Applies f to every element that satisfies p, leaving the others and the
      order as they are: a document-store `update` of the documents with one id. */
  function UpdateWhere<T>(s: seq<T>, p: T -> bool, f: T -> T): (r: seq<T>)
    ensures |r| == |s|
    ensures forall i :: 0 <= i < |s| ==> r[i] == if p(s[i]) then f(s[i]) else s[i]
  {
    if s == [] then []
    else [if p(s[0]) then f(s[0]) else s[0]] + UpdateWhere(s[1..], p, f)
  }

  /** An update that keeps every key keeps the keys unique. */
  lemma UpdateWhereKeepsKeys<T>(s: seq<T>, keyOf: T -> string, p: T -> bool, f: T -> T)
    requires forall x :: keyOf(f(x)) == keyOf(x)
    ensures KeysUnique(s, keyOf) ==> KeysUnique(UpdateWhere(s, p, f), keyOf)
    ensures forall i :: 0 <= i < |s| ==> keyOf(UpdateWhere(s, p, f)[i]) == keyOf(s[i])
  {
  }

  /** IndexOf is determined by its contract: the first index satisfying p. */
  lemma IndexOfIsFirst<T>(s: seq<T>, p: T -> bool, k: nat)
    requires k < |s| && p(s[k])
    requires forall j :: 0 <= j < k ==> !p(s[j])
    ensures IndexOf(s, p) == Some(k)
  {
    var r := IndexOf(s, p);
    assert r.Some?;
    assert r.value <= k;
  }

  /** Appending an element changes the first match only when there was none. */
  lemma IndexOfAppend<T>(s: seq<T>, x: T, p: T -> bool)
    ensures IndexOf(s + [x], p) ==
      if IndexOf(s, p).Some? then IndexOf(s, p) else if p(x) then Some(|s|) else None
  {
    var t := s + [x];
    match IndexOf(s, p)
    case Some(k) =>
      assert t[k] == s[k];
      assert forall j :: 0 <= j < k ==> t[j] == s[j];
      IndexOfIsFirst(t, p, k);
    case None =>
      assert forall j :: 0 <= j < |s| ==> t[j] == s[j];
      if p(x) {
        IndexOfIsFirst(t, p, |s|);
      } else {
        assert forall j :: 0 <= j < |t| ==> !p(t[j]) by {
          forall j | 0 <= j < |t| ensures !p(t[j]) {
            if j < |s| {
              assert t[j] == s[j];
            }
          }
        }
      }
  }

  /** Two sequences that agree on p everywhere have their first match at the same place. */
  lemma IndexOfSameMatches<T>(s: seq<T>, t: seq<T>, p: T -> bool)
    requires |t| == |s|
    requires forall j :: 0 <= j < |s| ==> p(t[j]) == p(s[j])
    ensures IndexOf(t, p) == IndexOf(s, p)
  {
    match IndexOf(s, p)
    case Some(k) =>
      IndexOfIsFirst(t, p, k);
    case None =>
  }

  // ----- the for-loops of the store and the handlers -----

  /** A `for` loop over the query results with an early return: the first match. */
  method FindFirst<T>(s: seq<T>, p: T -> bool) returns (r: Option<T>)
    ensures r == First(s, p)
  {
    for i := 0 to |s|
      invariant forall j :: 0 <= j < i ==> !p(s[j])
    {
      if p(s[i]) {
        return Some(s[i]);
      }
    }
    return None;
  }

  /** A `for` loop appending every query result to a new list. */
  method Collect<T>(s: seq<T>) returns (r: seq<T>)
    ensures r == s
  {
    r := [];
    for i := 0 to |s|
      invariant r == s[..i]
    {
      r := r + [s[i]];
    }
  }

  /** A `for` loop appending every element that satisfies p to a new list. */
  method Select<T(!new)>(s: seq<T>, p: T -> bool) returns (r: seq<T>)
    ensures r == Filter(s, p)
  {
    r := [];
    for i := 0 to |s|
      invariant r == Filter(s[..i], p)
    {
      assert s[..i + 1][..i] == s[..i];
      if p(s[i]) {
        r := r + [s[i]];
      }
    }
    assert s[..|s|] == s;
  }

  // ----- the stable descending sort -----

  /** Sorted by key, largest first. */
  predicate SortedDesc<T>(s: seq<T>, key: T -> string) {
    forall i, j :: 0 <= i < j < |s| ==> StrLe(key(s[j]), key(s[i]))
  }

  /** Inserts x after every leading element whose key is at least x's key, so
      that x follows the elements equal to it that came before it. */
  function InsertDesc<T>(s: seq<T>, x: T, key: T -> string): (r: seq<T>)
    ensures multiset(r) == multiset(s) + multiset{x}
    ensures |r| == |s| + 1
  {
    if s == [] then [x]
    else if StrLe(key(x), key(s[0])) then
      assert s == [s[0]] + s[1..];
      [s[0]] + InsertDesc(s[1..], x, key)
    else [x] + s
  }

  lemma {:induction false} InsertKeepsSorted<T>(s: seq<T>, x: T, key: T -> string)
    requires SortedDesc(s, key)
    ensures SortedDesc(InsertDesc(s, x, key), key)
  {
    if s == [] {
    } else if StrLe(key(x), key(s[0])) {
      var tail := s[1..];
      assert SortedDesc(tail, key) by {
        forall i, j | 0 <= i < j < |tail| ensures StrLe(key(tail[j]), key(tail[i])) {
          assert tail[i] == s[i + 1] && tail[j] == s[j + 1];
        }
      }
      InsertKeepsSorted(tail, x, key);
      var t := InsertDesc(tail, x, key);
      forall k | 0 <= k < |t| ensures StrLe(key(t[k]), key(s[0])) {
        assert t[k] in multiset(t);
        if t[k] != x {
          assert t[k] in multiset(tail);
          var j :| 0 <= j < |tail| && tail[j] == t[k];
          assert s[j + 1] == t[k];
        }
      }
      var r := [s[0]] + t;
      forall i, j | 0 <= i < j < |r| ensures StrLe(key(r[j]), key(r[i])) {
        if i > 0 {
          assert r[i] == t[i - 1] && r[j] == t[j - 1];
        }
      }
    } else {
      StrLeTotal(key(x), key(s[0]));
      var r := [x] + s;
      forall i, j | 0 <= i < j < |r| ensures StrLe(key(r[j]), key(r[i])) {
        if i == 0 {
          if j > 1 {
            StrLeTransitive(key(s[j - 1]), key(s[0]), key(x));
          }
        } else {
          assert r[i] == s[i - 1] && r[j] == s[j - 1];
        }
      }
    }
  }

  /** `list.sort(key=key, reverse=True)`: Python's sort is stable also in
      reverse, so elements with equal keys keep their order. */
  function SortDesc<T>(s: seq<T>, key: T -> string): (r: seq<T>)
    ensures multiset(r) == multiset(s)
    ensures |r| == |s|
    ensures SortedDesc(r, key)
  {
    if s == [] then []
    else
      var init := s[..|s| - 1];
      assert s == init + [s[|s| - 1]];
      var sorted := SortDesc(init, key);
      InsertKeepsSorted(sorted, s[|s| - 1], key);
      InsertDesc(sorted, s[|s| - 1], key)
  }

  /** Filtering a concatenation filters each part. */
  lemma {:induction false} FilterAppend<T(!new)>(a: seq<T>, b: seq<T>, p: T -> bool)
    ensures Filter(a + b, p) == Filter(a, p) + Filter(b, p)
  {
    if b == [] {
      assert a + b == a;
    } else {
      var init := b[..|b| - 1];
      var last := b[|b| - 1];
      assert b == init + [last];
      assert a + b == (a + init) + [last];
      FilterSnoc(a + init, last, p);
      FilterSnoc(init, last, p);
      FilterAppend(a, init, p);
      AppendAssoc(Filter(a, p), Filter(init, p), if p(last) then [last] else []);
    }
  }

  /** Filtering a list with one more element at the end. */
  lemma {:induction false} FilterSnoc<T(!new)>(s: seq<T>, x: T, p: T -> bool)
    ensures Filter(s + [x], p) == Filter(s, p) + (if p(x) then [x] else [])
  {
    var t := s + [x];
    assert t[..|t| - 1] == s && t[|t| - 1] == x;
  }

  /** A one-element filter. */
  lemma {:induction false} FilterSingleton<T(!new)>(x: T, p: T -> bool)
    ensures Filter([x], p) == if p(x) then [x] else []
  {
    assert [x][..0] == [];
  }

  /** Inserting x adds it at the end of the elements whose key equals x's: the
      elements of one key keep their order, and x comes after them. */
  lemma {:induction false} InsertDescWithKey<T(!new)>(s: seq<T>, x: T, key: T -> string, k: string)
    requires SortedDesc(s, key)
    ensures Filter(InsertDesc(s, x, key), WithKey(key, k)) == Filter(s, WithKey(key, k)) + (if key(x) == k then [x] else [])
    decreases |s|, 1
  {
    if s == [] {
      FilterSingleton(x, WithKey(key, k));
    } else if StrLe(key(x), key(s[0])) {
      InsertDescWithKeyFront(s, x, key, k);
    } else {
      assert InsertDesc(s, x, key) == [x] + s;
      KeyAboveAll(s, x, key);
      ConsWithKey(s, x, key, k);
    }
  }

  /** The case of InsertDescWithKey where x goes first: when no element of s
      shares x's key, putting x in front adds it at the end of its key's elements. */
  lemma {:induction false} ConsWithKey<T(!new)>(s: seq<T>, x: T, key: T -> string, k: string)
    requires forall j :: 0 <= j < |s| ==> key(s[j]) != key(x)
    ensures Filter([x] + s, WithKey(key, k)) == Filter(s, WithKey(key, k)) + (if key(x) == k then [x] else [])
  {
    var p := WithKey(key, k);
    FilterSingleton(x, p);
    FilterAppend([x], s, p);
    if key(x) == k {
      FilterKeepsNone(s, p);
    }
  }

  /** An element whose key is above the largest key of a sorted list shares
      its key with none of the list's elements. */
  lemma KeyAboveAll<T>(s: seq<T>, x: T, key: T -> string)
    requires SortedDesc(s, key) && s != [] && !StrLe(key(x), key(s[0]))
    ensures forall j :: 0 <= j < |s| ==> key(s[j]) != key(x)
  {
    StrLeTotal(key(x), key(x));
    forall j | 0 <= j < |s| ensures key(s[j]) != key(x) {
      if j > 0 {
        assert StrLe(key(s[j]), key(s[0]));
      }
    }
  }

  /** The case of InsertDescWithKey where x goes after the first element. */
  lemma {:induction false} InsertDescWithKeyFront<T(!new)>(s: seq<T>, x: T, key: T -> string, k: string)
    requires SortedDesc(s, key) && s != [] && StrLe(key(x), key(s[0]))
    ensures Filter(InsertDesc(s, x, key), WithKey(key, k)) == Filter(s, WithKey(key, k)) + (if key(x) == k then [x] else [])
    decreases |s|, 0
  {
    var p := WithKey(key, k);
    var tail := s[1..];
    assert SortedDesc(tail, key) by {
      forall i, j | 0 <= i < j < |tail| ensures StrLe(key(tail[j]), key(tail[i])) {
        assert tail[i] == s[i + 1] && tail[j] == s[j + 1];
      }
    }
    var t := InsertDesc(tail, x, key);
    assert InsertDesc(s, x, key) == [s[0]] + t;
    InsertDescWithKey(tail, x, key, k);
    assert s == [s[0]] + tail;
    FilterConsAppended(s[0], tail, t, p, if key(x) == k then [x] else []);
  }

  /** If filtering t gives what filtering u gives followed by e, the same holds
      with one element put in front of both. */
  lemma {:induction false} FilterConsAppended<T(!new)>(y: T, u: seq<T>, t: seq<T>, p: T -> bool, e: seq<T>)
    requires Filter(t, p) == Filter(u, p) + e
    ensures Filter([y] + t, p) == Filter([y] + u, p) + e
  {
    FilterAppend([y], t, p);
    FilterAppend([y], u, p);
    AppendAssoc(Filter([y], p), Filter(u, p), e);
  }

  lemma AppendAssoc<T>(a: seq<T>, b: seq<T>, c: seq<T>)
    ensures a + (b + c) == (a + b) + c
  {
  }

  /** The sort is stable: the elements of any one key appear in the sorted
      list in the order they had in the collection. */
  lemma {:induction false} SortDescStable<T(!new)>(s: seq<T>, key: T -> string, k: string)
    ensures Filter(SortDesc(s, key), WithKey(key, k)) == Filter(s, WithKey(key, k))
  {
    if s != [] {
      var init := s[..|s| - 1];
      SortDescStable(init, key, k);
      InsertDescWithKey(SortDesc(init, key), s[|s| - 1], key, k);
    }
  }
}
