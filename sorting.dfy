/**
 * `Array.prototype.sort` with a comparator, as a stable insertion sort over a "may come
 * before" relation `le` (the comparator returning a value <= 0), and `slice(0, n)`.
 */
module Sorting {
  import opened Strings

  /** A comparator that is consistent: total and transitive. */
  ghost predicate TotalPreorder<T(!new)>(le: (T, T) -> bool)
  {
    && (forall a, b :: le(a, b) || le(b, a))
    && (forall a, b, c :: le(a, b) && le(b, c) ==> le(a, c))
  }

  ghost predicate Antisymmetric<T(!new)>(le: (T, T) -> bool)
  {
    forall a, b :: le(a, b) && le(b, a) ==> a == b
  }

  ghost predicate SortedBy<T>(s: seq<T>, le: (T, T) -> bool)
  {
    forall i, j :: 0 <= i < j < |s| ==> le(s[i], s[j])
  }

  /** Comparing records by a string field with `localeCompare`. */
  function KeyLe<T>(key: T -> string): (T, T) -> bool
  {
    (a: T, b: T) => StrLe(key(a), key(b))
  }

  /** No two positions of `s` hold the same key. */
  ghost predicate DistinctKeys<T>(s: seq<T>, key: T -> string)
  {
    forall i, j :: 0 <= i < |s| && 0 <= j < |s| && i != j ==> key(s[i]) != key(s[j])
  }

  /** Places `x` before the first element it may precede, so it stays ahead of its equals. */
  function Insert<T>(x: T, s: seq<T>, le: (T, T) -> bool): (r: seq<T>)
    ensures multiset(r) == multiset(s) + multiset{x}
  {
    if s == [] then [x]
    else if le(x, s[0]) then [x] + s
    else
      assert s == [s[0]] + s[1..];
      [s[0]] + Insert(x, s[1..], le)
  }

  /** `[...s].sort(cmp)`: a stable sort; it returns a new sequence and leaves `s` as it was. */
  function SortBy<T>(s: seq<T>, le: (T, T) -> bool): (r: seq<T>)
    ensures multiset(r) == multiset(s)
    ensures |r| == |s|
  {
    if s == [] then []
    else
      assert s == [s[0]] + s[1..];
      Insert(s[0], SortBy(s[1..], le), le)
  }

  lemma {:induction false} InsertSorted<T(!new)>(x: T, s: seq<T>, le: (T, T) -> bool)
    requires TotalPreorder(le)
    requires SortedBy(s, le)
    ensures SortedBy(Insert(x, s, le), le)
  {
    if s != [] && !le(x, s[0]) {
      var t := Insert(x, s[1..], le);
      InsertSorted(x, s[1..], le);
      forall y | y in t ensures le(s[0], y) {
        assert y in multiset(t);
        if y != x {
          assert y in s[1..];
        }
      }
    }
  }

  /** The sort's result is ordered whenever the comparator is consistent. */
  lemma {:induction false} SortBySorted<T(!new)>(s: seq<T>, le: (T, T) -> bool)
    requires TotalPreorder(le)
    ensures SortedBy(SortBy(s, le), le)
  {
    if s != [] {
      SortBySorted(s[1..], le);
      InsertSorted(s[0], SortBy(s[1..], le), le);
    }
  }

  /** The first element of a sorted sequence may precede every element of it. */
  lemma SortedHeadLeast<T(!new)>(s: seq<T>, le: (T, T) -> bool)
    requires TotalPreorder(le) && SortedBy(s, le) && s != []
    ensures forall x :: x in s ==> le(s[0], x)
  {
    forall x | x in s ensures le(s[0], x) {
      var i :| 0 <= i < |s| && s[i] == x;
      if i == 0 {
        assert le(x, x) || le(x, x);
      }
    }
  }

  /** Two sorted arrangements of the same multiset agree when the order is antisymmetric. */
  lemma {:induction false} SortedUnique<T(!new)>(a: seq<T>, b: seq<T>, le: (T, T) -> bool)
    requires TotalPreorder(le) && Antisymmetric(le)
    requires SortedBy(a, le) && SortedBy(b, le)
    requires multiset(a) == multiset(b)
    ensures a == b
  {
    assert |a| == |multiset(a)| && |b| == |multiset(b)|;
    if a != [] {
      assert a[0] in multiset(b);
      assert b[0] in multiset(a);
      SortedHeadLeast(a, le);
      SortedHeadLeast(b, le);
      assert le(a[0], b[0]) && le(b[0], a[0]);
      assert a == [a[0]] + a[1..] && b == [b[0]] + b[1..];
      assert multiset(a[1..]) == multiset(a) - multiset{a[0]};
      assert multiset(b[1..]) == multiset(b) - multiset{b[0]};
      SortedUnique(a[1..], b[1..], le);
    }
  }

  lemma KeyLeTotalPreorder<T(!new)>(key: T -> string)
    ensures TotalPreorder(KeyLe(key))
  {
    forall a: T, b: T ensures KeyLe(key)(a, b) || KeyLe(key)(b, a) {
      StrLeTotal(key(a), key(b));
    }
    forall a: T, b: T, c: T | KeyLe(key)(a, b) && KeyLe(key)(b, c) ensures KeyLe(key)(a, c) {
      StrLeTrans(key(a), key(b), key(c));
    }
  }

  lemma StrLeTotalOrder()
    ensures TotalPreorder(StrLe) && Antisymmetric(StrLe)
  {
    forall a: string, b: string ensures StrLe(a, b) || StrLe(b, a) {
      StrLeTotal(a, b);
    }
    forall a: string, b: string, c: string | StrLe(a, b) && StrLe(b, c) ensures StrLe(a, c) {
      StrLeTrans(a, b, c);
    }
    forall a: string, b: string | StrLe(a, b) && StrLe(b, a) ensures a == b {
      StrLeAntisym(a, b);
    }
  }

  /**
   * Two sequences sorted by a string key, each with distinct keys and holding the same
   * elements, are equal.
   */
  lemma {:induction false} SortedByKeyUnique<T(!new)>(a: seq<T>, b: seq<T>, key: T -> string)
    requires SortedBy(a, KeyLe(key)) && SortedBy(b, KeyLe(key))
    requires DistinctKeys(a, key) && DistinctKeys(b, key)
    requires forall x :: x in a <==> x in b
    ensures a == b
    decreases |a|
  {
    assert b != [] ==> b[0] in a;
    if a != [] {
      SortedByKeyHeads(a, b, key);
      SortedByKeyTails(a, b, key);
      SortedByKeyUnique(a[1..], b[1..], key);
      assert a == [a[0]] + a[1..] && b == [b[0]] + b[1..];
    }
  }

  /** The heads of two such sequences agree. */
  lemma SortedByKeyHeads<T>(a: seq<T>, b: seq<T>, key: T -> string)
    requires a != []
    requires SortedBy(a, KeyLe(key)) && SortedBy(b, KeyLe(key))
    requires DistinctKeys(b, key)
    requires forall x :: x in a <==> x in b
    ensures b != [] && a[0] == b[0]
  {
    assert a[0] in b;
    var j :| 0 <= j < |b| && b[j] == a[0];
    assert b[0] in a;
    var i :| 0 <= i < |a| && a[i] == b[0];
    assert StrLe(key(b[0]), key(a[0])) by {
      if j > 0 {
        assert KeyLe(key)(b[0], b[j]);
      } else {
        StrLeTotal(key(b[0]), key(b[0]));
      }
    }
    assert StrLe(key(a[0]), key(b[0])) by {
      if i > 0 {
        assert KeyLe(key)(a[0], a[i]);
      } else {
        StrLeTotal(key(a[0]), key(a[0]));
      }
    }
    StrLeAntisym(key(a[0]), key(b[0]));
    assert key(b[j]) == key(b[0]);
    assert j == 0;
  }

  /** With equal heads, the tails of two such sequences hold the same elements and stay sorted. */
  lemma SortedByKeyTails<T>(a: seq<T>, b: seq<T>, key: T -> string)
    requires a != [] && b != [] && a[0] == b[0]
    requires SortedBy(a, KeyLe(key)) && SortedBy(b, KeyLe(key))
    requires DistinctKeys(a, key) && DistinctKeys(b, key)
    requires forall x :: x in a <==> x in b
    ensures forall x :: x in a[1..] <==> x in b[1..]
    ensures SortedBy(a[1..], KeyLe(key)) && SortedBy(b[1..], KeyLe(key))
    ensures DistinctKeys(a[1..], key) && DistinctKeys(b[1..], key)
  {
    forall x ensures x in a[1..] <==> x in b[1..] {
      if x in a[1..] {
        var i :| 0 <= i < |a[1..]| && a[1..][i] == x;
        assert a[i + 1] == x;
        assert x in b;
        var j :| 0 <= j < |b| && b[j] == x;
        assert j != 0;
        assert b[1..][j - 1] == x;
      }
      if x in b[1..] {
        var j :| 0 <= j < |b[1..]| && b[1..][j] == x;
        assert b[j + 1] == x;
        assert x in a;
        var i :| 0 <= i < |a| && a[i] == x;
        assert i != 0;
        assert a[1..][i - 1] == x;
      }
    }
    forall i, j | 0 <= i < j < |a[1..]| ensures KeyLe(key)(a[1..][i], a[1..][j]) {
      assert a[1..][i] == a[i + 1] && a[1..][j] == a[j + 1];
    }
    forall i, j | 0 <= i < j < |b[1..]| ensures KeyLe(key)(b[1..][i], b[1..][j]) {
      assert b[1..][i] == b[i + 1] && b[1..][j] == b[j + 1];
    }
    forall i, j | 0 <= i < |a[1..]| && 0 <= j < |a[1..]| && i != j ensures key(a[1..][i]) != key(a[1..][j]) {
      assert a[1..][i] == a[i + 1] && a[1..][j] == a[j + 1];
    }
    forall i, j | 0 <= i < |b[1..]| && 0 <= j < |b[1..]| && i != j ensures key(b[1..][i]) != key(b[1..][j]) {
      assert b[1..][i] == b[i + 1] && b[1..][j] == b[j + 1];
    }
  }

  /** Putting back an element whose key is new keeps keys distinct. */
  lemma DistinctKeysInsert<T>(rest: seq<T>, k: nat, x: T, key: T -> string)
    requires k <= |rest|
    requires DistinctKeys(rest, key)
    requires forall y :: y in rest ==> key(y) != key(x)
    ensures DistinctKeys(rest[..k] + [x] + rest[k..], key)
  {
    var b := rest[..k] + [x] + rest[k..];
    forall i, j | 0 <= i < |b| && 0 <= j < |b| && i != j ensures key(b[i]) != key(b[j]) {
      if i != k {
        assert b[i] == rest[if i < k then i else i - 1];
      }
      if j != k {
        assert b[j] == rest[if j < k then j else j - 1];
      }
    }
  }

  /** Reordering keeps keys distinct. */
  lemma {:induction false} DistinctKeysPermutation<T>(a: seq<T>, b: seq<T>, key: T -> string)
    requires multiset(a) == multiset(b)
    requires DistinctKeys(a, key)
    ensures DistinctKeys(b, key)
    decreases |a|
  {
    if a == [] {
      assert |b| == |multiset(b)| == 0;
    } else {
      var k := MatchHead(a, b);
      var rest := b[..k] + b[k + 1..];
      DistinctKeysTail(a, key);
      DistinctKeysPermutation(a[1..], rest, key);
      SameMembers(a[1..], rest);
      DistinctKeysInsert(rest, k, b[k], key);
      RemoveAt(b, k);
    }
  }

  /** The tail of a list with distinct keys has distinct keys, none of them the head's. */
  lemma DistinctKeysTail<T>(a: seq<T>, key: T -> string)
    requires a != [] && DistinctKeys(a, key)
    ensures DistinctKeys(a[1..], key)
    ensures forall y :: y in a[1..] ==> key(y) != key(a[0])
  {
    forall i, j | 0 <= i < |a[1..]| && 0 <= j < |a[1..]| && i != j ensures key(a[1..][i]) != key(a[1..][j]) {
      assert a[1..][i] == a[i + 1] && a[1..][j] == a[j + 1];
    }
    forall y | y in a[1..] ensures key(y) != key(a[0]) {
      var i :| 0 <= i < |a[1..]| && a[1..][i] == y;
      assert a[i + 1] == y;
    }
  }

  /** Lists with the same multiset have the same members. */
  lemma SameMembers<T>(a: seq<T>, b: seq<T>)
    requires multiset(a) == multiset(b)
    ensures forall y :: y in b ==> y in a
  {
    forall y | y in b ensures y in a {
      assert y in multiset(b);
    }
  }

  /** Putting back the item taken out at `k` gives the list again. */
  lemma RemoveAt<T>(b: seq<T>, k: nat)
    requires k < |b|
    ensures var rest := b[..k] + b[k + 1..];
      rest[..k] + [b[k]] + rest[k..] == b
  {
    var rest := b[..k] + b[k + 1..];
    assert rest[..k] == b[..k] && rest[k..] == b[k + 1..];
    AroundIndex(b, k);
    assert b[..k] + [b[k]] + b[k + 1..] == b[..k] + ([b[k]] + b[k + 1..]);
  }

  /** A sequence is what comes before index `k`, the item there, and what comes after. */
  lemma AroundIndex<T>(b: seq<T>, k: nat)
    requires k < |b|
    ensures b == b[..k] + ([b[k]] + b[k + 1..])
  {
    assert b[k..] == [b[k]] + b[k + 1..];
    assert b == b[..k] + b[k..];
  }

  /** Taking out the item at `k` takes one copy of it out of the multiset. */
  lemma MultisetAround<T>(b: seq<T>, k: nat)
    requires k < |b|
    ensures multiset(b) == multiset(b[..k] + b[k + 1..]) + multiset{b[k]}
  {
    var x, y := b[..k], b[k + 1..];
    AroundIndex(b, k);
    assert multiset([b[k]] + y) == multiset{b[k]} + multiset(y);
    assert multiset(x + ([b[k]] + y)) == multiset(x) + multiset([b[k]] + y);
    assert multiset(x + y) == multiset(x) + multiset(y);
  }

  /** The item at `k` of `b` equals the head of `a`, and the rest agree as multisets. */
  lemma MatchHead<T>(a: seq<T>, b: seq<T>) returns (k: nat)
    requires a != [] && multiset(a) == multiset(b)
    ensures k < |b| && b[k] == a[0]
    ensures multiset(a[1..]) == multiset(b[..k] + b[k + 1..])
  {
    assert a[0] in multiset(b);
    k :| 0 <= k < |b| && b[k] == a[0];
    MultisetAround(b, k);
    assert a == [a[0]] + a[1..];
    assert multiset(a) == multiset{a[0]} + multiset(a[1..]);
    var ma, mb := multiset(a[1..]), multiset(b[..k] + b[k + 1..]);
    assert ma + multiset{a[0]} == mb + multiset{a[0]};
    assert ma == (ma + multiset{a[0]}) - multiset{a[0]};
    assert mb == (mb + multiset{a[0]}) - multiset{a[0]};
  }

  /** `s.slice(0, n)` for a non-negative `n`. */
  function Take<T>(s: seq<T>, n: nat): (r: seq<T>)
    ensures |r| == if n < |s| then n else |s|
    ensures r <= s
  {
    if n < |s| then s[..n] else s
  }
  /**
   * The first `n` of a sorted list are sorted, are taken from it, and each may come before
   * every element left out.
   */
  lemma TakeSorted<T>(s: seq<T>, n: nat, le: (T, T) -> bool)
    requires SortedBy(s, le)
    ensures SortedBy(Take(s, n), le)
    ensures multiset(Take(s, n)) <= multiset(s)
    ensures forall x, y :: x in Take(s, n) && y in multiset(s) - multiset(Take(s, n)) ==> le(x, y)
  {
    var top := Take(s, n);
    var k := |top|;
    var rest := s[k..];
    assert s == top + rest;
    assert multiset(s) == multiset(top) + multiset(rest);
    assert multiset(s) - multiset(top) == multiset(rest);
    forall x, y | x in top && y in multiset(rest) ensures le(x, y) {
      var i :| 0 <= i < k && top[i] == x;
      var j :| 0 <= j < |rest| && rest[j] == y;
      assert s[i] == x && s[k + j] == y;
    }
  }

}
