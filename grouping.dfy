/**
 * Grouping records by a string key into a dictionary of arrays, the
 * `(acc[key] ??= []).push(item)` loop used for the author page and the dimension views.
 */
module Grouping {
  import opened Sorting

  /** The items whose key is `k`, in input order. */
  function WithKey<T(!new)>(items: seq<T>, key: T -> string, k: string): (r: seq<T>)
    ensures |r| <= |items|
  {
    if items == [] then []
    else
      var last := items[|items| - 1];
      WithKey(items[..|items| - 1], key, k) + (if key(last) == k then [last] else [])
  }

  /** The group of `k` holds exactly the items whose key is `k`. */
  lemma {:induction false} WithKeyMembers<T(!new)>(items: seq<T>, key: T -> string, k: string)
    ensures forall x :: x in WithKey(items, key, k) <==> x in items && key(x) == k
    decreases |items|
  {
    if items != [] {
      var init, last := items[..|items| - 1], items[|items| - 1];
      WithKeyMembers(init, key, k);
      assert items == init + [last];
      assert forall x :: x in items <==> x in init || x == last;
    }
  }

  lemma WithKeyMember<T(!new)>(items: seq<T>, key: T -> string, k: string, x: T)
    ensures x in WithKey(items, key, k) <==> x in items && key(x) == k
  {
    WithKeyMembers(items, key, k);
  }

  /** The keys that occur among the items. */
  function KeysOf<T(!new)>(items: seq<T>, key: T -> string): set<string>
  {
    set i | 0 <= i < |items| :: key(items[i])
  }

  /**
   * The grouping loop. Every key that occurs has a group, every group is the in-order list of
   * the items with its key, and nothing else is in the dictionary.
   */
  method GroupBy<T(!new)>(items: seq<T>, key: T -> string) returns (groups: map<string, seq<T>>)
    ensures groups.Keys == KeysOf(items, key)
    ensures forall k :: k in groups ==> groups[k] == WithKey(items, key, k)
  {
    groups := map[];
    var i := 0;
    while i < |items|
      invariant 0 <= i <= |items|
      invariant groups.Keys == KeysOf(items[..i], key)
      invariant forall k :: k in groups ==> groups[k] == WithKey(items[..i], key, k)
    {
      var x := items[i];
      var k := key(x);
      Step(groups, items[..i], key, x);
      assert items[..i + 1] == items[..i] + [x];
      var group := if k in groups then groups[k] else [];
      groups := groups[k := group + [x]];
      i := i + 1;
    }
    assert items[..i] == items;
  }

  /** One turn of the grouping loop keeps it in step with `WithKey` and `KeysOf`. */
  lemma Step<T(!new)>(groups: map<string, seq<T>>, done: seq<T>, key: T -> string, x: T)
    requires groups.Keys == KeysOf(done, key)
    requires forall k :: k in groups ==> groups[k] == WithKey(done, key, k)
    ensures var k := key(x);
      var g := groups[k := (if k in groups then groups[k] else []) + [x]];
      && g.Keys == KeysOf(done + [x], key)
      && forall kk :: kk in g ==> g[kk] == WithKey(done + [x], key, kk)
  {
    var k := key(x);
    var g := groups[k := (if k in groups then groups[k] else []) + [x]];
    WithKeyNonEmpty(done, key, k);
    KeysOfSnoc(done, key, x);
    forall kk | kk in g ensures g[kk] == WithKey(done + [x], key, kk) {
      WithKeySnoc(done, key, x, kk);
    }
  }

  lemma WithKeySnoc<T(!new)>(s: seq<T>, key: T -> string, x: T, k: string)
    ensures WithKey(s + [x], key, k) == WithKey(s, key, k) + (if key(x) == k then [x] else [])
  {
    assert (s + [x])[..|s|] == s;
  }

  /** Grouping works item by item: the group of a concatenation is the concatenation of the groups. */
  lemma {:induction false} WithKeyConcat<T(!new)>(a: seq<T>, b: seq<T>, key: T -> string, k: string)
    ensures WithKey(a + b, key, k) == WithKey(a, key, k) + WithKey(b, key, k)
    decreases |b|
  {
    if b == [] {
      assert a + b == a;
    } else {
      var init := b[..|b| - 1];
      WithKeyConcat(a, init, key, k);
      WithKeyConcatStep(a, init, b[|b| - 1], key, k);
      assert b == init + [b[|b| - 1]];
    }
  }

  /** One more item at the end of the second list keeps the concatenation law. */
  lemma WithKeyConcatStep<T(!new)>(a: seq<T>, init: seq<T>, x: T, key: T -> string, k: string)
    requires WithKey(a + init, key, k) == WithKey(a, key, k) + WithKey(init, key, k)
    ensures WithKey(a + (init + [x]), key, k) == WithKey(a, key, k) + WithKey(init + [x], key, k)
  {
    var wa, wi, wx := WithKey(a, key, k), WithKey(init, key, k), if key(x) == k then [x] else [];
    assert a + (init + [x]) == (a + init) + [x];
    WithKeySnoc(a + init, key, x, k);
    WithKeySnoc(init, key, x, k);
    assert (wa + wi) + wx == wa + (wi + wx);
  }

  lemma KeysOfSnoc<T(!new)>(s: seq<T>, key: T -> string, x: T)
    ensures KeysOf(s + [x], key) == KeysOf(s, key) + {key(x)}
  {
    var t := s + [x];
    forall kk | kk in KeysOf(t, key) ensures kk in KeysOf(s, key) + {key(x)} {
      var j :| 0 <= j < |t| && key(t[j]) == kk;
      if j < |s| {
        assert t[j] == s[j];
      }
    }
    forall kk | kk in KeysOf(s, key) ensures kk in KeysOf(t, key) {
      var j :| 0 <= j < |s| && key(s[j]) == kk;
      assert t[j] == s[j];
    }
    assert t[|s|] == x;
  }

  /** A key has a non-empty group exactly when some item carries it. */
  lemma WithKeyNonEmpty<T(!new)>(items: seq<T>, key: T -> string, k: string)
    ensures WithKey(items, key, k) != [] <==> k in KeysOf(items, key)
  {
    WithKeyMembers(items, key, k);
    if k in KeysOf(items, key) {
      var i :| 0 <= i < |items| && key(items[i]) == k;
      assert items[i] in WithKey(items, key, k);
    }
    if WithKey(items, key, k) != [] {
      var x := WithKey(items, key, k)[0];
      assert x in items;
      var i :| 0 <= i < |items| && items[i] == x;
    }
  }

  /** The total size of the groups of the keys in `ks`. */
  function SizeSum<T(!new)>(items: seq<T>, key: T -> string, ks: seq<string>): nat
  {
    if ks == [] then 0 else |WithKey(items, key, ks[0])| + SizeSum(items, key, ks[1..])
  }

  ghost predicate Distinct(ks: seq<string>)
  {
    forall i, j :: 0 <= i < j < |ks| ==> ks[i] != ks[j]
  }

  lemma {:induction false} SizeSumSnoc<T(!new)>(items: seq<T>, key: T -> string, ks: seq<string>)
    requires items != [] && Distinct(ks)
    ensures SizeSum(items, key, ks)
         == SizeSum(items[..|items| - 1], key, ks) + (if key(items[|items| - 1]) in ks then 1 else 0)
  {
    if ks != [] {
      assert Distinct(ks[1..]) by {
        forall i, j | 0 <= i < j < |ks[1..]| ensures ks[1..][i] != ks[1..][j] {
          assert ks[1..][i] == ks[i + 1] && ks[1..][j] == ks[j + 1];
        }
      }
      SizeSumSnoc(items, key, ks[1..]);
      var x := items[|items| - 1];
      assert key(x) in ks <==> key(x) == ks[0] || key(x) in ks[1..] by {
        assert ks == [ks[0]] + ks[1..];
      }
      assert forall j :: 0 <= j < |ks[1..]| ==> ks[1..][j] != ks[0] by {
        forall j | 0 <= j < |ks[1..]| ensures ks[1..][j] != ks[0] {
          assert ks[1..][j] == ks[j + 1];
        }
      }
    }
  }

  /** The groups of a complete list of distinct keys hold all the items between them. */
  lemma {:induction false} GroupSizesSum<T(!new)>(items: seq<T>, key: T -> string, ks: seq<string>)
    requires Distinct(ks)
    requires forall i :: 0 <= i < |items| ==> key(items[i]) in ks
    ensures SizeSum(items, key, ks) == |items|
  {
    if items == [] {
      SizeSumEmpty(key, ks);
    } else {
      var init := items[..|items| - 1];
      assert forall i :: 0 <= i < |init| ==> key(init[i]) in ks by {
        forall i | 0 <= i < |init| ensures key(init[i]) in ks {
          assert init[i] == items[i];
        }
      }
      GroupSizesSum(init, key, ks);
      SizeSumSnoc(items, key, ks);
    }
  }

  lemma {:induction false} SizeSumEmpty<T(!new)>(key: T -> string, ks: seq<string>)
    ensures SizeSum([], key, ks) == 0
  {
    if ks != [] {
      SizeSumEmpty(key, ks[1..]);
    }
  }

  /**
   * The partition `GroupBy` makes, in three parts: every item lies in the group of its key
   * (`GroupsCover`), every member of a group has that group's key (`GroupsSound`), and no
   * group is empty (`GroupsNonEmpty`).
   */
  lemma GroupsCover<T(!new)>(items: seq<T>, key: T -> string, groups: map<string, seq<T>>)
    requires groups.Keys == KeysOf(items, key)
    requires forall k :: k in groups ==> groups[k] == WithKey(items, key, k)
    ensures forall i :: 0 <= i < |items| ==> key(items[i]) in groups && items[i] in groups[key(items[i])]
  {
    forall i | 0 <= i < |items| ensures key(items[i]) in groups && items[i] in groups[key(items[i])] {
      assert key(items[i]) in KeysOf(items, key);
      WithKeyMember(items, key, key(items[i]), items[i]);
    }
  }

  lemma GroupsSound<T(!new)>(items: seq<T>, key: T -> string, groups: map<string, seq<T>>)
    requires forall k :: k in groups ==> groups[k] == WithKey(items, key, k)
    ensures forall k, x :: k in groups && x in groups[k] ==> x in items && key(x) == k
  {
    forall k, x | k in groups && x in groups[k] ensures x in items && key(x) == k {
      WithKeyMember(items, key, k, x);
    }
  }

  lemma GroupsNonEmpty<T(!new)>(items: seq<T>, key: T -> string, groups: map<string, seq<T>>)
    requires groups.Keys == KeysOf(items, key)
    requires forall k :: k in groups ==> groups[k] == WithKey(items, key, k)
    ensures forall k :: k in groups ==> groups[k] != []
  {
    forall k | k in groups ensures groups[k] != [] {
      WithKeyNonEmpty(items, key, k);
    }
  }

  /** The keys in the order they first occur, as `Object.keys` lists them; each appears once. */
  function KeyOrder<T>(items: seq<T>, key: T -> string): seq<string>
  {
    if items == [] then []
    else
      var front := KeyOrder(items[..|items| - 1], key);
      if key(items[|items| - 1]) in front then front else front + [key(items[|items| - 1])]
  }

  /** The identity, to read a list of strings as records keyed by themselves. */
  function SelfKey(): string -> string
  {
    (s: string) => s
  }

  lemma {:induction false} KeyOrderKeys<T(!new)>(items: seq<T>, key: T -> string)
    ensures forall k :: k in KeyOrder(items, key) <==> k in KeysOf(items, key)
    ensures DistinctKeys(KeyOrder(items, key), SelfKey())
  {
    if items != [] {
      var init := items[..|items| - 1];
      var x := items[|items| - 1];
      KeyOrderKeys(init, key);
      assert items == init + [x];
      KeysOfSnoc(init, key, x);
    }
  }

  /** The first key listed is the first item's. */
  lemma {:induction false} KeyOrderHead<T>(items: seq<T>, key: T -> string)
    requires items != []
    ensures KeyOrder(items, key) != [] && KeyOrder(items, key)[0] == key(items[0])
  {
    if |items| > 1 {
      var init := items[..|items| - 1];
      KeyOrderHead(init, key);
      assert init[0] == items[0];
    }
  }
}
