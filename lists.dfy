/** `Array.prototype.map`, and a filter followed by a map, with how they treat reordering. */
module Lists {
  import opened Wrappers
  import opened Sorting

  /** `s.map(f)` */
  function Map<T, U>(s: seq<T>, f: T -> U): (r: seq<U>)
    ensures |r| == |s|
    ensures forall i :: 0 <= i < |s| ==> r[i] == f(s[i])
  {
    if s == [] then [] else [f(s[0])] + Map(s[1..], f)
  }

  /** Keeping `g(x).value` for the items where `g(x)` is present, in order. */
  function Choose<T, U>(s: seq<T>, g: T -> Option<U>): (r: seq<U>)
    ensures |r| <= |s|
  {
    if s == [] then []
    else
      match g(s[0])
      case Some(u) => [u] + Choose(s[1..], g)
      case None => Choose(s[1..], g)
  }

  /** What `Choose` keeps: exactly the present results, each from some item. */
  lemma {:induction false} ChooseMembers<T, U>(s: seq<T>, g: T -> Option<U>)
    ensures forall i :: 0 <= i < |s| && g(s[i]).Some? ==> g(s[i]).value in Choose(s, g)
    ensures forall u :: u in Choose(s, g) ==> exists i :: 0 <= i < |s| && g(s[i]) == Some(u)
  {
    if s != [] {
      ChooseMembers(s[1..], g);
      forall i | 0 <= i < |s| && g(s[i]).Some? ensures g(s[i]).value in Choose(s, g) {
        if i > 0 {
          assert s[1..][i - 1] == s[i];
        }
      }
      forall u | u in Choose(s, g) ensures exists i :: 0 <= i < |s| && g(s[i]) == Some(u) {
        if u in Choose(s[1..], g) {
          var i :| 0 <= i < |s[1..]| && g(s[1..][i]) == Some(u);
          assert s[i + 1] == s[1..][i];
        }
      }
    }
  }

  /** The image of a member is a member of the image. */
  lemma MapMember<T, U>(s: seq<T>, x: T, f: T -> U)
    requires x in s
    ensures f(x) in Map(s, f)
  {
    var k :| 0 <= k < |s| && s[k] == x;
    assert Map(s, f)[k] == f(x);
  }

  lemma {:induction false} MapConcat<T, U>(a: seq<T>, b: seq<T>, f: T -> U)
    ensures Map(a + b, f) == Map(a, f) + Map(b, f)
  {
  }

  /** The result for one item: its value when it has one. */
  function Kept<U>(o: Option<U>): seq<U>
  {
    if o.Some? then [o.value] else []
  }

  lemma ChooseCons<T, U>(s: seq<T>, g: T -> Option<U>)
    requires s != []
    ensures Choose(s, g) == Kept(g(s[0])) + Choose(s[1..], g)
  {
  }

  /** One more item of a prefix adds its result, when it has one. */
  lemma ChoosePrefixStep<T, U>(s: seq<T>, i: nat, g: T -> Option<U>)
    requires i < |s|
    ensures Choose(s[..i + 1], g) == Choose(s[..i], g) + Kept(g(s[i]))
  {
    assert s[..i + 1] == s[..i] + [s[i]];
    ChooseConcat(s[..i], [s[i]], g);
    ChooseCons([s[i]], g);
    assert [s[i]][1..] == [];
  }

  lemma {:induction false} ChooseConcat<T, U>(a: seq<T>, b: seq<T>, g: T -> Option<U>)
    ensures Choose(a + b, g) == Choose(a, g) + Choose(b, g)
    decreases |a|
  {
    if a == [] {
      assert a + b == b;
    } else {
      var ab := a + b;
      assert ab[0] == a[0];
      assert ab[1..] == a[1..] + b;
      ChooseConcat(a[1..], b, g);
      ChooseCons(ab, g);
      ChooseCons(a, g);
      var h, ra, rb := Kept(g(a[0])), Choose(a[1..], g), Choose(b, g);
      assert Choose(ab, g) == h + (ra + rb);
      assert h + (ra + rb) == (h + ra) + rb;
    }
  }

  /** Taking out the item at `k` takes its result out of the output. */
  lemma ChooseRemove<T, U>(b: seq<T>, k: nat, g: T -> Option<U>)
    requires k < |b|
    ensures multiset(Choose(b, g)) == multiset(Choose([b[k]], g)) + multiset(Choose(b[..k] + b[k + 1..], g))
  {
    var x, y := b[..k], b[k + 1..];
    AroundIndex(b, k);
    ChooseConcat(x, [b[k]] + y, g);
    ChooseConcat([b[k]], y, g);
    ChooseConcat(x, y, g);
    var cx, cm, cy := Choose(x, g), Choose([b[k]], g), Choose(y, g);
    assert Choose(b, g) == cx + (cm + cy);
    assert multiset(cx + (cm + cy)) == multiset(cx) + multiset(cm) + multiset(cy);
    assert multiset(Choose(x + y, g)) == multiset(cx) + multiset(cy);
  }

  lemma MapRemove<T, U>(b: seq<T>, k: nat, f: T -> U)
    requires k < |b|
    ensures multiset(Map(b, f)) == multiset{f(b[k])} + multiset(Map(b[..k] + b[k + 1..], f))
  {
    var x, y := b[..k], b[k + 1..];
    AroundIndex(b, k);
    MapConcat(x, [b[k]] + y, f);
    MapConcat([b[k]], y, f);
    MapConcat(x, y, f);
    var mx, mm, my := Map(x, f), Map([b[k]], f), Map(y, f);
    assert mm == [f(b[k])];
    assert multiset(mm) == multiset{f(b[k])};
    assert Map(b, f) == mx + (mm + my);
    assert multiset(mx + (mm + my)) == multiset(mx) + multiset(mm) + multiset(my);
    assert multiset(Map(x + y, f)) == multiset(mx) + multiset(my);
  }

  /** Reordering the input reorders the output of a filter-and-map the same way. */
  lemma {:induction false} ChoosePermutation<T, U>(a: seq<T>, b: seq<T>, g: T -> Option<U>)
    requires multiset(a) == multiset(b)
    ensures multiset(Choose(a, g)) == multiset(Choose(b, g))
    decreases |a|
  {
    assert |a| == |multiset(a)| && |b| == |multiset(b)|;
    if a != [] {
      var k := MatchHead(a, b);
      ChoosePermutation(a[1..], b[..k] + b[k + 1..], g);
      ChooseRemove(b, k, g);
      ChooseConcat([a[0]], a[1..], g);
      assert a == [a[0]] + a[1..];
    }
  }

  /** Reordering the input reorders the output of a map the same way. */
  lemma {:induction false} MapPermutation<T, U>(a: seq<T>, b: seq<T>, f: T -> U)
    requires multiset(a) == multiset(b)
    ensures multiset(Map(a, f)) == multiset(Map(b, f))
    decreases |a|
  {
    assert |a| == |multiset(a)| && |b| == |multiset(b)|;
    if a != [] {
      var k := MatchHead(a, b);
      MapPermutation(a[1..], b[..k] + b[k + 1..], f);
      MapRemove(b, k, f);
      assert Map(a, f) == [f(a[0])] + Map(a[1..], f);
    }
  }

  /** When the kept results of different items have different keys, the output's keys are distinct. */
  lemma {:induction false} ChooseDistinct<T, U>(s: seq<T>, g: T -> Option<U>, key: U -> string)
    requires forall i, j :: (0 <= i < |s| && 0 <= j < |s| && i != j && g(s[i]).Some? && g(s[j]).Some?
      ==> key(g(s[i]).value) != key(g(s[j]).value))
    ensures DistinctKeys(Choose(s, g), key)
  {
    if s != [] {
      var rest := Choose(s[1..], g);
      assert forall i, j :: (0 <= i < |s[1..]| && 0 <= j < |s[1..]| && i != j && g(s[1..][i]).Some? && g(s[1..][j]).Some?
          ==> key(g(s[1..][i]).value) != key(g(s[1..][j]).value)) by {
        forall i, j | 0 <= i < |s[1..]| && 0 <= j < |s[1..]| && i != j && g(s[1..][i]).Some? && g(s[1..][j]).Some?
          ensures key(g(s[1..][i]).value) != key(g(s[1..][j]).value) {
          assert s[1..][i] == s[i + 1] && s[1..][j] == s[j + 1];
        }
      }
      ChooseDistinct(s[1..], g, key);
      if g(s[0]).Some? {
        ChooseMembers(s[1..], g);
        forall y | y in rest ensures key(y) != key(g(s[0]).value) {
          var i :| 0 <= i < |s[1..]| && g(s[1..][i]) == Some(y);
          assert s[1..][i] == s[i + 1];
        }
        DistinctKeysInsert(rest, 0, g(s[0]).value, key);
        assert rest[..0] + [g(s[0]).value] + rest[0..] == [g(s[0]).value] + rest;
      }
    }
  }
}
