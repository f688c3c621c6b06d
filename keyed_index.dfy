/**
 * Building a dictionary from a list in one pass: `map.set(key(x), x)` for every element,
 * where a later element overwrites an earlier one with the same key, and `acc[key(x)] ??= x`,
 * where the first element with a (non-empty) key stays.
 */
module KeyedIndex {
  import opened Sorting

  /** The dictionary after `set(key(x), x)` for each `x` of `s` in turn. */
  function Index<T>(s: seq<T>, key: T -> string): map<string, T>
  {
    if s == [] then map[] else Index(s[..|s| - 1], key)[key(s[|s| - 1]) := s[|s| - 1]]
  }

  /** `s[i]` is the last element of `s` with key `k`. */
  ghost predicate LastWith<T>(s: seq<T>, key: T -> string, k: string, i: int)
  {
    0 <= i < |s| && key(s[i]) == k && forall j :: i < j < |s| ==> key(s[j]) != k
  }

  /** The keys are exactly the elements' keys, and each key holds the last element carrying it. */
  lemma {:induction false} IndexLastWins<T>(s: seq<T>, key: T -> string)
    ensures forall k :: k in Index(s, key) <==> exists i :: 0 <= i < |s| && key(s[i]) == k
    ensures forall k :: k in Index(s, key) ==> exists i :: LastWith(s, key, k, i) && Index(s, key)[k] == s[i]
  {
    if s != [] {
      var init := s[..|s| - 1];
      var last := s[|s| - 1];
      IndexLastWins(init, key);
      forall k ensures k in Index(s, key) <==> exists i :: 0 <= i < |s| && key(s[i]) == k {
        if k in Index(init, key) {
          var i :| 0 <= i < |init| && key(init[i]) == k;
          assert s[i] == init[i];
        }
        if k != key(last) && exists i :: 0 <= i < |s| && key(s[i]) == k {
          var i :| 0 <= i < |s| && key(s[i]) == k;
          assert i < |init| && init[i] == s[i];
        }
      }
      forall k | k in Index(s, key) ensures exists i :: LastWith(s, key, k, i) && Index(s, key)[k] == s[i] {
        if k == key(last) {
          assert LastWith(s, key, k, |s| - 1);
        } else {
          var i :| LastWith(init, key, k, i) && Index(init, key)[k] == init[i];
          assert s[i] == init[i];
          assert LastWith(s, key, k, i);
        }
      }
    }
  }

  /** The element of `s` whose key is `key(s[i])` and comes last is the indexed one. */
  lemma IndexAt<T>(s: seq<T>, key: T -> string, i: nat)
    requires i < |s| && LastWith(s, key, key(s[i]), i)
    ensures key(s[i]) in Index(s, key) && Index(s, key)[key(s[i])] == s[i]
  {
    IndexLastWins(s, key);
    var j :| LastWith(s, key, key(s[i]), j) && Index(s, key)[key(s[i])] == s[j];
    assert j == i;
  }

  /** With distinct keys every element is found under its own key. */
  lemma IndexDistinct<T>(s: seq<T>, key: T -> string, i: nat)
    requires i < |s| && DistinctKeys(s, key)
    ensures key(s[i]) in Index(s, key) && Index(s, key)[key(s[i])] == s[i]
  {
    IndexAt(s, key, i);
  }

  /** The dictionary after `acc[key(x)] ??= x` for each `x` of `s` whose key is not empty. */
  function FirstIndex<T>(s: seq<T>, key: T -> string): map<string, T>
  {
    if s == [] then map[]
    else
      var acc := FirstIndex(s[..|s| - 1], key);
      var k := key(s[|s| - 1]);
      if k != "" && k !in acc then acc[k := s[|s| - 1]] else acc
  }

  /** Appending an element sets its key unless the key is empty or already taken. */
  lemma FirstIndexSnoc<T>(s: seq<T>, x: T, key: T -> string)
    ensures FirstIndex(s + [x], key)
      == if key(x) != "" && key(x) !in FirstIndex(s, key) then FirstIndex(s, key)[key(x) := x] else FirstIndex(s, key)
  {
    var t := s + [x];
    assert t[..|t| - 1] == s;
    assert t[|t| - 1] == x;
  }

  /** `s[i]` is the first element of `s` with key `k`. */
  ghost predicate FirstWith<T>(s: seq<T>, key: T -> string, k: string, i: int)
  {
    0 <= i < |s| && key(s[i]) == k && forall j :: 0 <= j < i ==> key(s[j]) != k
  }

  /** The keys are exactly the non-empty keys of the elements, each holding the first element carrying it. */
  lemma {:induction false} FirstIndexFirstWins<T>(s: seq<T>, key: T -> string)
    ensures forall k :: k in FirstIndex(s, key) <==> k != "" && exists i :: 0 <= i < |s| && key(s[i]) == k
    ensures forall k :: k in FirstIndex(s, key) ==> exists i :: FirstWith(s, key, k, i) && FirstIndex(s, key)[k] == s[i]
  {
    if s != [] {
      var init := s[..|s| - 1];
      var last := s[|s| - 1];
      FirstIndexFirstWins(init, key);
      forall k ensures k in FirstIndex(s, key) <==> k != "" && exists i :: 0 <= i < |s| && key(s[i]) == k {
        if k in FirstIndex(init, key) {
          var i :| 0 <= i < |init| && key(init[i]) == k;
          assert s[i] == init[i];
        }
        if k != key(last) && exists i :: 0 <= i < |s| && key(s[i]) == k {
          var i :| 0 <= i < |s| && key(s[i]) == k;
          assert i < |init| && init[i] == s[i];
        }
      }
      forall k | k in FirstIndex(s, key) ensures exists i :: FirstWith(s, key, k, i) && FirstIndex(s, key)[k] == s[i] {
        if k in FirstIndex(init, key) {
          var i :| FirstWith(init, key, k, i) && FirstIndex(init, key)[k] == init[i];
          assert s[i] == init[i];
          assert FirstWith(s, key, k, i);
        } else {
          assert k == key(last);
          forall j | 0 <= j < |s| - 1 ensures key(s[j]) != k {
            assert s[j] == init[j];
          }
          assert FirstWith(s, key, k, |s| - 1);
        }
      }
    }
  }
}
