/**
 * `URLSearchParams`: an ordered list of name/value pairs with the operations the dashboard
 * uses (`get`, `set`, `toString` and parsing a query string), following the
 * application/x-www-form-urlencoded rules of section 5 of the WHATWG URL Standard.
 *
 * The percent-encoding is modelled by a small invertible stand-in: `Encode` escapes exactly
 * the characters the parser gives a meaning to (`%`, `&`, `=`, `+`, `?`) and writes a space as
 * `+`; every other character is kept as it is.
 */
module FormUrlEncoded {
  import opened Wrappers
  import opened Strings
  import opened Sorting

  type Query = seq<(string, string)>

  /** The name of a pair. */
  function Name(p: (string, string)): string
  {
    p.0
  }

  /** The characters that separate or introduce the parts of a query string. */
  predicate Reserved(c: char)
  {
    c == '&' || c == '=' || c == '?'
  }

  /** The percent escape of one character, or the character itself. */
  function EncodeChar(c: char): (r: string)
    ensures |r| >= 1
    ensures forall i :: 0 <= i < |r| ==> !Reserved(r[i])
  {
    if c == '%' then "%25"
    else if c == '&' then "%26"
    else if c == '=' then "%3D"
    else if c == '+' then "%2B"
    else if c == '?' then "%3F"
    else if c == ' ' then "+"
    else [c]
  }

  /** The character a two-character escape after `%` stands for. */
  function Unescape(x: char, y: char): Option<char>
  {
    if x == '2' && y == '5' then Some('%')
    else if x == '2' && y == '6' then Some('&')
    else if x == '3' && y == 'D' then Some('=')
    else if x == '2' && y == 'B' then Some('+')
    else if x == '3' && y == 'F' then Some('?')
    else None
  }

  /** The serializer's encoding of a name or a value: it never contains a separator. */
  function Encode(s: string): (r: string)
    ensures forall i :: 0 <= i < |r| ==> !Reserved(r[i])
    ensures |r| >= |s|
  {
    if s == [] then [] else EncodeChar(s[0]) + Encode(s[1..])
  }

  /** Text the encoding leaves as it is: none of `%`, `&`, `=`, `+`, `?` or a space. */
  predicate Plain(s: string)
  {
    forall i :: 0 <= i < |s| ==> s[i] !in "%&=+? "
  }

  lemma {:induction false} EncodePlain(s: string)
    requires Plain(s)
    ensures Encode(s) == s
  {
    if s != [] {
      EncodePlain(s[1..]);
      assert [s[0]] + s[1..] == s;
    }
  }

  /** The parser's decoding: `+` is a space and a known escape is its character. */
  function Decode(t: string): string
  {
    if t == [] then []
    else if t[0] == '+' then [' '] + Decode(t[1..])
    else if t[0] == '%' && |t| >= 3 && Unescape(t[1], t[2]).Some? then
      [Unescape(t[1], t[2]).value] + Decode(t[3..])
    else [t[0]] + Decode(t[1..])
  }

  lemma DecodeEncodeChar(c: char, rest: string)
    ensures Decode(EncodeChar(c) + rest) == [c] + Decode(rest)
  {
    var e := EncodeChar(c) + rest;
    if |EncodeChar(c)| == 3 {
      assert e[3..] == rest;
    } else {
      assert e[1..] == rest;
    }
  }

  /** Decoding undoes encoding. */
  lemma {:induction false} DecodeEncode(s: string)
    ensures Decode(Encode(s)) == s
  {
    if s != [] {
      DecodeEncodeChar(s[0], Encode(s[1..]));
      DecodeEncode(s[1..]);
      assert [s[0]] + s[1..] == s;
    }
  }

  /** `params.get(name)`: the value of the first pair with that name. */
  function Get(q: Query, name: string): (r: Option<string>)
    ensures r.None? <==> forall i :: 0 <= i < |q| ==> q[i].0 != name
    ensures r.Some? ==> (name, r.value) in q
  {
    if q == [] then None
    else if q[0].0 == name then Some(q[0].1)
    else Get(q[1..], name)
  }

  /** `get` answers with the first pair of that name, whatever follows it. */
  lemma {:induction false} GetFirst(q: Query, i: nat)
    requires i < |q|
    requires forall j :: 0 <= j < i ==> q[j].0 != q[i].0
    ensures Get(q, q[i].0) == Some(q[i].1)
  {
    if i > 0 {
      GetFirst(q[1..], i - 1);
    }
  }

  /** The pairs whose name is not `name`, in order. */
  function Without(q: Query, name: string): (r: Query)
    ensures forall i :: 0 <= i < |r| ==> r[i].0 != name
    ensures forall p :: p in r <==> p in q && p.0 != name
  {
    if q == [] then []
    else if q[0].0 == name then Without(q[1..], name)
    else [q[0]] + Without(q[1..], name)
  }

  /**
   * `params.set(name, value)`: the first pair with that name takes the value and the later
   * ones are removed; without such a pair, the pair is appended.
   */
  function Set(q: Query, name: string, value: string): Query
  {
    if q == [] then [(name, value)]
    else if q[0].0 == name then [(name, value)] + Without(q[1..], name)
    else [q[0]] + Set(q[1..], name, value)
  }

  /** After `set`, `get` returns the new value and the name occurs exactly once. */
  lemma {:induction false} SetGet(q: Query, name: string, value: string)
    ensures Get(Set(q, name, value), name) == Some(value)
    ensures Without(Set(q, name, value), name) == Without(q, name)
    ensures |Set(q, name, value)| == |Without(q, name)| + 1
  {
    if q != [] {
      if q[0].0 == name {
        WithoutIdempotent(q[1..], name);
      } else {
        SetGet(q[1..], name, value);
      }
    }
  }

  lemma {:induction false} WithoutIdempotent(q: Query, name: string)
    ensures Without(Without(q, name), name) == Without(q, name)
  {
    if q != [] {
      WithoutIdempotent(q[1..], name);
    }
  }

  /** `set` leaves every other parameter's value alone. */
  lemma {:induction false} SetKeepsOthers(q: Query, name: string, value: string, other: string)
    requires other != name
    ensures Get(Set(q, name, value), other) == Get(q, other)
  {
    if q != [] && q[0].0 != name {
      SetKeepsOthers(q[1..], name, value, other);
    } else if q != [] {
      GetWithout(q[1..], name, other);
    }
  }

  lemma {:induction false} GetWithout(q: Query, name: string, other: string)
    requires other != name
    ensures Get(Without(q, name), other) == Get(q, other)
  {
    if q != [] {
      GetWithout(q[1..], name, other);
    }
  }

  /** `name=value` with both parts encoded. */
  function PairText(p: (string, string)): (r: string)
    ensures '&' !in r
  {
    Encode(p.0) + "=" + Encode(p.1)
  }

  function PairTexts(q: Query): (r: seq<string>)
    ensures |r| == |q|
    ensures forall i :: 0 <= i < |q| ==> r[i] == PairText(q[i])
  {
    if q == [] then [] else [PairText(q[0])] + PairTexts(q[1..])
  }

  /** `params.toString()`: the encoded pairs joined with `&`. */
  function Serialize(q: Query): string
  {
    Join(PairTexts(q), "&")
  }

  /** The text before the first `c` and the text after it (all of `s` and "" when there is none). */
  function BreakAt(s: string, c: char): (string, string)
  {
    if s == [] then ([], [])
    else if s[0] == c then ([], s[1..])
    else
      var (a, b) := BreakAt(s[1..], c);
      ([s[0]] + a, b)
  }

  lemma {:induction false} BreakAtFirst(x: string, y: string, c: char)
    requires c !in x
    ensures BreakAt(x + [c] + y, c) == (x, y)
  {
    if x == [] {
      assert ([c] + y)[1..] == y;
    } else {
      BreakAtFirst(x[1..], y, c);
      assert (x + [c] + y)[1..] == x[1..] + [c] + y;
      assert [x[0]] + x[1..] == x;
    }
  }

  /** One `name=value` piece, decoded. */
  function ParsePair(piece: string): (string, string)
  {
    var (n, v) := BreakAt(piece, '=');
    (Decode(n), Decode(v))
  }

  /** The pairs of the non-empty pieces, in order; empty pieces are skipped. */
  function ParsePieces(pieces: seq<string>): Query
  {
    if pieces == [] then []
    else if pieces[0] == "" then ParsePieces(pieces[1..])
    else [ParsePair(pieces[0])] + ParsePieces(pieces[1..])
  }

  /** `new URLSearchParams(s)`: a leading `?` is dropped, then the pieces between `&` are read. */
  function Parse(s: string): Query
  {
    var body := if |s| > 0 && s[0] == '?' then s[1..] else s;
    ParsePieces(Split(body, '&'))
  }

  lemma {:induction false} ParsePairTexts(q: Query)
    ensures ParsePieces(PairTexts(q)) == q
  {
    if q != [] {
      var p := q[0];
      assert '=' !in Encode(p.0) by {
        assert forall i :: 0 <= i < |Encode(p.0)| ==> !Reserved(Encode(p.0)[i]);
      }
      BreakAtFirst(Encode(p.0), Encode(p.1), '=');
      DecodeEncode(p.0);
      DecodeEncode(p.1);
      assert PairText(p) != "" by {
        assert |PairText(p)| >= 1;
      }
      assert PairTexts(q)[1..] == PairTexts(q[1..]);
      ParsePairTexts(q[1..]);
      assert [q[0]] + q[1..] == q;
    }
  }

  /** Reading back the serialized pairs gives the same pairs, in the same order. */
  lemma ParseSerialize(q: Query)
    ensures Parse(Serialize(q)) == q
  {
    var texts := PairTexts(q);
    if q == [] {
      assert Serialize(q) == "";
      assert Split("", '&') == [""];
      assert ParsePieces([""]) == ParsePieces([]);
    } else {
      var s := Serialize(q);
      assert s[0] != '?' by {
        var e := Encode(q[0].0);
        if |e| > 0 {
          JoinHead(texts, "&");
          assert s[0] == e[0];
        } else {
          JoinHead(texts, "&");
          assert s[0] == '=';
        }
      }
      SplitJoin(texts, '&');
      ParsePairTexts(q);
    }
  }

  lemma JoinHead(parts: seq<string>, sep: string)
    requires |parts| >= 1
    ensures StartsWith(Join(parts, sep), parts[0])
  {
    if |parts| > 1 {
      assert Join(parts, sep) == parts[0] + (sep + Join(parts[1..], sep));
    }
  }

  /** Different parameter lists never give the same query string. */
  lemma SerializeInjective(a: Query, b: Query)
    requires Serialize(a) == Serialize(b)
    ensures a == b
  {
    ParseSerialize(a);
    ParseSerialize(b);
  }

  /** Setting every pair in turn, as `params.set(k, v)` in a loop does. */
  function SetAll(q: Query, pairs: Query): Query
    decreases |pairs|
  {
    if pairs == [] then q else SetAll(Set(q, pairs[0].0, pairs[0].1), pairs[1..])
  }

  lemma {:induction false} SetAbsent(q: Query, name: string, value: string)
    requires forall i :: 0 <= i < |q| ==> q[i].0 != name
    ensures Set(q, name, value) == q + [(name, value)]
  {
    if q != [] {
      SetAbsent(q[1..], name, value);
      assert [q[0]] + (q[1..] + [(name, value)]) == q + [(name, value)];
    }
  }

  lemma {:induction false} WithoutAbsent(q: Query, name: string)
    requires forall i :: 0 <= i < |q| ==> q[i].0 != name
    ensures Without(q, name) == q
  {
    if q != [] {
      WithoutAbsent(q[1..], name);
      assert [q[0]] + q[1..] == q;
    }
  }

  /** With distinct names, `set` on a name that is there changes that pair's value in place. */
  lemma {:induction false} SetPresent(q: Query, k: nat, value: string)
    requires k < |q| && DistinctKeys(q, Name)
    ensures Set(q, q[k].0, value) == q[k := (q[k].0, value)]
  {
    var name := q[k].0;
    DistinctKeysTail(q, Name);
    if k == 0 {
      forall i | 0 <= i < |q[1..]| ensures q[1..][i].0 != name {
        assert Name(q[1..][i]) != Name(q[0]);
      }
      WithoutAbsent(q[1..], name);
    } else {
      assert Name(q[0]) != Name(q[k]);
      assert q[1..][k - 1] == q[k];
      SetPresent(q[1..], k - 1, value);
      assert q[k := (name, value)] == [q[0]] + q[1..][k - 1 := (name, value)];
    }
  }

  /** With distinct names, `get` finds the only pair of a name. */
  lemma GetDistinct(q: Query, k: nat)
    requires k < |q| && DistinctKeys(q, Name)
    ensures Get(q, q[k].0) == Some(q[k].1)
  {
    forall j | 0 <= j < k ensures q[j].0 != q[k].0 {
      assert Name(q[j]) != Name(q[k]);
    }
    GetFirst(q, k);
  }

  /** With distinct names, setting each pair in turn appends them all in order. */
  lemma {:induction false} SetAllDistinct(q: Query, pairs: Query)
    requires DistinctKeys(q + pairs, Name)
    ensures SetAll(q, pairs) == q + pairs
    decreases |pairs|
  {
    if pairs != [] {
      assert forall i :: 0 <= i < |q| ==> q[i].0 != pairs[0].0 by {
        forall i | 0 <= i < |q| ensures q[i].0 != pairs[0].0 {
          assert (q + pairs)[i] == q[i] && (q + pairs)[|q|] == pairs[0];
          assert Name((q + pairs)[i]) != Name((q + pairs)[|q|]);
        }
      }
      SetAbsent(q, pairs[0].0, pairs[0].1);
      var q' := q + [pairs[0]];
      assert q' + pairs[1..] == q + pairs;
      SetAllDistinct(q', pairs[1..]);
    }
  }

  /**
   * Setting pairs sorted by name, one after the other, into parameters that are sorted, have
   * distinct names and no name above the pairs', leaves parameters sorted with distinct names.
   */
  lemma {:induction false} SetAllSorted(q: Query, pairs: Query)
    requires SortedBy(q, KeyLe(Name)) && DistinctKeys(q, Name)
    requires SortedBy(pairs, KeyLe(Name))
    requires forall i, j :: 0 <= i < |q| && 0 <= j < |pairs| ==> StrLe(q[i].0, pairs[j].0)
    ensures SortedBy(SetAll(q, pairs), KeyLe(Name)) && DistinctKeys(SetAll(q, pairs), Name)
    decreases |pairs|
  {
    if pairs != [] {
      var n, v := pairs[0].0, pairs[0].1;
      var q' := Set(q, n, v);
      var rest := pairs[1..];
      SetSorted(q, n, v);
      forall i, j | 0 <= i < |q'| && 0 <= j < |rest| ensures StrLe(q'[i].0, rest[j].0) {
        assert rest[j] == pairs[j + 1];
        if q'[i].0 == n {
          assert KeyLe(Name)(pairs[0], pairs[j + 1]);
          assert StrLe(Name(pairs[0]), Name(pairs[j + 1]));
        } else {
          assert i < |q| && q'[i].0 == q[i].0;
          assert StrLe(q[i].0, pairs[j + 1].0);
        }
      }
      SortedTail(pairs);
      SetAllSorted(q', rest);
    }
  }

  /** The pairs after the first of a sorted list are sorted. */
  lemma SortedTail(pairs: Query)
    requires pairs != [] && SortedBy(pairs, KeyLe(Name))
    ensures SortedBy(pairs[1..], KeyLe(Name))
  {
    forall i, j | 0 <= i < j < |pairs[1..]| ensures KeyLe(Name)(pairs[1..][i], pairs[1..][j]) {
      assert pairs[1..][i] == pairs[i + 1] && pairs[1..][j] == pairs[j + 1];
    }
  }

  /**
   * Setting a name no smaller than any name there keeps sorted parameters with distinct names
   * sorted and distinct; each position then holds the name it held before, or the new one.
   */
  lemma SetSorted(q: Query, n: string, v: string)
    requires SortedBy(q, KeyLe(Name)) && DistinctKeys(q, Name)
    requires forall i :: 0 <= i < |q| ==> StrLe(q[i].0, n)
    ensures SortedBy(Set(q, n, v), KeyLe(Name)) && DistinctKeys(Set(q, n, v), Name)
    ensures forall i :: 0 <= i < |Set(q, n, v)| ==> Set(q, n, v)[i].0 == n || (i < |q| && Set(q, n, v)[i].0 == q[i].0)
  {
    var q' := Set(q, n, v);
    if exists k :: 0 <= k < |q| && q[k].0 == n {
      var k :| 0 <= k < |q| && q[k].0 == n;
      SetPresent(q, k, v);
      SetPresentSorted(q, k, v);
    } else {
      SetAbsent(q, n, v);
      SetAbsentSorted(q, n, v);
    }
  }

  lemma SetPresentSorted(q: Query, k: nat, v: string)
    requires k < |q| && SortedBy(q, KeyLe(Name)) && DistinctKeys(q, Name)
    ensures var q' := q[k := (q[k].0, v)];
      && SortedBy(q', KeyLe(Name)) && DistinctKeys(q', Name)
      && forall i :: 0 <= i < |q'| ==> q'[i].0 == q[i].0
  {
    var q' := q[k := (q[k].0, v)];
    forall i | 0 <= i < |q'| ensures Name(q'[i]) == Name(q[i]) {
    }
    forall i, j | 0 <= i < j < |q'| ensures KeyLe(Name)(q'[i], q'[j]) {
      assert KeyLe(Name)(q[i], q[j]);
    }
    forall i, j | 0 <= i < |q'| && 0 <= j < |q'| && i != j ensures Name(q'[i]) != Name(q'[j]) {
      assert Name(q[i]) != Name(q[j]);
    }
  }

  lemma SetAbsentSorted(q: Query, n: string, v: string)
    requires SortedBy(q, KeyLe(Name)) && DistinctKeys(q, Name)
    requires forall i :: 0 <= i < |q| ==> StrLe(q[i].0, n) && q[i].0 != n
    ensures var q' := q + [(n, v)];
      && SortedBy(q', KeyLe(Name)) && DistinctKeys(q', Name)
      && forall i :: 0 <= i < |q'| ==> q'[i].0 == n || (i < |q| && q'[i].0 == q[i].0)
  {
    var q' := q + [(n, v)];
    forall i, j | 0 <= i < j < |q'| ensures KeyLe(Name)(q'[i], q'[j]) {
      assert q'[i] == q[i];
      if j < |q| {
        assert q'[j] == q[j];
        assert KeyLe(Name)(q[i], q[j]);
      } else {
        assert q'[j] == (n, v);
        assert StrLe(Name(q'[i]), Name(q'[j]));
      }
    }
    forall i, j | 0 <= i < |q'| && 0 <= j < |q'| && i != j ensures Name(q'[i]) != Name(q'[j]) {
      if i < |q| && j < |q| {
        assert Name(q[i]) != Name(q[j]);
      }
    }
  }

  /** `set` only ever writes the pair it was given or keeps pairs that were there. */
  lemma {:induction false} SetMembers(q: Query, name: string, value: string)
    ensures forall x :: x in Set(q, name, value) ==> x in q || x == (name, value)
  {
    if q != [] && q[0].0 != name {
      SetMembers(q[1..], name, value);
    }
  }

  lemma {:induction false} SetAllMembers(q: Query, pairs: Query)
    ensures forall x :: x in SetAll(q, pairs) ==> x in q || x in pairs
    decreases |pairs|
  {
    if pairs != [] {
      SetMembers(q, pairs[0].0, pairs[0].1);
      SetAllMembers(Set(q, pairs[0].0, pairs[0].1), pairs[1..]);
    }
  }

  /** Every name that was set, or was there before, can be read back. */
  lemma {:induction false} SetAllHasNames(q: Query, pairs: Query)
    ensures forall x :: x in q ==> Get(SetAll(q, pairs), x.0).Some?
    ensures forall x :: x in pairs ==> Get(SetAll(q, pairs), x.0).Some?
    decreases |pairs|
  {
    forall x | x in q ensures Get(SetAll(q, pairs), x.0).Some? {
      SetAllKeepsName(q, pairs, x.0);
    }
    if pairs != [] {
      var q' := Set(q, pairs[0].0, pairs[0].1);
      SetAllHasNames(q', pairs[1..]);
      forall x | x in pairs ensures Get(SetAll(q, pairs), x.0).Some? {
        if x == pairs[0] {
          SetGet(q, pairs[0].0, pairs[0].1);
          SetAllKeepsName(q', pairs[1..], x.0);
        } else {
          assert x in pairs[1..];
        }
      }
    }
  }

  /** A name that is there stays there through any number of `set`s. */
  lemma {:induction false} SetAllKeepsName(q: Query, pairs: Query, name: string)
    requires Get(q, name).Some?
    ensures Get(SetAll(q, pairs), name).Some?
    decreases |pairs|
  {
    if pairs != [] {
      var q' := Set(q, pairs[0].0, pairs[0].1);
      if name == pairs[0].0 {
        SetGet(q, pairs[0].0, pairs[0].1);
      } else {
        SetKeepsOthers(q, pairs[0].0, pairs[0].1, name);
      }
      SetAllKeepsName(q', pairs[1..], name);
    }
  }

  lemma GetSomeHas(q: Query, name: string)
    requires Get(q, name).Some?
    ensures (name, Get(q, name).value) in q
  {
  }
}
