/**
 * The property columns of the profile page and of the grid's detail panel: the rows whose
 * value is neither `null`/`undefined` nor `""`, cut into columns of four.
 */
module PropertyList {
  import opened Wrappers
  import opened Strings
  import opened Lists
  import opened JsValues

  /** One row of a property list; the icon is left out. */
  datatype Property = Property(name: string, value: JsValue)

  /** `property.value != null && property.value !== ""` */
  predicate Shown(p: Property)
  {
    !IsNullish(p.value) && p.value != Str("")
  }

  function KeepShown(p: Property): Option<Property>
  {
    if Shown(p) then Some(p) else None
  }

  function KeepShownFn(): Property -> Option<Property>
  {
    (p: Property) => KeepShown(p)
  }

  /** `filteredProperties` */
  function FilterProperties(properties: seq<Property>): seq<Property>
  {
    Choose(properties, KeepShownFn())
  }

  /** `colorModes.join(", ")`, the text of the color-modes row. */
  function ColorModesText(colorModes: seq<string>): string
  {
    Join(colorModes, ", ")
  }

  /**
   * What the chunking loop leaves in `chunkedProperties`: consecutive runs of four, the last
   * one shorter when the count is not a multiple of four.
   */
  function Chunks<T>(s: seq<T>): seq<seq<T>>
    decreases |s|
  {
    if s == [] then []
    else if |s| <= 4 then [s]
    else [s[..4]] + Chunks(s[4..])
  }

  /** The chunks laid end to end. */
  function Flatten<T>(chunks: seq<seq<T>>): seq<T>
  {
    if chunks == [] then [] else chunks[0] + Flatten(chunks[1..])
  }

  /** What is left of `s` from index `i` on; nothing once `i` is past the end. */
  function Drop<T>(s: seq<T>, i: nat): seq<T>
  {
    if i <= |s| then s[i..] else []
  }

  /** The `for` loop with stride 4 that pushes `filtered.slice(i, i + 4)`. */
  method ChunkProperties<T>(filtered: seq<T>) returns (chunked: seq<seq<T>>)
    ensures chunked == Chunks(filtered)
  {
    chunked := [];
    var i := 0;
    while i < |filtered|
      invariant i <= |filtered| + 3
      invariant chunked + Chunks(Drop(filtered, i)) == Chunks(filtered)
      decreases |filtered| + 3 - i
    {
      // `slice` stops at the end of the list
      var end := if i + 4 < |filtered| then i + 4 else |filtered|;
      ChunksStep(filtered, i);
      assert (chunked + [filtered[i..end]]) + Chunks(Drop(filtered, i + 4))
        == chunked + ([filtered[i..end]] + Chunks(Drop(filtered, i + 4)));
      chunked := chunked + [filtered[i..end]];
      i := i + 4;
    }
    assert Drop(filtered, i) == [];
    assert chunked + [] == chunked;
  }

  /** One turn of the loop takes the next slice of at most four and moves four on. */
  lemma ChunksStep<T>(s: seq<T>, i: nat)
    requires i < |s|
    ensures Chunks(Drop(s, i)) == [s[i..if i + 4 < |s| then i + 4 else |s|]] + Chunks(Drop(s, i + 4))
  {
    var t := s[i..];
    if |t| <= 4 {
      assert Chunks(t) == [t];
      assert s[i..|s|] == t;
      assert Drop(s, i + 4) == [];
    } else {
      assert t[..4] == s[i..i + 4];
      assert t[4..] == s[i + 4..];
    }
  }

  // ---- properties ----

  /** The list keeps exactly the rows with a value, in their original order. */
  lemma FilterPropertiesExactly(properties: seq<Property>)
    ensures forall p :: p in FilterProperties(properties) <==> p in properties && Shown(p)
    ensures |FilterProperties(properties)| <= |properties|
  {
    ChooseMembers(properties, KeepShownFn());
  }

  /** A given row is in the filtered list exactly when it has a value. */
  lemma FilterKeepsRow(properties: seq<Property>, i: nat)
    requires i < |properties|
    ensures properties[i] in FilterProperties(properties) <==> Shown(properties[i])
  {
    FilterPropertiesExactly(properties);
  }

  /** Filtering is done row by row, so the order of the rows is kept. */
  lemma FilterPropertiesOrder(a: seq<Property>, b: seq<Property>)
    ensures FilterProperties(a + b) == FilterProperties(a) + FilterProperties(b)
  {
    ChooseConcat(a, b, KeepShownFn());
  }

  /**
   * The filter is not truthiness: `0` and `false` are shown, only `null`, `undefined` and the
   * empty string are dropped.
   */
  lemma ShownIsNotTruthy(name: string)
    ensures Shown(Property(name, Num(0))) && !Truthy(Num(0))
    ensures Shown(Property(name, Bool(false))) && !Truthy(Bool(false))
    ensures !Shown(Property(name, Null)) && !Shown(Property(name, Undefined)) && !Shown(Property(name, Str("")))
  {
  }

  /**
   * The chunks put back together are the list; every chunk but the last has four rows, the
   * last has one to four, and there are `ceil(n / 4)` of them.
   */
  lemma {:induction false} ChunksShape<T>(s: seq<T>)
    ensures Flatten(Chunks(s)) == s
    ensures forall i :: 0 <= i < |Chunks(s)| - 1 ==> |Chunks(s)[i]| == 4
    ensures Chunks(s) != [] ==> 1 <= |Chunks(s)[|Chunks(s)| - 1]| <= 4
    ensures |Chunks(s)| == (|s| + 3) / 4
    decreases |s|
  {
    if |s| > 4 {
      var rest := Chunks(s[4..]);
      ChunksShape(s[4..]);
      assert Chunks(s) == [s[..4]] + rest;
      assert Chunks(s)[1..] == rest;
      assert s[..4] + s[4..] == s;
      forall i | 0 <= i < |Chunks(s)| - 1 ensures |Chunks(s)[i]| == 4 {
        if i > 0 {
          assert Chunks(s)[i] == rest[i - 1];
        }
      }
    } else if s != [] {
      assert Chunks(s) == [s];
      assert Flatten(Chunks(s)) == s + Flatten([]);
    }
  }

  /**
   * The chunking is the only way to cut the list into runs of four with a shorter last one:
   * any such cutting is the one the loop produces.
   */
  lemma {:induction false} ChunksUnique<T>(s: seq<T>, cs: seq<seq<T>>)
    requires Flatten(cs) == s
    requires forall i :: 0 <= i < |cs| - 1 ==> |cs[i]| == 4
    requires cs != [] ==> 1 <= |cs[|cs| - 1]| <= 4
    ensures cs == Chunks(s)
    decreases |cs|
  {
    if cs != [] {
      var rest := cs[1..];
      assert s == cs[0] + Flatten(rest);
      if |cs| == 1 {
        assert Flatten(rest) == [];
        assert s == cs[0];
      } else {
        assert |cs[0]| == 4;
        assert rest[|rest| - 1] == cs[|cs| - 1];
        forall i | 0 <= i < |rest| - 1 ensures |rest[i]| == 4 {
          assert rest[i] == cs[i + 1];
        }
        assert Flatten(rest) != [] by {
          assert Flatten(rest) == rest[0] + Flatten(rest[1..]);
        }
        assert s[..4] == cs[0];
        assert s[4..] == Flatten(rest);
        ChunksUnique(s[4..], rest);
        assert cs == [cs[0]] + rest;
      }
    }
  }

  /** The color-modes row is dropped only when there are no modes (or a single empty one). */
  lemma {:induction false} ColorModesTextEmpty(colorModes: seq<string>)
    ensures ColorModesText(colorModes) == "" <==> colorModes == [] || colorModes == [""]
  {
    if |colorModes| > 1 {
      assert |ColorModesText(colorModes)| >= 2;
    }
  }
}
