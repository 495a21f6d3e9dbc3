/** Texts as UTF-16 code units, bytes, and the slicing that both ends of the extension socket rely on. */
module Texts {
  /** JavaScript slices strings by code unit and may cut a surrogate pair; equality is over code units. */
  type CodeUnit = u: int | 0 <= u < 0x10000

  type Text = seq<CodeUnit>

  type byte = b: int | 0 <= b < 256

  /** The consecutive pieces of `size` elements that a loop over offsets produces; the last may be shorter. */
  function Slices<T>(s: seq<T>, size: nat): seq<seq<T>>
    requires size > 0
  {
    if s == [] then []
    else if |s| <= size then [s]
    else [s[..size]] + Slices(s[size..], size)
  }

  function Flatten<T>(parts: seq<seq<T>>): seq<T> {
    if parts == [] then [] else parts[0] + Flatten(parts[1..])
  }

  lemma FlattenFirst<T>(first: seq<T>, rest: seq<seq<T>>)
    ensures Flatten([first] + rest) == first + Flatten(rest)
  {
  }

  lemma {:induction false} FlattenSlices<T>(s: seq<T>, size: nat)
    requires size > 0
    ensures Flatten(Slices(s, size)) == s
  {
    if |s| > size {
      FlattenSlices(s[size..], size);
      assert Slices(s, size) == [s[..size]] + Slices(s[size..], size);
      hide Slices, Flatten;
      FlattenFirst(s[..size], Slices(s[size..], size));
      assert s == s[..size] + s[size..];
    } else if s != [] {
      assert Flatten([s]) == s + Flatten<T>([]);
    }
  }

  lemma Associates<T>(a: seq<T>, b: seq<T>, c: seq<T>)
    ensures a + (b + c) == (a + b) + c
  {
  }

  lemma {:induction false} FlattenAppend<T>(parts: seq<seq<T>>, more: seq<seq<T>>)
    ensures Flatten(parts + more) == Flatten(parts) + Flatten(more)
  {
    if parts == [] {
      assert parts + more == more;
    } else {
      FlattenAppend(parts[1..], more);
      assert parts + more == [parts[0]] + (parts[1..] + more);
      FlattenFirst(parts[0], parts[1..] + more);
      Associates(parts[0], Flatten(parts[1..]), Flatten(more));
      assert Flatten(parts) == parts[0] + Flatten(parts[1..]);
      hide Flatten;
    }
  }

  lemma {:induction false} FlattenLast<T>(parts: seq<seq<T>>, last: seq<T>)
    ensures Flatten(parts + [last]) == Flatten(parts) + last
  {
    FlattenAppend(parts, [last]);
    assert Flatten([last]) == last + Flatten<T>([]);
  }

  /** How many pieces there are, and that none is empty or too long. */
  lemma {:induction false} SlicesBounds<T>(s: seq<T>, size: nat, n: nat)
    requires size > 0
    ensures |Slices(s, size)| <= n <==> |s| <= n * size
    ensures forall k :: 0 <= k < |Slices(s, size)| ==> 0 < |Slices(s, size)[k]| <= size
    decreases |s|
  {
    if |s| > size {
      SlicesBounds(s[size..], size, if n == 0 then 0 else n - 1);
      if n > 0 {
        assert (n - 1) * size == n * size - size;
      } else {
        assert 0 * size == 0;
      }
    } else if n > 0 {
      assert n * size >= size by { assert (n - 1) * size >= 0; assert n * size == (n - 1) * size + size; }
    }
  }
}
