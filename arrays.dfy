/** The array built-ins the account store relies on: `findIndex` (and
    `find`, which returns the element at that index or `undefined`) and
    `splice(start, 1)`. */
module ArrayOps {

  /** `findIndex(x => x === key)`: the first position holding `key`, or -1. */
  function FindIndex<T(==)>(s: seq<T>, key: T): (r: int)
    ensures -1 <= r < |s|
    ensures r == -1 <==> key !in s
    ensures r >= 0 ==> s[r] == key && forall j :: 0 <= j < r ==> s[j] != key
  {
    if s == [] then -1
    else if s[0] == key then 0
    else
      var r := FindIndex(s[1..], key);
      if r == -1 then -1 else r + 1
  }

  /** Where `splice(start, ...)` starts: a negative start counts back from
      the end (and stops at 0), a start past the end is clamped to the end. */
  function SpliceStart(len: nat, start: int): (k: nat)
    ensures k <= len
    ensures 0 <= start <= len ==> k == start
    ensures 0 - len <= start < 0 ==> k == len + start
    ensures start < 0 - len ==> k == 0
    ensures start > len ==> k == len
  {
    if start < 0 then (if len + start < 0 then 0 else len + start)
    else if start > len then len
    else start
  }

  /** `s.splice(start, 1)`: removes the element at the start position, if
      there is one, and keeps the others in order. */
  function SpliceOne<T>(s: seq<T>, start: int): (r: seq<T>)
    ensures var k := SpliceStart(|s|, start);
      if k < |s| then |r| == |s| - 1 && multiset(r) + multiset{s[k]} == multiset(s)
      else r == s
  {
    var k := SpliceStart(|s|, start);
    if k < |s| then
      assert s == s[..k] + [s[k]] + s[k + 1..];
      s[..k] + s[k + 1..]
    else s
  }

  /** With the position of an element, `splice(i, 1)` removes exactly it. */
  lemma SpliceOneAt<T>(s: seq<T>, i: nat)
    requires i < |s|
    ensures SpliceOne(s, i) == s[..i] + s[i + 1..]
  {
  }

  /** `splice(-1, 1)` — what `findIndex` returning -1 leads to — removes
      the last element, and does nothing to an empty array. */
  lemma SpliceOneMinusOne<T>(s: seq<T>)
    ensures s != [] ==> SpliceOne(s, -1) == s[..|s| - 1]
    ensures s == [] ==> SpliceOne(s, -1) == []
  {
  }

  /** The array without its last element; an empty array stays empty. */
  function DropLast<T>(s: seq<T>): (r: seq<T>)
    ensures s != [] ==> |r| == |s| - 1 && forall i :: 0 <= i < |r| ==> r[i] == s[i]
    ensures s == [] ==> r == []
  {
    if s == [] then [] else s[..|s| - 1]
  }

  predicate Distinct<T(==)>(s: seq<T>)
  {
    forall i, j :: 0 <= i < j < |s| ==> s[i] != s[j]
  }

  /** Removing an element keeps the rest pairwise distinct and removes
      nothing else. */
  lemma SpliceOneDistinct<T>(s: seq<T>, start: int)
    requires Distinct(s)
    ensures Distinct(SpliceOne(s, start))
    ensures forall x :: x in SpliceOne(s, start) ==> x in s
  {
    var k := SpliceStart(|s|, start);
    var r := SpliceOne(s, start);
    if k < |s| {
      assert forall i :: 0 <= i < |r| ==> r[i] == if i < k then s[i] else s[i + 1];
    }
  }

  /** When the elements are distinct, the removed one is gone. */
  lemma SpliceOneRemoves<T>(s: seq<T>, i: nat)
    requires Distinct(s) && i < |s|
    ensures s[i] !in SpliceOne(s, i)
  {
    var r := SpliceOne(s, i);
    SpliceOneAt(s, i);
    forall j | 0 <= j < |r|
      ensures r[j] != s[i]
    {
      if j < i {
        assert r[j] == s[j];
      } else {
        assert r[j] == s[j + 1];
      }
    }
  }

  /** `splice(index, 1)` with `index` the position of `x` when `x` is in
      the (distinct) array, or -1: `x` is not left in the result. */
  lemma SpliceOneFound<T>(s: seq<T>, index: int, x: T)
    requires Distinct(s) && -1 <= index < |s|
    requires x in s ==> 0 <= index && s[index] == x
    ensures x !in SpliceOne(s, index)
    ensures 0 <= index ==> SpliceOne(s, index) == s[..index] + s[index + 1..]
    ensures index < 0 ==> SpliceOne(s, index) == DropLast(s)
  {
    if index >= 0 {
      SpliceOneAt(s, index);
      if s[index] == x {
        SpliceOneRemoves(s, index);
      } else {
        SpliceOneDistinct(s, index);
      }
    } else {
      SpliceOneMinusOne(s);
      SpliceOneDistinct(s, index);
    }
  }
}
