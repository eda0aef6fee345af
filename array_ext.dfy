/**
 * The `Array.prototype` polyfills of extension/array.js: `indexOf` (a counter
 * loop over the array comparing with the language's equality) and
 * `remove` (an in-place `splice` of the first equal element). The equality
 * is a parameter: the polyfill compares with `==`, and the host's own
 * `indexOf`, which takes precedence when present, with `===`.
 */
module ArrayExt {

  /** First position in `s` at which `eq(s[i], val)` holds, or -1. */
  function FirstIndex<T>(s: seq<T>, val: T, eq: (T, T) -> bool): (r: int)
    ensures -1 <= r < |s|
    ensures r >= 0 ==> eq(s[r], val) && forall j :: 0 <= j < r ==> !eq(s[j], val)
    ensures r == -1 <==> forall j :: 0 <= j < |s| ==> !eq(s[j], val)
  {
    if s == [] then -1
    else if eq(s[0], val) then 0
    else
      var k := FirstIndex(s[1..], val, eq);
      assert forall j :: 0 < j < |s| ==> s[j] == s[1..][j - 1];
      if k == -1 then -1 else k + 1
  }

  /** The array after `remove(val)`. */
  function Removed<T>(s: seq<T>, val: T, eq: (T, T) -> bool): (r: seq<T>)
  {
    var i := FirstIndex(s, val, eq);
    if i > -1 then s[..i] + s[i + 1..] else s
  }

  /** A JavaScript array, grown and shrunk in place. */
  class JsArray<T> {
    var elems: seq<T>

    constructor (init: seq<T>)
      ensures elems == init
    {
      elems := init;
    }

    /** `indexOf(val)`: the loop from 0 upwards, returning at the first equal element. */
    method IndexOf(val: T, eq: (T, T) -> bool) returns (r: int)
      ensures -1 <= r < |elems|
      ensures r >= 0 ==> eq(elems[r], val) && forall j :: 0 <= j < r ==> !eq(elems[j], val)
      ensures r == -1 <==> forall j :: 0 <= j < |elems| ==> !eq(elems[j], val)
      ensures r == FirstIndex(elems, val, eq)
    {
      var i := 0;
      while i < |elems|
        invariant 0 <= i <= |elems|
        invariant forall j :: 0 <= j < i ==> !eq(elems[j], val)
      {
        if eq(elems[i], val) {
          return i;
        }
        i := i + 1;
      }
      return -1;
    }

    /** `remove(val)`: `splice(indexOf(val), 1)` when the value is present. */
    method Remove(val: T, eq: (T, T) -> bool)
      modifies this
      ensures elems == Removed(old(elems), val, eq)
    {
      var index := IndexOf(val, eq);
      if index > -1 {
        elems := elems[..index] + elems[index + 1..];
      }
    }
  }

  /** Removing a present value deletes exactly the first equal element: one fewer element. */
  lemma RemovePresent<T>(s: seq<T>, val: T, eq: (T, T) -> bool, i: nat)
    requires i < |s| && eq(s[i], val)
    ensures FirstIndex(s, val, eq) <= i
    ensures |Removed(s, val, eq)| == |s| - 1
    ensures Removed(s, val, eq) == s[..FirstIndex(s, val, eq)] + s[FirstIndex(s, val, eq) + 1..]
  {
  }

  /** Removing an absent value leaves the array as it was. */
  lemma RemoveAbsent<T>(s: seq<T>, val: T, eq: (T, T) -> bool)
    requires forall j :: 0 <= j < |s| ==> !eq(s[j], val)
    ensures Removed(s, val, eq) == s
  {
  }

  /**
   * The other elements keep their relative order: everything before the
   * removed position stays where it was, everything after moves down by one.
   */
  lemma RemoveKeepsOrder<T>(s: seq<T>, val: T, eq: (T, T) -> bool)
    requires FirstIndex(s, val, eq) >= 0
    ensures forall j :: 0 <= j < FirstIndex(s, val, eq) ==> Removed(s, val, eq)[j] == s[j]
    ensures forall j :: FirstIndex(s, val, eq) <= j < |s| - 1 ==> Removed(s, val, eq)[j] == s[j + 1]
  {
    var i := FirstIndex(s, val, eq);
    assert Removed(s, val, eq) == s[..i] + s[i + 1..];
    SpliceOrder(s, i);
  }

  /** Cutting out position `i` keeps the elements before it and moves the ones after it down by one. */
  lemma SpliceOrder<T>(s: seq<T>, i: nat)
    requires i < |s|
    ensures forall j :: 0 <= j < i ==> (s[..i] + s[i + 1..])[j] == s[j]
    ensures forall j :: i < j < |s| ==> (s[..i] + s[i + 1..])[j - 1] == s[j]
  {
  }

  /** What is removed is the only change to the multiset of elements. */
  lemma RemoveMultiset<T>(s: seq<T>, val: T, eq: (T, T) -> bool)
    requires FirstIndex(s, val, eq) >= 0
    ensures multiset(Removed(s, val, eq)) + multiset{s[FirstIndex(s, val, eq)]} == multiset(s)
  {
    var i := FirstIndex(s, val, eq);
    assert Removed(s, val, eq) == s[..i] + s[i + 1..];
    SpliceMultiset(s, i);
  }

  lemma SpliceMultiset<T>(s: seq<T>, i: nat)
    requires i < |s|
    ensures multiset(s[..i] + s[i + 1..]) + multiset{s[i]} == multiset(s)
  {
    var a, b := s[..i], s[i + 1..];
    assert s == a + [s[i]] + b;
    calc {
      multiset(s);
      multiset(a + [s[i]] + b);
      multiset(a) + multiset{s[i]} + multiset(b);
      multiset(a + b) + multiset{s[i]};
    }
  }
}
