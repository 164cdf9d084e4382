// Moving a stretch of an array by one place, as memmove does.
module Shifting {

  // The elements after `from`, up to `last`, move towards the front.
  method ShiftDown<T>(a: array<T>, from: nat, last: nat)
    requires from <= last < a.Length
    modifies a
    ensures forall j :: 0 <= j < a.Length ==> a[j] == old(a[..])[if from <= j < last then j + 1 else j]
  {
    ghost var s := a[..];
    var k := from;
    while k < last
      invariant from <= k <= last
      invariant forall j :: 0 <= j < a.Length ==> a[j] == s[if from <= j < k then j + 1 else j]
    {
      a[k] := a[k + 1];
      k := k + 1;
    }
  }

  // The elements before `from`, down to `first`, move towards the end.
  method ShiftUp<T>(a: array<T>, from: nat, first: nat)
    requires first <= from < a.Length
    modifies a
    ensures forall j :: 0 <= j < a.Length ==> a[j] == old(a[..])[if first < j <= from then j - 1 else j]
  {
    ghost var s := a[..];
    var k := from;
    while k > first
      invariant first <= k <= from
      invariant forall j :: 0 <= j < a.Length ==> a[j] == s[if k < j <= from then j - 1 else j]
    {
      a[k] := a[k - 1];
      k := k - 1;
    }
  }
}
