/** Concatenating a sequence of parts, and finding each part again in the whole. */
module Flatten {

  /** Where part `i` begins. */
  function Offset<T>(parts: seq<seq<T>>, i: nat): nat
    requires i <= |parts|
  {
    if i == 0 then 0 else Offset(parts, i - 1) + |parts[i - 1]|
  }

  function UpTo<T>(parts: seq<seq<T>>, n: nat): (whole: seq<T>)
    requires n <= |parts|
    ensures |whole| == Offset(parts, n)
  {
    if n == 0 then [] else UpTo(parts, n - 1) + parts[n - 1]
  }

  function Concat<T>(parts: seq<seq<T>>): seq<T> {
    UpTo(parts, |parts|)
  }

  lemma {:induction false} PartOf<T>(parts: seq<seq<T>>, i: nat, n: nat)
    requires i < n <= |parts|
    ensures Offset(parts, i) + |parts[i]| == Offset(parts, i + 1) <= |UpTo(parts, n)|
    ensures UpTo(parts, n)[Offset(parts, i)..Offset(parts, i + 1)] == parts[i]
  {
    if i < n - 1 {
      PartOf(parts, i, n - 1);
    }
  }

  /** The stretch of a parallel sequence that belongs to part `i`. */
  function Stretch<T, U>(parts: seq<seq<T>>, i: nat, xs: seq<U>): (r: seq<U>)
    requires i < |parts| && |xs| == |Concat(parts)|
    ensures |r| == |parts[i]|
  {
    PartOf(parts, i, |parts|);
    xs[Offset(parts, i)..Offset(parts, i + 1)]
  }

  lemma StretchStep<T, U>(parts: seq<seq<T>>, i: nat, xs: seq<U>)
    requires i < |parts| && |xs| == |Concat(parts)|
    ensures Offset(parts, i) <= Offset(parts, i + 1) <= |xs|
    ensures xs[..Offset(parts, i + 1)] == xs[..Offset(parts, i)] + Stretch(parts, i, xs)
    ensures Stretch(parts, i, xs) == xs[Offset(parts, i)..Offset(parts, i + 1)]
  {
    PartOf(parts, i, |parts|);
  }
}
