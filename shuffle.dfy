/** shuffle: a Fisher-Yates shuffle of a copy of an array. The random source is a
    stream `rand`; the draw for position i (taken from the top down) is `rand(k) % (i + 1)`,
    where k counts the draws made so far. */
module Shuffle {

  function Swap<T>(s: seq<T>, i: nat, j: nat): (r: seq<T>)
    requires i < |s| && j < |s|
    ensures |r| == |s|
  {
    s[i := s[j]][j := s[i]]
  }

  lemma SwapPermutes<T>(s: seq<T>, i: nat, j: nat)
    requires i < |s| && j < |s|
    ensures multiset(Swap(s, i, j)) == multiset(s)
  {
  }

  /** `Math.floor(Math.random() * n)`: a random natural reduced to an index below `n`. */
  function Pick(r: nat, n: nat): (j: nat)
    requires n > 0
    ensures j < n
  {
    r % n
  }

  /** The remaining passes of the loop, from position `i` down to 1. */
  function ShuffleDown<T>(s: seq<T>, i: nat, rand: nat -> nat): seq<T>
    requires i < |s|
    decreases i
  {
    if i == 0 then s
    else ShuffleDown(Swap(s, i, Pick(rand(|s| - 1 - i), i + 1)), i - 1, rand)
  }

  /** What shuffle returns for the input `s` and the random stream `rand`. */
  function Shuffled<T>(s: seq<T>, rand: nat -> nat): seq<T> {
    if |s| == 0 then s else ShuffleDown(s, |s| - 1, rand)
  }

  lemma {:induction false} ShuffleDownPermutes<T>(s: seq<T>, i: nat, rand: nat -> nat)
    requires i < |s|
    ensures |ShuffleDown(s, i, rand)| == |s|
    ensures multiset(ShuffleDown(s, i, rand)) == multiset(s)
    decreases i
  {
    if i > 0 {
      var t := Swap(s, i, Pick(rand(|s| - 1 - i), i + 1));
      SwapPermutes(s, i, Pick(rand(|s| - 1 - i), i + 1));
      ShuffleDownPermutes(t, i - 1, rand);
    }
  }

  /** Whatever the random stream, the result is a permutation of the input. */
  lemma ShuffledIsPermutation<T>(s: seq<T>, rand: nat -> nat)
    ensures |Shuffled(s, rand)| == |s|
    ensures multiset(Shuffled(s, rand)) == multiset(s)
  {
    if |s| > 0 {
      ShuffleDownPermutes(s, |s| - 1, rand);
    }
  }

  /** `arr.slice()` followed by the descending swap loop. `arr` itself is not modified. */
  method ShuffleCopy<T(0)>(arr: array<T>, rand: nat -> nat) returns (a: array<T>)
    ensures fresh(a)
    ensures a[..] == Shuffled(arr[..], rand)
    ensures a.Length == arr.Length && multiset(a[..]) == multiset(arr[..])
  {
    var copy := arr[..];
    a := new T[|copy|](k requires 0 <= k < |copy| => copy[k]);
    assert a[..] == copy;
    ShuffleInPlace(a, rand);
    ShuffledIsPermutation(copy, rand);
  }

  /** The loop of shuffle: for i from the last index down to 1, swap a[i] with a[j], j <= i. */
  method ShuffleInPlace<T>(a: array<T>, rand: nat -> nat)
    modifies a
    ensures a[..] == Shuffled(old(a[..]), rand)
  {
    ghost var target := Shuffled(a[..], rand);
    if a.Length > 0 {
      var i: nat := a.Length - 1;
      while i > 0
        invariant i < a.Length
        invariant ShuffleDown(a[..], i, rand) == target
        decreases i
      {
        var j := Pick(rand(a.Length - 1 - i), i + 1);
        SwapAt(a, i, j);
        i := i - 1;
      }
    }
  }

  /** `[a[i], a[j]] = [a[j], a[i]]`. */
  method SwapAt<T>(a: array<T>, i: nat, j: nat)
    requires i < a.Length && j < a.Length
    modifies a
    ensures a[..] == Swap(old(a[..]), i, j)
  {
    a[i], a[j] := a[j], a[i];
  }
}
