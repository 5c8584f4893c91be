/** Fisher-Yates shuffling with the random draws passed in. A draw is a value
    `Math.random()` may return, a real in [0, 1); the draw for a range of k
    indices picks `floor(r * k)`. */
module Shuffle {
  import opened Collections

  /** A value `Math.random()` may return. */
  type Unit = r: real | 0.0 <= r < 1.0

  /** `Math.floor(Math.random() * k)`, also `getRandomInt(0, k)`. */
  function Draw(r: Unit, k: nat): (j: nat)
    requires k > 0
    ensures j < k
  {
    var x := r * k as real;
    assert k as real - x == (1.0 - r) * k as real;
    ProductPositive(1.0 - r, k as real);
    x.Floor
  }

  lemma ProductPositive(a: real, b: real)
    requires a > 0.0 && b > 0.0
    ensures a * b > 0.0
  {
  }

  /** Index picks for the rounds of a shuffle of |js| entries: the round
      with cur entries left uses pick |js| - cur, which must be below cur. */
  predicate FitsRounds(js: seq<nat>) {
    forall i :: 0 <= i < |js| ==> js[i] < |js| - i
  }

  /** The index each round of the loop draws: the round for entry i of `rs`
      has |rs| - i entries left to choose from. */
  function Picks(rs: seq<Unit>): (js: seq<nat>)
    ensures |js| == |rs|
    ensures FitsRounds(js)
  {
    seq(|rs|, i requires 0 <= i < |rs| => Draw(rs[i], |rs| - i))
  }

  /** Exchange the entries at `i` and `j` (the same position is allowed). */
  function Swap<T>(s: seq<T>, i: nat, j: nat): (r: seq<T>)
    requires i < |s| && j < |s|
    ensures |r| == |s|
  {
    s[i := s[j]][j := s[i]]
  }

  lemma SwapPermutes<T>(s: seq<T>, i: nat, j: nat)
    requires i < |s| && j < |s|
    ensures multiset(Swap(s, i, j)) == multiset(s)
  {
  }

  /** The remaining rounds of the shuffle loop while `cur` entries are still
      unshuffled: entry cur - 1 is exchanged with the pick for that round. */
  function ShuffleFrom<T>(s: seq<T>, js: seq<nat>, cur: nat): (r: seq<T>)
    requires cur <= |s| == |js| && FitsRounds(js)
    ensures |r| == |s|
    decreases cur
  {
    if cur == 0 then s
    else ShuffleFrom(Swap(s, cur - 1, js[|s| - cur]), js, cur - 1)
  }

  /** Every round only exchanges two entries, so the rounds rearrange `s`. */
  lemma {:induction false} ShuffleFromPermutes<T>(s: seq<T>, js: seq<nat>, cur: nat)
    requires cur <= |s| == |js| && FitsRounds(js)
    ensures multiset(ShuffleFrom(s, js, cur)) == multiset(s)
    decreases cur
  {
    if cur > 0 {
      SwapPermutes(s, cur - 1, js[|s| - cur]);
      ShuffleFromPermutes(Swap(s, cur - 1, js[|s| - cur]), js, cur - 1);
    }
  }

  /** `shuffle(array)` with one draw per entry. */
  function ShuffleSeq<T>(s: seq<T>, rs: seq<Unit>): seq<T>
    requires |rs| == |s|
  {
    ShuffleFrom(s, Picks(rs), |s|)
  }

  /** `shuffle`: the in-place Fisher-Yates loop on an array. It returns
      a rearrangement of its input, namely the one `ShuffleSeq` describes. */
  method Shuffle<T>(s: seq<T>, rs: seq<Unit>) returns (r: seq<T>)
    requires |rs| == |s|
    ensures multiset(r) == multiset(s)
    ensures r == ShuffleSeq(s, rs)
  {
    ghost var js := Picks(rs);
    var a := s;
    var cur: nat := |s|;
    while cur != 0
      invariant cur <= |a| == |s|
      invariant ShuffleFrom(a, js, cur) == ShuffleFrom(s, js, |s|)
    {
      a := ShuffleRound(a, rs, cur);
      cur := cur - 1;
    }
    r := a;
    ShuffleFromPermutes(s, js, |s|);
  }

  /** One pass of the loop body: draw an index at most cur - 1 and exchange
      that entry with entry cur - 1 through a temporary. */
  method ShuffleRound<T>(a: seq<T>, rs: seq<Unit>, cur: nat) returns (b: seq<T>)
    requires 0 < cur <= |a| == |rs|
    ensures |b| == |a|
    ensures ShuffleFrom(b, Picks(rs), cur - 1) == ShuffleFrom(a, Picks(rs), cur)
  {
    var j := Draw(rs[|a| - cur], cur);
    var i := cur - 1;
    var tmp := a[i];
    b := a[i := a[j]];
    b := b[j := tmp];
    ShuffleStep(a, Picks(rs), cur, b);
  }

  /** One round of the loop: swap position cur - 1 with that round's pick. */
  lemma ShuffleStep<T>(s: seq<T>, js: seq<nat>, cur: nat, next: seq<T>)
    requires 0 < cur <= |s| == |js| && FitsRounds(js)
    requires next == Swap(s, cur - 1, js[|s| - cur])
    ensures ShuffleFrom(next, js, cur - 1) == ShuffleFrom(s, js, cur)
  {
  }

  /** `generateAssignmentOrders(num)` as a value: a shuffled 0..num-1. */
  function AssignmentOrder(n: nat, rs: seq<Unit>): (p: seq<nat>)
    requires |rs| == n
    ensures IsPermutation(p, n)
  {
    ShuffleFromPermutes(Range(n), Picks(rs), n);
    ShuffleSeq(Range(n), rs)
  }

  /** `generateAssignmentOrders(num)`: fill 0..num-1, then shuffle it. */
  method GenerateAssignmentOrders(n: nat, rs: seq<Unit>) returns (p: seq<nat>)
    requires |rs| == n
    ensures |p| == n
    ensures forall i :: 0 <= i < n ==> p[i] < n
    ensures forall i, j :: 0 <= i < j < n ==> p[i] != p[j]
    ensures p == AssignmentOrder(n, rs)
  {
    var a := new nat[n];
    var i := 0;
    while i < n
      invariant 0 <= i <= n
      invariant forall k :: 0 <= k < i ==> a[k] == k
    {
      a[i] := i;
      i := i + 1;
    }
    assert a[..] == Range(n);
    p := Shuffle(a[..], rs);
    PermutationFacts(p, n);
  }
}
