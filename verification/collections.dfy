/** Sequence and multiset vocabulary shared by the rest of the model:
    an optional value (JavaScript's `undefined`/`false` results), index ranges,
    index selection and the positions of a value in a sequence. */
module Collections {

  datatype Option<+T> = None | Some(value: T)

  lemma ConcatAssoc<T>(a: seq<T>, b: seq<T>, c: seq<T>)
    ensures (a + b) + c == a + (b + c)
  {
  }

  lemma ConcatEmpty<T>(a: seq<T>)
    ensures a + [] == a
  {
  }

  lemma ConcatEmptyFront<T>(a: seq<T>)
    ensures [] + a == a
  {
  }

  /** Membership in a non-empty sequence, split at its last entry. */
  lemma InFront<T>(s: seq<T>, x: T)
    requires |s| > 0
    ensures x in s <==> x in s[..|s| - 1] || x == s[|s| - 1]
  {
    assert s == s[..|s| - 1] + [s[|s| - 1]];
  }

  /** The array 0, 1, ..., n-1. */
  function Range(n: nat): (r: seq<nat>)
    ensures |r| == n
    ensures forall i :: 0 <= i < n ==> r[i] == i
  {
    seq(n, i requires 0 <= i => i as nat)
  }

  /** `p` is a rearrangement of 0, 1, ..., n-1. */
  predicate IsPermutation(p: seq<nat>, n: nat) {
    multiset(p) == multiset(Range(n))
  }

  predicate InBounds(idx: seq<nat>, n: nat) {
    forall i :: 0 <= i < |idx| ==> idx[i] < n
  }

  predicate Distinct<T(==)>(s: seq<T>) {
    forall i, j :: 0 <= i < j < |s| ==> s[i] != s[j]
  }

  /** The entries of `t` at the indices `idx`, in the order of `idx`. */
  function Select<T>(t: seq<T>, idx: seq<nat>): (r: seq<T>)
    requires InBounds(idx, |t|)
    ensures |r| == |idx|
    ensures forall i :: 0 <= i < |idx| ==> r[i] == t[idx[i]]
  {
    seq(|idx|, i requires 0 <= i < |idx| => t[idx[i]])
  }

  lemma {:induction false} RangeMultiplicity(n: nat, x: nat)
    ensures multiset(Range(n))[x] == if x < n then 1 else 0
  {
    if n > 0 {
      assert Range(n) == Range(n - 1) + [n - 1];
      RangeMultiplicity(n - 1, x);
    }
  }

  lemma PermutationLength(p: seq<nat>, n: nat)
    requires IsPermutation(p, n)
    ensures |p| == n
  {
    calc {
      |p|;
      |multiset(p)|;
      |multiset(Range(n))|;
      n;
    }
  }

  /** A permutation of 0..n-1 has length n, stays below n and repeats nothing. */
  lemma PermutationFacts(p: seq<nat>, n: nat)
    requires IsPermutation(p, n)
    ensures |p| == n
    ensures InBounds(p, n)
    ensures Distinct(p)
  {
    calc {
      |p|;
      |multiset(p)|;
      |multiset(Range(n))|;
      n;
    }
    forall i | 0 <= i < |p|
      ensures p[i] < n
    {
      assert p[i] in multiset(p);
      RangeMultiplicity(n, p[i]);
    }
    forall i, j | 0 <= i < j < |p|
      ensures p[i] != p[j]
    {
      if p[i] == p[j] {
        var x := p[i];
        assert p == p[..j] + [x] + p[j + 1..];
        assert x in multiset(p[..j]);
        assert multiset(p)[x] == multiset(p[..j])[x] + 1 + multiset(p[j + 1..])[x];
        RangeMultiplicity(n, x);
        assert false;
      }
    }
  }

  lemma SelectConcat<T>(t: seq<T>, a: seq<nat>, b: seq<nat>)
    requires InBounds(a, |t|) && InBounds(b, |t|)
    ensures InBounds(a + b, |t|)
    ensures Select(t, a + b) == Select(t, a) + Select(t, b)
  {
  }

  lemma MultisetCancel<T>(m1: multiset<T>, m2: multiset<T>, x: T)
    requires multiset{x} + m1 == multiset{x} + m2
    ensures m1 == m2
  {
    forall y
      ensures m1[y] == m2[y]
    {
      assert (multiset{x} + m1)[y] == (multiset{x} + m2)[y];
    }
  }

  /** Removing one index from the selection removes one entry from its multiset. */
  lemma SelectRemove<T>(t: seq<T>, b: seq<nat>, k: nat)
    requires InBounds(b, |t|) && k < |b|
    ensures InBounds(b[..k] + b[k + 1..], |t|)
    ensures multiset(Select(t, b)) == multiset{t[b[k]]} + multiset(Select(t, b[..k] + b[k + 1..]))
  {
    var pre, post := b[..k], b[k + 1..];
    assert b == pre + [b[k]] + post;
    SelectConcat(t, pre, [b[k]]);
    SelectConcat(t, pre + [b[k]], post);
    SelectConcat(t, pre, post);
    assert Select(t, [b[k]]) == [t[b[k]]];
  }

  /** Selecting through two index sequences that are rearrangements of each
      other yields rearrangements of each other. */
  lemma {:induction false} SelectRespectsMultiset<T>(t: seq<T>, a: seq<nat>, b: seq<nat>)
    requires InBounds(a, |t|) && InBounds(b, |t|)
    requires multiset(a) == multiset(b)
    ensures multiset(Select(t, a)) == multiset(Select(t, b))
  {
    if |a| == 0 {
      assert |b| == |multiset(b)| == |multiset(a)| == 0;
      assert Select(t, a) == [] == Select(t, b);
    } else {
      assert a[0] in multiset(b);
      var k :| 0 <= k < |b| && b[k] == a[0];
      RemoveMatching(a, b, k);
      SelectRespectsMultiset(t, a[1..], b[..k] + b[k + 1..]);
      SelectRespectsStep(t, a, b, k);
    }
  }

  /** The inductive step: the selections agree once the first index of `a`
      and a matching index of `b` are taken out. */
  lemma SelectRespectsStep<T>(t: seq<T>, a: seq<nat>, b: seq<nat>, k: nat)
    requires InBounds(a, |t|) && InBounds(b, |t|)
    requires 0 < |a| && k < |b| && b[k] == a[0]
    requires InBounds(b[..k] + b[k + 1..], |t|)
    requires multiset(Select(t, a[1..])) == multiset(Select(t, b[..k] + b[k + 1..]))
    ensures multiset(Select(t, a)) == multiset(Select(t, b))
  {
    SelectRemove(t, a, 0);
    SelectRemove(t, b, k);
    assert a[..0] + a[1..] == a[1..];
  }

  /** Taking the first entry of `a` and an equal entry of `b` out of two
      rearrangements of each other leaves rearrangements of each other. */
  lemma RemoveMatching<T>(a: seq<T>, b: seq<T>, k: nat)
    requires 0 < |a| && k < |b| && b[k] == a[0] && multiset(a) == multiset(b)
    ensures multiset(a[1..]) == multiset(b[..k] + b[k + 1..])
  {
    var x, rest := a[0], b[..k] + b[k + 1..];
    assert a == [x] + a[1..];
    assert b == b[..k] + [x] + b[k + 1..];
    assert multiset(a) == multiset{x} + multiset(a[1..]);
    assert multiset(b) == multiset{x} + multiset(rest);
    MultisetCancel(multiset(a[1..]), multiset(rest), x);
  }

  /** Selecting a whole permutation of 0..n-1 from `t` rearranges `t[..n]`. */
  lemma SelectPermutation<T>(t: seq<T>, p: seq<nat>, n: nat)
    requires n <= |t|
    requires IsPermutation(p, n)
    ensures InBounds(p, |t|)
    ensures multiset(Select(t, p)) == multiset(t[..n])
  {
    PermutationFacts(p, n);
    SelectRespectsMultiset(t, p, Range(n));
    assert Select(t, Range(n)) == t[..n];
  }

  /** The indices at which `x` occurs in `s`, in increasing order. */
  function Positions<T(==)>(s: seq<T>, x: T): (r: seq<nat>)
    ensures InBounds(r, |s|)
    ensures forall i :: 0 <= i < |r| ==> s[r[i]] == x
    ensures forall i, j :: 0 <= i < j < |r| ==> r[i] < r[j]
    ensures |r| == multiset(s)[x]
  {
    if s == [] then []
    else
      var p := s[..|s| - 1];
      var r := Positions(p, x);
      assert s == p + [s[|s| - 1]];
      assert multiset(s) == multiset(p) + multiset{s[|s| - 1]};
      assert forall i :: 0 <= i < |p| ==> s[i] == p[i];
      if s[|s| - 1] == x then r + [|s| - 1] else r
  }

  /** Every occurrence of `x` is listed: index j sits at some rank k. */
  lemma {:induction false} PositionsComplete<T>(s: seq<T>, x: T, j: nat) returns (k: nat)
    requires j < |s| && s[j] == x
    ensures k < |Positions(s, x)| && Positions(s, x)[k] == j
  {
    var p := s[..|s| - 1];
    if j == |s| - 1 {
      k := |Positions(p, x)|;
    } else {
      k := PositionsComplete(p, x, j);
    }
  }

  lemma IncreasingIsDistinct(r: seq<nat>)
    requires forall i, j :: 0 <= i < j < |r| ==> r[i] < r[j]
    ensures Distinct(r)
  {
  }
}
