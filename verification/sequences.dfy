/** Order-preserving selection from a list: JavaScript's `filter` and
    `slice(0, n)`, and the subsequence relation they both stay within. */
module Sequences {

  /** `a` is obtained from `b` by deleting elements, order kept. */
  ghost predicate Subseq<T>(a: seq<T>, b: seq<T>)
    decreases |b|
  {
    if |a| == 0 then true
    else if |b| == 0 then false
    else (a[0] == b[0] && Subseq(a[1..], b[1..])) || Subseq(a, b[1..])
  }

  /** Every list is a subsequence of itself. */
  lemma {:induction false} SubseqRefl<T>(s: seq<T>)
    ensures Subseq(s, s)
  {
    if |s| > 0 {
      SubseqRefl(s[1..]);
    }
  }

  /** A subsequence holds only elements of the list it came from. */
  lemma {:induction false} SubseqMembers<T>(a: seq<T>, b: seq<T>)
    requires Subseq(a, b)
    ensures |a| <= |b|
    ensures forall x | x in a :: x in b
  {
    if |a| > 0 {
      if a[0] == b[0] && Subseq(a[1..], b[1..]) {
        SubseqMembers(a[1..], b[1..]);
        assert forall x | x in a :: x == a[0] || x in a[1..];
      } else {
        SubseqMembers(a, b[1..]);
      }
    }
  }

  /** A subsequence of a subsequence is a subsequence. */
  lemma {:induction false} SubseqTrans<T>(a: seq<T>, b: seq<T>, c: seq<T>)
    requires Subseq(a, b) && Subseq(b, c)
    ensures Subseq(a, c)
    decreases |c|
  {
    if |a| > 0 {
      if Subseq(b, c[1..]) {
        SubseqTrans(a, b, c[1..]);
      } else {
        assert b[0] == c[0] && Subseq(b[1..], c[1..]);
        if a[0] == b[0] && Subseq(a[1..], b[1..]) {
          SubseqTrans(a[1..], b[1..], c[1..]);
        } else {
          SubseqTrans(a, b[1..], c[1..]);
        }
      }
    }
  }

  /** The elements `keep` accepts, in their original order. */
  function Filter<T(!new)>(s: seq<T>, keep: T -> bool): (r: seq<T>)
    ensures Subseq(r, s)
    ensures forall x | x in r :: keep(x)
    ensures forall x | x in s && keep(x) :: x in r
    ensures forall x :: multiset(r)[x] == if keep(x) then multiset(s)[x] else 0
  {
    if |s| == 0 then []
    else
      var rest := Filter(s[1..], keep);
      assert s == [s[0]] + s[1..];
      assert forall x | x in s :: x == s[0] || x in s[1..];
      SubseqMembers(rest, s[1..]);
      if keep(s[0]) then [s[0]] + rest else rest
  }

  /** The pieces `pick` yields for each element, concatenated in order:
      JavaScript's `flatMap`, and a `filter` followed by a `map` when every
      piece has at most one element. */
  function Gather<T, U>(s: seq<T>, pick: T -> seq<U>): seq<U> {
    if |s| == 0 then [] else pick(s[0]) + Gather(s[1..], pick)
  }

  /** Gathering two lists one after the other gathers each in turn, and a
      single element contributes exactly its piece. */
  lemma {:induction false} GatherAppend<T, U>(a: seq<T>, b: seq<T>, pick: T -> seq<U>)
    ensures Gather(a + b, pick) == Gather(a, pick) + Gather(b, pick)
    ensures |a| == 1 ==> Gather(a, pick) == pick(a[0])
  {
    if |a| == 0 {
      assert a + b == b;
    } else {
      assert (a + b)[0] == a[0];
      assert (a + b)[1..] == a[1..] + b;
      GatherAppend(a[1..], b, pick);
    }
  }

  /** `slice(0, n)`: the first `n` elements, or all of them when fewer. */
  function Take<T>(s: seq<T>, n: nat): (r: seq<T>)
    ensures |r| == if n < |s| then n else |s|
    ensures Subseq(r, s)
    ensures forall i | 0 <= i < |r| :: r[i] == s[i]
  {
    if n < |s| then
      PrefixIsSubseq(s, n);
      s[..n]
    else
      SubseqRefl(s);
      s
  }

  /** A prefix is a subsequence. */
  lemma {:induction false} PrefixIsSubseq<T>(s: seq<T>, n: nat)
    requires n <= |s|
    ensures Subseq(s[..n], s)
  {
    if n > 0 {
      PrefixIsSubseq(s[1..], n - 1);
      assert s[..n][1..] == s[1..][..n - 1];
    }
  }
}
