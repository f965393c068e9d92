/** Order-preserving selection over sequences: pandas boolean masks,
    `df[mask]` and list comprehensions with an `if`. */
module Seqs {

  /** The elements of `s` that satisfy `p`, in their original order. */
  function Filter<T>(s: seq<T>, p: T -> bool): (r: seq<T>)
    ensures |r| <= |s|
    decreases |s|
  {
    if s == [] then []
    else Filter(s[..|s| - 1], p) + (if p(s[|s| - 1]) then [s[|s| - 1]] else [])
  }

  /** A selection holds only elements of the input that satisfy `p`, and
      every element of the input that satisfies it. */
  lemma {:induction false} FilterMembers<T>(s: seq<T>, p: T -> bool)
    ensures forall x :: x in Filter(s, p) ==> x in s && p(x)
    ensures forall x :: x in s && p(x) ==> x in Filter(s, p)
    decreases |s|
  {
    if s != [] {
      var s' := s[..|s| - 1];
      FilterMembers(s', p);
      assert s == s' + [s[|s| - 1]];
    }
  }

  /** Selection distributes over concatenation: the order of the input is kept. */
  lemma {:induction false} FilterConcat<T>(a: seq<T>, b: seq<T>, p: T -> bool)
    ensures Filter(a + b, p) == Filter(a, p) + Filter(b, p)
    decreases |b|
  {
    if b == [] {
      assert a + b == a;
    } else {
      var b' := b[..|b| - 1];
      assert (a + b)[..|a + b| - 1] == a + b';
      FilterConcat(a, b', p);
    }
  }

  /** Selecting with `p` and with its negation splits the input: together
      the two selections hold every element exactly as often as the input. */
  lemma {:induction false} FilterSplit<T>(s: seq<T>, p: T -> bool, q: T -> bool)
    requires forall x :: q(x) == !p(x)
    ensures multiset(Filter(s, p)) + multiset(Filter(s, q)) == multiset(s)
    decreases |s|
  {
    if s != [] {
      var s' := s[..|s| - 1];
      FilterSplit(s', p, q);
      assert s == s' + [s[|s| - 1]];
    }
  }

  /** Selection keeps everything exactly when every element qualifies. */
  lemma {:induction false} FilterAll<T>(s: seq<T>, p: T -> bool)
    requires forall k :: 0 <= k < |s| ==> p(s[k])
    ensures Filter(s, p) == s
    decreases |s|
  {
    if s != [] {
      FilterAll(s[..|s| - 1], p);
      assert s[..|s| - 1] + [s[|s| - 1]] == s;
    }
  }

  /** Selection is empty exactly when no element qualifies. */
  lemma {:induction false} FilterNone<T>(s: seq<T>, p: T -> bool)
    requires forall k :: 0 <= k < |s| ==> !p(s[k])
    ensures Filter(s, p) == []
    decreases |s|
  {
    if s != [] {
      FilterNone(s[..|s| - 1], p);
    }
  }

  /** An element occurs in a selection as often as in the input when it
      qualifies, and not at all otherwise. */
  lemma {:induction false} FilterCount<T>(s: seq<T>, p: T -> bool, x: T)
    ensures multiset(Filter(s, p))[x] == if p(x) then multiset(s)[x] else 0
    decreases |s|
  {
    if s != [] {
      var s' := s[..|s| - 1];
      FilterCount(s', p, x);
      assert s == s' + [s[|s| - 1]];
    }
  }

  /** Selecting with either of two exclusive conditions selects, up to
      order, what the two selections hold together. */
  lemma {:induction false} FilterDisjointUnion<T>(s: seq<T>, p: T -> bool, q: T -> bool, r: T -> bool)
    requires forall x :: r(x) == (p(x) || q(x))
    requires forall x :: !(p(x) && q(x))
    ensures multiset(Filter(s, r)) == multiset(Filter(s, p)) + multiset(Filter(s, q))
    decreases |s|
  {
    if s != [] {
      var s' := s[..|s| - 1];
      FilterDisjointUnion(s', p, q, r);
    }
  }

  /** `next((i for i, x in enumerate(s) if p(x)), -1)`: the first position
      whose element satisfies `p`, or -1 when none does. */
  function FirstIndex<T>(s: seq<T>, p: T -> bool): (k: int)
    ensures -1 <= k < |s|
    ensures 0 <= k ==> p(s[k])
    ensures forall j :: 0 <= j < |s| && (k == -1 || j < k) ==> !p(s[j])
    decreases |s|
  {
    if s == [] then -1
    else if p(s[0]) then 0
    else
      var k := FirstIndex(s[1..], p);
      if k == -1 then -1 else k + 1
  }
}
