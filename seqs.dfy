/** `Array.prototype.filter` and the order-preserving subsequence relation it produces. */
module Seqs {
  import opened Wrappers


  /** `s.filter(keep)`: the elements of `s` that `keep` accepts, in their original order. */
  function Filter<T>(s: seq<T>, keep: T -> bool): (r: seq<T>)
    ensures |r| <= |s|
  {
    if s == [] then []
    else (if keep(s[0]) then [s[0]] else []) + Filter(s[1..], keep)
  }

  /** `a` is obtained from `b` by deleting elements, keeping the order of the rest. */
  predicate IsSubsequence<T(==)>(a: seq<T>, b: seq<T>) {
    if a == [] then true
    else if b == [] then false
    else if a[0] == b[0] then IsSubsequence(a[1..], b[1..])
    else IsSubsequence(a, b[1..])
  }

  /** Deleting the first element of the longer list keeps a subsequence a subsequence. */
  lemma {:induction false} SubsequenceOfTail<T>(a: seq<T>, b: seq<T>)
    requires b != [] && IsSubsequence(a, b[1..])
    ensures IsSubsequence(a, b)
    decreases |b|, 0
  {
    if a != [] && a[0] == b[0] {
      SubsequenceDropHead(a, b[1..]);
    }
  }

  /** Deleting the first element of a subsequence keeps it a subsequence. */
  lemma {:induction false} SubsequenceDropHead<T>(a: seq<T>, c: seq<T>)
    requires a != [] && IsSubsequence(a, c)
    ensures IsSubsequence(a[1..], c)
    decreases |c|, 1
  {
    if a[0] == c[0] {
      SubsequenceOfTail(a[1..], c);
    } else {
      SubsequenceDropHead(a, c[1..]);
      SubsequenceOfTail(a[1..], c);
    }
  }

  /** A filtered list is an order-preserving subsequence of the original. */
  lemma {:induction false} FilterIsSubsequence<T>(s: seq<T>, keep: T -> bool)
    ensures IsSubsequence(Filter(s, keep), s)
  {
    if s != [] {
      FilterIsSubsequence(s[1..], keep);
      if keep(s[0]) {
        assert Filter(s, keep)[1..] == Filter(s[1..], keep);
      } else {
        assert Filter(s, keep) == Filter(s[1..], keep);
        SubsequenceOfTail(Filter(s, keep), s);
      }
    }
  }

  /** An element is in the filtered list exactly when it is in the original and `keep` accepts it. */
  lemma {:induction false} FilterMembership<T>(s: seq<T>, keep: T -> bool, x: T)
    ensures x in Filter(s, keep) <==> x in s && keep(x)
  {
    if s != [] {
      FilterMembership(s[1..], keep, x);
      assert s == [s[0]] + s[1..];
    }
  }

  /** The filtered list holds every copy of each accepted element and no copy of the others. */
  lemma {:induction false} FilterCount<T>(s: seq<T>, keep: T -> bool, x: T)
    ensures multiset(Filter(s, keep))[x] == if keep(x) then multiset(s)[x] else 0
  {
    if s != [] {
      FilterCount(s[1..], keep, x);
      var head := if keep(s[0]) then [s[0]] else [];
      assert Filter(s, keep) == head + Filter(s[1..], keep);
      assert s == [s[0]] + s[1..];
      assert multiset(s) == multiset([s[0]]) + multiset(s[1..]);
      assert multiset(Filter(s, keep)) == multiset(head) + multiset(Filter(s[1..], keep));
    }
  }

  /**
   * What `Filter` computes, in one place: an order-preserving subsequence
   * holding every copy of each accepted element and nothing else.
   */
  lemma FilterFacts<T>(s: seq<T>, keep: T -> bool)
    ensures IsSubsequence(Filter(s, keep), s)
    ensures forall x :: x in Filter(s, keep) <==> x in s && keep(x)
    ensures forall x :: multiset(Filter(s, keep))[x] == if keep(x) then multiset(s)[x] else 0
  {
    FilterIsSubsequence(s, keep);
    forall x
      ensures x in Filter(s, keep) <==> x in s && keep(x)
      ensures multiset(Filter(s, keep))[x] == if keep(x) then multiset(s)[x] else 0
    {
      FilterMembership(s, keep, x);
      FilterCount(s, keep, x);
    }
  }

  /** When `keep` accepts every element, filtering changes nothing. */
  lemma {:induction false} FilterKeepsAll<T>(s: seq<T>, keep: T -> bool)
    requires forall i :: 0 <= i < |s| ==> keep(s[i])
    ensures Filter(s, keep) == s
  {
    if s != [] {
      FilterKeepsAll(s[1..], keep);
      assert s == [s[0]] + s[1..];
    }
  }

  /** When `keep` rejects every element, the filtered list is empty. */
  lemma {:induction false} FilterKeepsNone<T>(s: seq<T>, keep: T -> bool)
    requires forall i :: 0 <= i < |s| ==> !keep(s[i])
    ensures Filter(s, keep) == []
  {
    if s != [] {
      FilterKeepsNone(s[1..], keep);
    }
  }

  /** Two filters in a row are one filter by the conjunction of their tests. */
  lemma {:induction false} FilterFilter<T>(s: seq<T>, first: T -> bool, second: T -> bool, both: T -> bool)
    requires forall x :: both(x) == (first(x) && second(x))
    ensures Filter(Filter(s, first), second) == Filter(s, both)
  {
    if s != [] {
      FilterFilter(s[1..], first, second, both);
      var head := if first(s[0]) then [s[0]] else [];
      FilterAppend(head, Filter(s[1..], first), second);
      if first(s[0]) {
        assert head[1..] == [];
      }
    }
  }

  /** Filtering distributes over concatenation. */
  lemma {:induction false} FilterAppend<T>(a: seq<T>, b: seq<T>, keep: T -> bool)
    ensures Filter(a + b, keep) == Filter(a, keep) + Filter(b, keep)
  {
    if a != [] {
      FilterAppend(a[1..], b, keep);
      assert (a + b)[1..] == a[1..] + b;
    } else {
      assert a + b == b;
    }
  }

  /**
   * Applies a partial function to every element; `None` as soon as one
   * element has no image (a `map` whose callback may throw).
   */
  function TryMap<A, B>(s: seq<A>, f: A -> Option<B>): Option<seq<B>> {
    if s == [] then Some([])
    else
      var init := TryMap(s[..|s| - 1], f);
      var last := f(s[|s| - 1]);
      if init.None? || last.None? then None else Some(init.value + [last.value])
  }

  /** `TryMap` succeeds exactly when every element has an image, and then lists the images in order. */
  lemma {:induction false} TryMapElements<A, B>(s: seq<A>, f: A -> Option<B>)
    ensures TryMap(s, f).Some? <==> forall i :: 0 <= i < |s| ==> f(s[i]).Some?
    ensures TryMap(s, f).Some? ==>
      |TryMap(s, f).value| == |s| && forall i :: 0 <= i < |s| ==> Some(TryMap(s, f).value[i]) == f(s[i])
  {
    if s != [] {
      var init := s[..|s| - 1];
      TryMapElements(init, f);
      assert forall i :: 0 <= i < |init| ==> init[i] == s[i];
    }
  }

  /** Extending a prefix whose elements all have images by one more element with an image. */
  lemma TryMapStep<A, B>(s: seq<A>, i: nat, f: A -> Option<B>, out: seq<B>)
    requires i < |s| && TryMap(s[..i], f) == Some(out) && f(s[i]).Some?
    ensures TryMap(s[..i + 1], f) == Some(out + [f(s[i]).value])
  {
    assert s[..i + 1][..i] == s[..i];
  }

  /** A prefix whose next element has no image makes every longer prefix fail. */
  lemma TryMapStops<A, B>(s: seq<A>, i: nat, f: A -> Option<B>)
    requires i < |s| && f(s[i]).None?
    ensures TryMap(s, f).None?
  {
    assert s[..i + 1][..i] == s[..i];
    TryMapFailsOnward(s, i + 1, f);
  }

  /** Once a prefix has an element without image, so has every longer prefix. */
  lemma {:induction false} TryMapFailsOnward<A, B>(s: seq<A>, n: nat, f: A -> Option<B>)
    requires n <= |s| && TryMap(s[..n], f).None?
    ensures TryMap(s, f).None?
    decreases |s| - n
  {
    if n < |s| {
      assert s[..n + 1][..n] == s[..n];
      TryMapFailsOnward(s, n + 1, f);
    } else {
      assert s[..n] == s;
    }
  }
}
