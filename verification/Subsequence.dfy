/** Order-preserving, duplicate-free containment of one stream in another. */
module Subsequence {

  /** `a` arises from `b` by deleting elements. */
  predicate Subseq<T(==)>(a: seq<T>, b: seq<T>)
    decreases |b|
  {
    if a == [] then true
    else if b == [] then false
    else if a[|a| - 1] == b[|b| - 1] then Subseq(a[..|a| - 1], b[..|b| - 1])
    else Subseq(a, b[..|b| - 1])
  }

  /** Greedy matching loses nothing: dropping the last element of a match leaves a match. */
  lemma {:induction false} DropLast<T>(a: seq<T>, b: seq<T>)
    requires a != [] && Subseq(a, b)
    ensures Subseq(a[..|a| - 1], b)
    decreases |b|
  {
    var a', b' := a[..|a| - 1], b[..|b| - 1];
    if a[|a| - 1] == b[|b| - 1] {
      Extend(a', b', [b[|b| - 1]]);
      assert b' + [b[|b| - 1]] == b;
    } else {
      DropLast(a, b');
      Extend(a', b', [b[|b| - 1]]);
      assert b' + [b[|b| - 1]] == b;
    }
  }

  lemma {:induction false} Extend<T>(a: seq<T>, b: seq<T>, more: seq<T>)
    requires Subseq(a, b)
    ensures Subseq(a, b + more)
    decreases |b| + |more|, 1
  {
    if more == [] {
      assert b + more == b;
    } else {
      var m := more[..|more| - 1];
      Extend(a, b, m);
      ExtendOne(a, b + m, more[|more| - 1]);
      assert b + more == (b + m) + [more[|more| - 1]];
    }
  }

  lemma {:induction false} ExtendOne<T>(a: seq<T>, b: seq<T>, x: T)
    requires Subseq(a, b)
    ensures Subseq(a, b + [x])
    decreases |b| + 1, 0
  {
    assert (b + [x])[..|b|] == b;
    if a != [] && a[|a| - 1] == x {
      DropLast(a, b);
    }
  }

  lemma {:induction false} AppendBoth<T>(a: seq<T>, b: seq<T>, more: seq<T>)
    requires Subseq(a, b)
    ensures Subseq(a + more, b + more)
    decreases |more|
  {
    if more == [] {
      assert a + more == a && b + more == b;
    } else {
      var n := |more| - 1;
      AppendBoth(a, b, more[..n]);
      assert (a + more)[..|a| + n] == a + more[..n];
      assert (b + more)[..|b| + n] == b + more[..n];
    }
  }

  lemma {:induction false} DropSuffix<T>(a: seq<T>, more: seq<T>, b: seq<T>)
    requires Subseq(a + more, b)
    ensures Subseq(a, b)
    decreases |more|
  {
    if more == [] {
      assert a + more == a;
    } else {
      DropLast(a + more, b);
      assert (a + more)[..|a + more| - 1] == a + more[..|more| - 1];
      DropSuffix(a, more[..|more| - 1], b);
    }
  }

  /** The recursive test means what it should: a strictly increasing choice of positions. */
  ghost predicate Embeds<T>(a: seq<T>, b: seq<T>, at: seq<int>) {
    && |at| == |a|
    && (forall i | 0 <= i < |at| :: 0 <= at[i] < |b| && b[at[i]] == a[i])
    && (forall i, j | 0 <= i < j < |at| :: at[i] < at[j])
  }

  lemma {:induction false} SubseqEmbeds<T>(a: seq<T>, b: seq<T>) returns (at: seq<int>)
    requires Subseq(a, b)
    ensures Embeds(a, b, at)
    decreases |b|
  {
    if a == [] {
      at := [];
    } else if a[|a| - 1] == b[|b| - 1] {
      at := SubseqEmbeds(a[..|a| - 1], b[..|b| - 1]);
      at := at + [|b| - 1];
    } else {
      at := SubseqEmbeds(a, b[..|b| - 1]);
    }
  }
}
