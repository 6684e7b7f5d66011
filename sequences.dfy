/** Order-preserving selections from a list. */
module Sequences {
  import opened Wrappers

  /** `xs` is `ys` with some elements left out, in the same order. */
  predicate IsSubsequence<T(==)>(xs: seq<T>, ys: seq<T>)
    decreases |ys|
  {
    if ys == [] then xs == []
    else
      || (xs != [] && xs[|xs| - 1] == ys[|ys| - 1] && IsSubsequence(xs[..|xs| - 1], ys[..|ys| - 1]))
      || IsSubsequence(xs, ys[..|ys| - 1])
  }

  /** The empty list is a subsequence of every list. */
  lemma {:induction false} EmptySubsequence<T>(ys: seq<T>)
    ensures IsSubsequence([], ys)
    decreases |ys|
  {
    if ys != [] {
      EmptySubsequence(ys[..|ys| - 1]);
    }
  }

  /** A subsequence is no longer than the list it is taken from. */
  lemma {:induction false} SubsequenceLength<T>(xs: seq<T>, ys: seq<T>)
    requires IsSubsequence(xs, ys)
    ensures |xs| <= |ys|
    decreases |ys|
  {
    if ys != [] {
      if xs != [] && xs[|xs| - 1] == ys[|ys| - 1] && IsSubsequence(xs[..|xs| - 1], ys[..|ys| - 1]) {
        SubsequenceLength(xs[..|xs| - 1], ys[..|ys| - 1]);
      } else {
        SubsequenceLength(xs, ys[..|ys| - 1]);
      }
    }
  }

  /** Every list is a subsequence of itself. */
  lemma {:induction false} SubsequenceSelf<T>(xs: seq<T>)
    ensures IsSubsequence(xs, xs)
    decreases |xs|
  {
    if xs != [] {
      SubsequenceSelf(xs[..|xs| - 1]);
    }
  }

  /** Selections from two lists, one after the other, select from the two
      lists one after the other. */
  lemma {:induction false} SubsequenceAppend<T>(xs1: seq<T>, ys1: seq<T>, xs2: seq<T>, ys2: seq<T>)
    requires IsSubsequence(xs1, ys1) && IsSubsequence(xs2, ys2)
    ensures IsSubsequence(xs1 + xs2, ys1 + ys2)
    decreases |ys2|
  {
    if ys2 == [] {
      assert xs1 + xs2 == xs1 && ys1 + ys2 == ys1;
    } else {
      var ys2' := ys2[..|ys2| - 1];
      var ys := ys1 + ys2;
      assert ys[..|ys| - 1] == ys1 + ys2' && ys[|ys| - 1] == ys2[|ys2| - 1];
      if xs2 != [] && xs2[|xs2| - 1] == ys2[|ys2| - 1] && IsSubsequence(xs2[..|xs2| - 1], ys2') {
        var xs2' := xs2[..|xs2| - 1];
        SubsequenceAppend(xs1, ys1, xs2', ys2');
        var xs := xs1 + xs2;
        assert xs[..|xs| - 1] == xs1 + xs2' && xs[|xs| - 1] == xs2[|xs2| - 1];
      } else {
        SubsequenceAppend(xs1, ys1, xs2, ys2');
      }
    }
  }

  /** The element at `k` followed by a selection from the elements after it
      is a selection from the whole list. */
  lemma SubsequenceFrom<T>(ys: seq<T>, k: nat, xs: seq<T>)
    requires k < |ys| && IsSubsequence(xs, ys[k + 1..])
    ensures IsSubsequence([ys[k]] + xs, ys)
  {
    var pre, x := ys[..k], ys[k];
    EmptySubsequence(pre);
    SubsequenceSelf([x]);
    SubsequenceAppend([], pre, [x], [x]);
    assert [] + [x] == [x];
    SubsequenceAppend([x], pre + [x], xs, ys[k + 1..]);
    assert pre + [x] + ys[k + 1..] == ys;
  }

  /** Keeping or dropping a single element selects from it. */
  lemma SubsequencePick<T>(keep: bool, x: T)
    ensures IsSubsequence(if keep then [x] else [], [x])
  {
    if keep {
      SubsequenceSelf([x]);
    } else {
      EmptySubsequence([x]);
    }
  }

  /** Every element of a subsequence is an element of the list. */
  lemma {:induction false} SubsequenceMembers<T>(xs: seq<T>, ys: seq<T>, x: T)
    requires IsSubsequence(xs, ys) && x in xs
    ensures x in ys
    decreases |ys|
  {
    if ys != [] {
      var xs', ys' := xs[..|xs| - 1], ys[..|ys| - 1];
      if xs != [] && xs[|xs| - 1] == ys[|ys| - 1] && IsSubsequence(xs', ys') {
        assert xs == xs' + [xs[|xs| - 1]];
        if x in xs' {
          SubsequenceMembers(xs', ys', x);
        }
      } else {
        SubsequenceMembers(xs, ys', x);
      }
    }
  }

  /** The values held by the `Some` entries, in order. */
  function Somes<T>(os: seq<Option<T>>): seq<T>
    decreases |os|
  {
    if os == [] then []
    else Somes(os[..|os| - 1]) + (if os[|os| - 1].Some? then [os[|os| - 1].value] else [])
  }

  /** The number of `None` entries. */
  function NoneCount<T>(os: seq<Option<T>>): nat
    decreases |os|
  {
    if os == [] then 0
    else NoneCount(os[..|os| - 1]) + (if os[|os| - 1].None? then 1 else 0)
  }


  /** Every entry is counted once, kept or not. */
  lemma {:induction false} SomesCount<T>(os: seq<Option<T>>)
    ensures |Somes(os)| + NoneCount(os) == |os|
    decreases |os|
  {
    if os != [] {
      SomesCount(os[..|os| - 1]);
    }
  }

  /** A value is kept exactly when some entry holds it. */
  lemma {:induction false} SomesMembers<T>(os: seq<Option<T>>, x: T)
    ensures x in Somes(os) <==> Some(x) in os
    decreases |os|
  {
    if os != [] {
      var init := os[..|os| - 1];
      SomesMembers(init, x);
      assert os == init + [os[|os| - 1]];
    }
  }

  /** When every entry is `Some`, nothing is dropped. */
  lemma {:induction false} SomesAll<T>(os: seq<Option<T>>)
    requires forall i :: 0 <= i < |os| ==> os[i].Some?
    ensures |Somes(os)| == |os|
    ensures forall i :: 0 <= i < |os| ==> Somes(os)[i] == os[i].value
    decreases |os|
  {
    if os != [] {
      SomesAll(os[..|os| - 1]);
    }
  }

  /** The lists `f` gives for the elements of `xs`, one after the other. */
  function Concat<A, B>(xs: seq<A>, f: A -> seq<B>): seq<B>
    decreases |xs|
  {
    if xs == [] then []
    else Concat(xs[..|xs| - 1], f) + f(xs[|xs| - 1])
  }

  /** An element of the concatenation is an element of one of the lists. */
  lemma {:induction false} ConcatMembers<A, B>(xs: seq<A>, f: A -> seq<B>, y: B)
    ensures y in Concat(xs, f) <==> exists i :: 0 <= i < |xs| && y in f(xs[i])
    decreases |xs|
  {
    if xs != [] {
      var init := xs[..|xs| - 1];
      ConcatMembers(init, f, y);
      if y in Concat(init, f) {
        var i :| 0 <= i < |init| && y in f(init[i]);
        assert xs[i] == init[i];
      }
      if exists i :: 0 <= i < |xs| && y in f(xs[i]) {
        var i :| 0 <= i < |xs| && y in f(xs[i]);
        if i < |init| {
          assert init[i] == xs[i];
        }
      }
    }
  }

  /** One more element adds its list at the end. */
  lemma ConcatStep<A, B>(xs: seq<A>, f: A -> seq<B>, k: nat)
    requires k < |xs|
    ensures Concat(xs[..k + 1], f) == Concat(xs[..k], f) + f(xs[k])
  {
    assert xs[..k + 1][..k] == xs[..k];
  }

  /** The concatenation is empty exactly when every list is. */
  lemma {:induction false} ConcatEmpty<A, B>(xs: seq<A>, f: A -> seq<B>)
    ensures Concat(xs, f) == [] <==> forall i :: 0 <= i < |xs| ==> f(xs[i]) == []
    decreases |xs|
  {
    if xs != [] {
      var init := xs[..|xs| - 1];
      ConcatEmpty(init, f);
      assert forall i :: 0 <= i < |init| ==> init[i] == xs[i];
    }
  }
}
