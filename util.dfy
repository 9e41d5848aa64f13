/**
 * Sequence helpers shared by the pipeline stages: an optional value, the
 * order-preserving filter that every `Remove*` stage amounts to, and the
 * subsequence relation that says a stage only drops records.
 */
module Util {

  datatype Option<+T> = None | Some(value: T)

  /** The elements of `s` that satisfy `p`, in their original order. */
  function Filter<T>(s: seq<T>, p: T -> bool): (r: seq<T>)
    ensures |r| <= |s|
    ensures forall x {:trigger x in r} :: x in r ==> x in s && p(x)
  {
    if |s| == 0 then []
    else Filter(s[..|s| - 1], p) + (if p(s[|s| - 1]) then [s[|s| - 1]] else [])
  }

  /** Concatenation regroups freely. */
  lemma AppendAssoc<T>(a: seq<T>, b: seq<T>, c: seq<T>)
    ensures a + (b + c) == (a + b) + c
  {
    assert |a + (b + c)| == |(a + b) + c|;
    forall k | 0 <= k < |a + b + c|
      ensures (a + (b + c))[k] == ((a + b) + c)[k]
    {
    }
  }

  /** Peeling the last element off the input peels it off the filter too. */
  lemma FilterSnoc<T>(s: seq<T>, x: T, p: T -> bool)
    ensures Filter(s + [x], p) == Filter(s, p) + (if p(x) then [x] else [])
  {
    assert (s + [x])[..|s|] == s;
  }

  /** Filtering distributes over a first element. */
  lemma {:induction false} FilterCons<T>(x: T, s: seq<T>, p: T -> bool)
    ensures Filter([x] + s, p) == (if p(x) then [x] else []) + Filter(s, p)
  {
    if |s| == 0 {
      assert ([x] + s)[..0] == [];
    } else {
      var init, last := s[..|s| - 1], s[|s| - 1];
      FilterCons(x, init, p);
      assert ([x] + s)[..|s|] == [x] + init;
    }
  }

  /** An element is kept exactly when it occurs in the input and passes `p`. */
  lemma {:induction false} FilterMembership<T>(s: seq<T>, p: T -> bool, x: T)
    ensures x in Filter(s, p) <==> x in s && p(x)
  {
    if |s| > 0 {
      var init := s[..|s| - 1];
      assert s == init + [s[|s| - 1]];
      FilterMembership(init, p, x);
    }
  }

  /** Filtering keeps everything when every element passes. */
  lemma {:induction false} FilterAll<T>(s: seq<T>, p: T -> bool)
    requires forall i :: 0 <= i < |s| ==> p(s[i])
    ensures Filter(s, p) == s
  {
    if |s| > 0 {
      var init := s[..|s| - 1];
      assert s == init + [s[|s| - 1]];
      FilterAll(init, p);
    }
  }

  /** The number of elements of `s` that pass `p`. */
  function CountIf<T>(s: seq<T>, p: T -> bool): (n: nat)
    ensures n <= |s|
  {
    if |s| == 0 then 0
    else CountIf(s[..|s| - 1], p) + (if p(s[|s| - 1]) then 1 else 0)
  }

  lemma {:induction false} FilterLength<T>(s: seq<T>, p: T -> bool)
    ensures |Filter(s, p)| == CountIf(s, p)
  {
    if |s| > 0 {
      FilterLength(s[..|s| - 1], p);
    }
  }

  /** `f` maps each position of `xs` to a position of `ys` holding the same
      element, and does so in strictly increasing order. */
  ghost predicate Embeds<T>(f: seq<int>, xs: seq<T>, ys: seq<T>)
  {
    && |f| == |xs|
    && (forall k :: 0 <= k < |f| ==> 0 <= f[k] < |ys| && xs[k] == ys[f[k]])
    && (forall k, l :: 0 <= k < l < |f| ==> f[k] < f[l])
  }

  /** `xs` is `ys` with some elements removed and the rest in order. */
  ghost predicate IsSubseq<T>(xs: seq<T>, ys: seq<T>)
  {
    exists f: seq<int> :: Embeds(f, xs, ys)
  }

  lemma SubseqRefl<T>(s: seq<T>)
    ensures IsSubseq(s, s)
  {
    var f := seq(|s|, k => k);
    assert Embeds(f, s, s);
  }

  lemma SubseqTrans<T>(xs: seq<T>, ys: seq<T>, zs: seq<T>)
    requires IsSubseq(xs, ys) && IsSubseq(ys, zs)
    ensures IsSubseq(xs, zs)
  {
    var f :| Embeds(f, xs, ys);
    var g :| Embeds(g, ys, zs);
    var h := seq(|f|, k requires 0 <= k < |f| => g[f[k]]);
    assert Embeds(h, xs, zs);
  }

  /** A subsequence may be extended by the same element on both sides, or
      the longer sequence alone may be extended. */
  lemma SubseqSnoc<T>(xs: seq<T>, ys: seq<T>, y: T, take: bool)
    requires IsSubseq(xs, ys)
    ensures IsSubseq(if take then xs + [y] else xs, ys + [y])
  {
    var f :| Embeds(f, xs, ys);
    if take {
      assert Embeds(f + [|ys|], xs + [y], ys + [y]);
    } else {
      assert Embeds(f, xs, ys + [y]);
    }
  }

  /** The same as SubseqSnoc, at the front. */
  lemma SubseqCons<T>(xs: seq<T>, ys: seq<T>, y: T, take: bool)
    requires IsSubseq(xs, ys)
    ensures IsSubseq(if take then [y] + xs else xs, [y] + ys)
  {
    var f :| Embeds(f, xs, ys);
    var g := seq(|f|, k requires 0 <= k < |f| => f[k] + 1);
    if take {
      assert Embeds([0] + g, [y] + xs, [y] + ys);
    } else {
      assert Embeds(g, xs, [y] + ys);
    }
  }

  lemma {:induction false} FilterIsSubseq<T>(s: seq<T>, p: T -> bool)
    ensures IsSubseq(Filter(s, p), s)
  {
    if |s| == 0 {
      assert Embeds([], Filter(s, p), s);
    } else {
      var init, last := s[..|s| - 1], s[|s| - 1];
      assert s == init + [last];
      FilterIsSubseq(init, p);
      var prev := Filter(init, p);
      SubseqSnoc(prev, init, last, p(last));
      if p(last) {
        assert Filter(s, p) == prev + [last];
      } else {
        assert Filter(s, p) == prev;
      }
    }
  }

  /** Projection keeps the subsequence relation. */
  lemma SubseqMap<T, U>(xs: seq<T>, ys: seq<T>, proj: T -> U)
    requires IsSubseq(xs, ys)
    ensures IsSubseq(seq(|xs|, i requires 0 <= i < |xs| => proj(xs[i])),
                     seq(|ys|, i requires 0 <= i < |ys| => proj(ys[i])))
  {
    var f :| Embeds(f, xs, ys);
    var pxs := seq(|xs|, i requires 0 <= i < |xs| => proj(xs[i]));
    var pys := seq(|ys|, i requires 0 <= i < |ys| => proj(ys[i]));
    assert Embeds(f, pxs, pys);
  }
}
