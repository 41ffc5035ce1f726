/** Subsequences: one sequence is another with some elements left out and the rest kept
    in order. */
module Sequences {
  /** `xs` is `ys` with some elements left out, the rest in order. */
  predicate SubsequenceOf<T(==)>(xs: seq<T>, ys: seq<T>)
  {
    if xs == [] then true
    else if ys == [] then false
    else if xs[0] == ys[0] then SubsequenceOf(xs[1..], ys[1..])
    else SubsequenceOf(xs, ys[1..])
  }

  lemma {:induction false} SubsequenceSkip<T>(xs: seq<T>, y: T, ys: seq<T>)
    requires SubsequenceOf(xs, ys)
    ensures SubsequenceOf(xs, [y] + ys)
    decreases |ys|, 1
  {
    assert ([y] + ys)[1..] == ys;
    if xs != [] && xs[0] == y {
      SubsequenceDrop(xs, ys);
    }
  }

  lemma {:induction false} SubsequenceDrop<T>(xs: seq<T>, ys: seq<T>)
    requires xs != [] && SubsequenceOf(xs, ys)
    ensures SubsequenceOf(xs[1..], ys)
    decreases |ys|, 0
  {
    assert ys != [];
    if xs[0] != ys[0] {
      SubsequenceDrop(xs, ys[1..]);
    }
    SubsequenceSkip(xs[1..], ys[0], ys[1..]);
    assert [ys[0]] + ys[1..] == ys;
  }

  /** Appending the same sequence on both sides keeps a subsequence. */
  lemma {:induction false} SubsequenceAppendBoth<T>(xs: seq<T>, ys: seq<T>, zs: seq<T>)
    requires SubsequenceOf(xs, ys)
    ensures SubsequenceOf(xs + zs, ys + zs)
    decreases |ys|
  {
    if xs == [] {
      SubsequenceRefl(zs);
      SubsequenceBefore(ys, zs, zs);
      assert xs + zs == zs;
    } else {
      assert ys != [];
      assert (xs + zs)[0] == xs[0] && (xs + zs)[1..] == xs[1..] + zs;
      assert (ys + zs)[0] == ys[0] && (ys + zs)[1..] == ys[1..] + zs;
      if xs[0] == ys[0] {
        SubsequenceAppendBoth(xs[1..], ys[1..], zs);
      } else {
        SubsequenceAppendBoth(xs, ys[1..], zs);
      }
    }
  }

  /** Putting elements in front of the longer sequence keeps a subsequence. */
  lemma {:induction false} SubsequenceBefore<T>(p: seq<T>, xs: seq<T>, ys: seq<T>)
    requires SubsequenceOf(xs, ys)
    ensures SubsequenceOf(xs, p + ys)
  {
    if p != [] {
      SubsequenceBefore(p[1..], xs, ys);
      SubsequenceSkip(xs, p[0], p[1..] + ys);
      assert [p[0]] + (p[1..] + ys) == p + ys;
    } else {
      assert p + ys == ys;
    }
  }

  /** Extending the longer sequence keeps a subsequence. */
  lemma {:induction false} SubsequenceAppend<T>(xs: seq<T>, ys: seq<T>, zs: seq<T>)
    requires SubsequenceOf(xs, ys)
    ensures SubsequenceOf(xs, ys + zs)
  {
    if xs != [] && ys != [] {
      assert (ys + zs)[0] == ys[0] && (ys + zs)[1..] == ys[1..] + zs;
      if xs[0] == ys[0] {
        SubsequenceAppend(xs[1..], ys[1..], zs);
      } else {
        SubsequenceAppend(xs, ys[1..], zs);
      }
    } else if xs != [] {
      assert false;
    }
  }

  lemma {:induction false} SubsequenceRefl<T>(xs: seq<T>)
    ensures SubsequenceOf(xs, xs)
  {
    if xs != [] {
      SubsequenceRefl(xs[1..]);
    }
  }

  /** Prefixing the same sequence on both sides keeps a subsequence. */
  lemma {:induction false} SubsequencePrefix<T>(p: seq<T>, xs: seq<T>, ys: seq<T>)
    requires SubsequenceOf(xs, ys)
    ensures SubsequenceOf(p + xs, p + ys)
  {
    if p != [] {
      SubsequencePrefix(p[1..], xs, ys);
      assert (p + xs)[0] == p[0] && (p + xs)[1..] == p[1..] + xs;
      assert (p + ys)[0] == p[0] && (p + ys)[1..] == p[1..] + ys;
    } else {
      assert p + xs == xs && p + ys == ys;
    }
  }

  lemma {:induction false} SubsequenceTrans<T>(xs: seq<T>, ys: seq<T>, zs: seq<T>)
    requires SubsequenceOf(xs, ys) && SubsequenceOf(ys, zs)
    ensures SubsequenceOf(xs, zs)
    decreases |zs|
  {
    if xs != [] && zs != [] {
      assert ys != [];
      if ys[0] == zs[0] {
        if xs[0] == ys[0] {
          SubsequenceTrans(xs[1..], ys[1..], zs[1..]);
        } else {
          SubsequenceTrans(xs, ys[1..], zs[1..]);
        }
      } else {
        SubsequenceTrans(xs, ys, zs[1..]);
        if xs[0] == zs[0] {
          SubsequenceDrop(xs, zs[1..]);
        }
      }
    } else if xs != [] {
      assert false;
    }
  }
}
