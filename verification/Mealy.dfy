/** Machines that turn one sample into one sample, run over a block. */
module Mealy {
  /** The state and the outputs after a block of inputs. */
  function Run<S, X, Y>(f: (S, X) -> (S, Y), s: S, xs: seq<X>): (r: (S, seq<Y>))
    ensures |r.1| == |xs|
  {
    if xs == [] then (s, [])
    else
      var (s1, ys) := Run(f, s, xs[..|xs| - 1]);
      var (s2, y) := f(s1, xs[|xs| - 1]);
      (s2, ys + [y])
  }

  /** One more input. */
  lemma RunSnoc<S, X, Y>(f: (S, X) -> (S, Y), s: S, xs: seq<X>, x: X)
    ensures var (s1, ys) := Run(f, s, xs); var (s2, y) := f(s1, x);
            Run(f, s, xs + [x]) == (s2, ys + [y])
  {
    assert (xs + [x])[..|xs|] == xs;
  }

  /** Outputs so far do not depend on the inputs to come. */
  lemma {:induction false} RunPrefix<S, X, Y>(f: (S, X) -> (S, Y), s: S, xs: seq<X>, n: nat)
    requires n <= |xs|
    ensures Run(f, s, xs).1[..n] == Run(f, s, xs[..n]).1
    decreases |xs| - n
  {
    if n < |xs| {
      RunPrefix(f, s, xs, n + 1);
      RunSnoc(f, s, xs[..n], xs[n]);
      assert xs[..n + 1] == xs[..n] + [xs[n]];
      assert Run(f, s, xs).1[..n] == Run(f, s, xs).1[..n + 1][..n];
    } else {
      assert xs[..n] == xs;
    }
  }

  /** Blocks may be cut anywhere. */
  lemma {:induction false} RunAppend<S, X, Y>(f: (S, X) -> (S, Y), s: S, xs: seq<X>, zs: seq<X>)
    ensures var (s1, ys) := Run(f, s, xs); var (s2, ws) := Run(f, s1, zs);
            Run(f, s, xs + zs) == (s2, ys + ws)
  {
    if zs == [] {
      assert xs + zs == xs;
      assert Run(f, s, xs).1 + [] == Run(f, s, xs).1;
    } else {
      var n := |zs| - 1;
      RunAppend(f, s, xs, zs[..n]);
      assert (xs + zs)[..|xs + zs| - 1] == xs + zs[..n];
      var ys, ws := Run(f, s, xs).1, Run(f, Run(f, s, xs).0, zs[..n]).1;
      var y := f(Run(f, Run(f, s, xs).0, zs[..n]).0, zs[n]).1;
      assert (ys + ws) + [y] == ys + (ws + [y]);
    }
  }
}
