/** The speaker EQ: a cascade of biquads, computed with two 32-bit accumulators
    instead of a 64-bit sum (lib/AudioEngine/AudioEngine.cpp). */
module Eq {
  import opened Fixed
  import opened Mealy

  // Bus values saturate here.
  const BUS_SAT: int := 0x100_0000
  const Q29: int := 0x2000_0000
  const MAX_BANDS: nat := 4
  const MAX_GAIN_Q8: int := 4096

  datatype Coefs = Coefs(b0: int, b1: int, b2: int, a1: int, a2: int)
  datatype Biquad = Biquad(c: Coefs, x1: int, x2: int, y1: int, y2: int)

  predicate CoefsFit(c: Coefs) {
    Fits32(c.b0) && Fits32(c.b1) && Fits32(c.b2) && Fits32(c.a1) && Fits32(c.a2)
  }

  /** The stability triangle: |a2| < 1 and |a1| < 1 + a2. */
  predicate BandValid(c: Coefs) {
    -Q29 < c.a2 < Q29 && Abs(c.a1) < Q29 + c.a2
  }

  predicate SettingValid(bands: seq<Coefs>, count: int, gainQ8: int) {
    0 <= count <= MAX_BANDS && count <= |bands| && 0 <= gainQ8 <= MAX_GAIN_Q8
    && forall b :: 0 <= b < count ==> BandValid(bands[b])
  }

  predicate InRange(x: int) {
    -BUS_SAT <= x <= BUS_SAT
  }

  predicate BiquadOk(q: Biquad) {
    CoefsFit(q.c) && BandValid(q.c) && InRange(q.x1) && InRange(q.x2) && InRange(q.y1) && InRange(q.y2)
  }

  /** The plain form's sum, exact. */
  function PlainSum(q: Biquad, x: int): int {
    q.c.b0 * x + q.c.b1 * q.x1 + q.c.b2 * q.x2 - q.c.a1 * q.y1 - q.c.a2 * q.y2
  }

  /** One sample of the plain form. */
  function BandTick(q: Biquad, x: int): (Biquad, int) {
    var y := Clamp(PlainSum(q, x) / Q29, BUS_SAT);
    (Biquad(q.c, x, q.x1, y, q.y1), y)
  }

  /** The sum so far, held in two 32-bit words. */
  predicate Holds(hi: int, lo: int, terms: nat, sum: int) {
    && sum == hi * Q29 + lo
    && -0x800_0000 * terms <= hi <= 0x800_0000 * terms
    && 0 <= lo <= terms * (Q29 - 1)
  }

  lemma HeldSumIsFloored(hi: int, lo: int, terms: nat, sum: int)
    requires Holds(hi, lo, terms, sum) && terms <= 5
    ensures Fits32(hi) && 0 <= lo < WRAP32 && Fits32(hi + lo / Q29)
    ensures sum / Q29 == hi + lo / Q29
  {
  }

  lemma TermSplits(c: int, u: int)
    ensures c * (8 * u) / WRAP32 == c * u / Q29
    ensures c * (8 * u) % WRAP32 / 8 == c * u % Q29
  {
    assert c * (8 * u) == 8 * (c * u);
    EightTimes(c * u);
  }

  lemma EightTimes(p: int)
    ensures 8 * p / WRAP32 == p / Q29
    ensures 8 * p % WRAP32 / 8 == p % Q29
  {
    var q, s := p / Q29, p % Q29;
    assert 8 * p == q * WRAP32 + 8 * s;
  }

  /** One multiply-accumulate; v is the sample times 8. */
  method EqTerm(c: int, v: int, hi: int, lo: int, ghost u: int, ghost terms: nat, ghost sum: int) returns (hi': int, lo': int)
    requires Fits32(c) && v == 8 * u && -2 * BUS_SAT <= u <= 2 * BUS_SAT && terms < 5
    requires Holds(hi, lo, terms, sum)
    ensures Holds(hi', lo', terms + 1, sum + c * u)
  {
    assert Fits32(v);
    MulAbs(c, u, 0x8000_0000, 2 * BUS_SAT);
    assert Fits64(c * v) by { assert c * v == 8 * (c * u); }
    var p := c * v;
    TermSplits(c, u);
    hi' := hi + p / WRAP32;
    lo' := lo + p % WRAP32 / 8;
    HeldSumIsFloored(hi', lo', terms + 1, sum + c * u);
  }

  datatype Form = General | Peak | Edge

  /** Each shortcut is used only where it is an identity. */
  predicate FormFits(form: Form, c: Coefs) {
    (form == Peak ==> c.b1 == c.a1) && (form == Edge ==> c.b0 == c.b2)
  }

  lemma Factored(b: int, u: int, v: int)
    ensures b * (u + v) == b * u + b * v
    ensures b * (u - v) == b * u - b * v
    ensures -b * u == -(b * u)
  {
  }

  lemma HoldsMore(hi: int, lo: int, terms: nat, more: nat, sum: int)
    requires Holds(hi, lo, terms, sum) && terms <= more
    ensures Holds(hi, lo, more, sum)
  {
  }

  /** The terms of the two outer inputs; every sample comes times 8. */
  method OuterTerms(c: Coefs, form: Form, x8: int, x2: int, ghost q: Biquad, ghost x: int) returns (hi: int, lo: int)
    requires BiquadOk(q) && q.c == c && FormFits(form, c) && InRange(x) && x8 == 8 * x && x2 == 8 * q.x2
    ensures Holds(hi, lo, 2, c.b0 * x + c.b2 * q.x2)
  {
    hide Holds;
    assert Fits32(x8) && Fits32(x2);
    NothingHeld();
    if form == Edge {
      hi, lo := EqTerm(c.b0, x8 + x2, 0, 0, x + q.x2, 0, 0);
      Factored(c.b0, x, q.x2);
      HoldsMore(hi, lo, 1, 2, c.b0 * (x + q.x2));
    } else {
      hi, lo := EqTerm(c.b0, x8, 0, 0, x, 0, 0);
      hi, lo := EqTerm(c.b2, x2, hi, lo, q.x2, 1, c.b0 * x);
    }
  }

  /** The terms of the middle input and the last output. */
  method MiddleTerms(c: Coefs, form: Form, x1: int, y1: int, hi: int, lo: int, ghost q: Biquad, ghost sum: int)
    returns (hi': int, lo': int)
    requires BiquadOk(q) && q.c == c && FormFits(form, c) && x1 == 8 * q.x1 && y1 == 8 * q.y1 && Holds(hi, lo, 2, sum)
    ensures Holds(hi', lo', 4, sum + c.b1 * q.x1 - c.a1 * q.y1)
  {
    hide Holds;
    assert Fits32(x1) && Fits32(y1);
    if form == Peak {
      hi', lo' := EqTerm(c.b1, x1 - y1, hi, lo, q.x1 - q.y1, 2, sum);
      Factored(c.b1, q.x1, q.y1);
      HoldsMore(hi', lo', 3, 4, sum + c.b1 * (q.x1 - q.y1));
    } else {
      var na1 := -c.a1;
      assert Fits32(na1);
      hi', lo' := EqTerm(c.b1, x1, hi, lo, q.x1, 2, sum);
      hi', lo' := EqTerm(na1, y1, hi', lo', q.y1, 3, sum + c.b1 * q.x1);
      Factored(c.a1, q.y1, 0);
    }
  }

  /** One sample with the split accumulators is the plain form, bit for bit. */
  method EqSample(c: Coefs, form: Form, x8: int, x1: int, x2: int, y1: int, y2: int, ghost q: Biquad, ghost x: int)
    returns (y: int)
    requires BiquadOk(q) && q.c == c && FormFits(form, c) && InRange(x) && x8 == 8 * x
    requires x1 == 8 * q.x1 && x2 == 8 * q.x2 && y1 == 8 * q.y1 && y2 == 8 * q.y2
    ensures y == BandTick(q, x).1
  {
    hide Holds, PlainSum;
    var hi, lo := OuterTerms(c, form, x8, x2, q, x);
    hi, lo := MiddleTerms(c, form, x1, y1, hi, lo, q, c.b0 * x + c.b2 * q.x2);
    var na2 := -c.a2;
    assert Fits32(y2) && Fits32(na2);
    hi, lo := EqTerm(na2, y2, hi, lo, q.y2, 4, c.b0 * x + c.b2 * q.x2 + c.b1 * q.x1 - c.a1 * q.y1);
    AllTerms(q, x);
    HeldSumIsFloored(hi, lo, 5, PlainSum(q, x));
    y := Clamp(hi + lo / Q29, BUS_SAT);
  }

  lemma AllTerms(q: Biquad, x: int)
    ensures q.c.b0 * x + q.c.b2 * q.x2 + q.c.b1 * q.x1 - q.c.a1 * q.y1 + -q.c.a2 * q.y2 == PlainSum(q, x)
  {
    Factored(q.c.a2, q.y2, 0);
  }

  lemma NothingHeld()
    ensures Holds(0, 0, 0, 0)
  {
  }

  lemma BandTickOk(q: Biquad, x: int)
    requires BiquadOk(q) && InRange(x)
    ensures BiquadOk(BandTick(q, x).0) && InRange(BandTick(q, x).1)
  {
    hide PlainSum;
  }

  // ---- one band over a block ----

  lemma {:induction false} BandRunOk(q: Biquad, xs: seq<int>)
    requires BiquadOk(q) && forall i :: 0 <= i < |xs| ==> InRange(xs[i])
    ensures BiquadOk(Run(BandTick, q, xs).0) && forall i :: 0 <= i < |xs| ==> InRange(Run(BandTick, q, xs).1[i])
  {
    hide BiquadOk, BandTick;
    if xs != [] {
      var n := |xs| - 1;
      BandRunOk(q, xs[..n]);
      BandTickOk(Run(BandTick, q, xs[..n]).0, xs[n]);
    }
  }

  /** One band over a block, in place, with its states kept times 8 while it
      runs and divided back exactly at the end. */
  method EqRun(q: Biquad, form: Form, buf: array<int>, n: nat) returns (q': Biquad)
    requires n <= buf.Length && BiquadOk(q) && FormFits(form, q.c)
    requires forall i :: 0 <= i < n ==> InRange(buf[i])
    modifies buf
    ensures var r := Run(BandTick, q, old(buf[..n])); q' == r.0 && buf[..n] == r.1
    ensures buf[n..] == old(buf[n..])
  {
    hide BiquadOk, BandTick;
    ghost var xs := buf[..n];
    ghost var rest := buf[n..];
    ghost var now := q;
    var x1, x2, y1, y2 := q.x1 * 8, q.x2 * 8, q.y1 * 8, q.y2 * 8;
    for i := 0 to n
      invariant BiquadOk(now) && now.c == q.c
      invariant now == Run(BandTick, q, xs[..i]).0 && buf[..i] == Run(BandTick, q, xs[..i]).1
      invariant x1 == now.x1 * 8 && x2 == now.x2 * 8 && y1 == now.y1 * 8 && y2 == now.y2 * 8
      invariant forall j :: i <= j < n ==> buf[j] == xs[j]
      invariant buf[n..] == rest
    {
      ghost var x := buf[i];
      RunSnoc(BandTick, q, xs[..i], x);
      assert xs[..i + 1] == xs[..i] + [x];
      BandTickOk(now, x);
      BandStates(now, x);
      var x8 := buf[i] * 8;
      var y := EqSample(q.c, form, x8, x1, x2, y1, y2, now, x);
      ghost var before := buf[..i];
      buf[i] := y;
      x2, x1, y2, y1 := x1, x8, y1, y * 8;
      now := BandTick(now, x).0;
      assert buf[..i + 1] == before + [y];
    }
    assert xs[..n] == xs;
    q' := Biquad(q.c, TruncDiv(x1, 8), TruncDiv(x2, 8), TruncDiv(y1, 8), TruncDiv(y2, 8));
    assert q' == now;
  }

  lemma BandStates(q: Biquad, x: int)
    ensures BandTick(q, x).0 == Biquad(q.c, x, q.x1, BandTick(q, x).1, q.y1)
  {
  }

  // ---- the cascade ----

  /** One sample through the first n bands. */
  function Cascade(qs: seq<Biquad>, n: nat, x: int): (r: (seq<Biquad>, int))
    ensures |r.0| == |qs| && forall b :: n <= b < |qs| ==> r.0[b] == qs[b]
  {
    if n == 0 || |qs| < n then (qs, x)
    else
      var (qs1, y) := Cascade(qs, n - 1, x);
      var (q, z) := BandTick(qs1[n - 1], y);
      (qs1[n - 1 := q], z)
  }

  function CascadeOf(n: nat): (seq<Biquad>, int) -> (seq<Biquad>, int) {
    (qs, x) => Cascade(qs, n, x)
  }

  predicate BandsOk(qs: seq<Biquad>, n: nat) {
    n <= |qs| && forall b :: 0 <= b < n ==> BiquadOk(qs[b])
  }

  lemma {:induction false} CascadeOk(qs: seq<Biquad>, n: nat, x: int)
    requires BandsOk(qs, n) && InRange(x)
    ensures BandsOk(Cascade(qs, n, x).0, n) && InRange(Cascade(qs, n, x).1)
  {
    hide BiquadOk, BandTick;
    if n != 0 {
      CascadeOk(qs, n - 1, x);
      BandTickOk(qs[n - 1], Cascade(qs, n - 1, x).1);
    }
  }

  lemma {:induction false} CascadeTouchesItsBands(qs: seq<Biquad>, n: nat, xs: seq<int>)
    ensures var r := Run(CascadeOf(n), qs, xs).0; |r| == |qs| && forall b :: n <= b < |qs| ==> r[b] == qs[b]
  {
    if xs != [] { CascadeTouchesItsBands(qs, n, xs[..|xs| - 1]); }
  }

  /** Band after band over a block is sample after sample through the bands. */
  lemma {:induction false} BandByBand(qs: seq<Biquad>, n: nat, xs: seq<int>)
    requires n < |qs|
    ensures var (qs1, ys) := Run(CascadeOf(n), qs, xs); var (q, zs) := Run(BandTick, qs[n], ys);
            |qs1| == |qs| && Run(CascadeOf(n + 1), qs, xs) == (qs1[n := q], zs)
  {
    hide BandTick;
    CascadeTouchesItsBands(qs, n, xs);
    if xs != [] {
      var k := |xs| - 1;
      BandByBand(qs, n, xs[..k]);
      CascadeTouchesItsBands(qs, n, xs[..k]);
      var (qs1, ys) := Run(CascadeOf(n), qs, xs[..k]);
      var (q, zs) := Run(BandTick, qs[n], ys);
      CascadeTakesNext(qs1[n := q], qs1, n, xs[k]);
      RunSnoc(BandTick, qs[n], ys, CascadeOf(n)(qs1, xs[k]).1);
    } else {
      assert qs[n := qs[n]] == qs;
    }
  }

  /** The first n bands do not look at band n. */
  lemma CascadeTakesNext(qs: seq<Biquad>, qs1: seq<Biquad>, n: nat, x: int)
    requires n < |qs| == |qs1| && qs == qs1[n := qs[n]]
    ensures var (r, y) := Cascade(qs1, n, x); var (q, z) := BandTick(qs[n], y);
            Cascade(qs, n + 1, x) == (r[n := q], z)
  {
    hide BandTick;
    CascadeIgnores(qs1, n, n, qs[n], x);
    var r := Cascade(qs1, n, x).0;
    assert r[n := qs[n]][n := BandTick(qs[n], Cascade(qs1, n, x).1).0] == r[n := BandTick(qs[n], Cascade(qs1, n, x).1).0];
  }

  lemma {:induction false} CascadeIgnores(qs: seq<Biquad>, n: nat, k: nat, q: Biquad, x: int)
    requires n <= k < |qs|
    ensures Cascade(qs[k := q], n, x) == (Cascade(qs, n, x).0[k := q], Cascade(qs, n, x).1)
  {
    hide BandTick;
    if n != 0 {
      CascadeIgnores(qs, n - 1, k, q, x);
      var (qs1, y) := Cascade(qs, n - 1, x);
      var b := BandTick(qs1[n - 1], y).0;
      assert qs1[k := q][n - 1 := b] == qs1[n - 1 := b][k := q];
    }
  }

  /** The enabled bands over a block, band by band. */
  method EqBlock(eq: array<Biquad>, bands: nat, buf: array<int>, n: nat)
    requires n <= buf.Length && bands <= eq.Length && BandsOk(eq[..], bands)
    requires forall i :: 0 <= i < n ==> InRange(buf[i])
    modifies eq, buf
    ensures var r := Run(CascadeOf(bands), old(eq[..]), old(buf[..n])); eq[..] == r.0 && buf[..n] == r.1
    ensures forall i :: 0 <= i < n ==> InRange(buf[i])
    ensures BandsOk(eq[..], bands)
  {
    hide BiquadOk, BandTick;
    ghost var qs, xs := eq[..], buf[..n];
    NoBands(qs, xs);
    for b := 0 to bands
      invariant (eq[..], buf[..n]) == Run(CascadeOf(b), qs, xs)
      invariant forall i :: 0 <= i < n ==> InRange(buf[i])
      invariant BandsOk(eq[..], bands)
    {
      var q := eq[b];
      var form := if q.c.b1 == q.c.a1 then Peak else if q.c.b0 == q.c.b2 then Edge else General;
      ghost var ys := buf[..n];
      ghost var now := eq[..];
      CascadeTouchesItsBands(qs, b, xs);
      BandByBand(qs, b, xs);
      BandRunOk(q, ys);
      var q' := EqRun(q, form, buf, n);
      eq[b] := q';
      assert eq[..] == now[b := q'];
      forall i | 0 <= i < n ensures InRange(buf[i]) { assert buf[i] == buf[..n][i]; }
    }
  }

  lemma {:induction false} NoBands(qs: seq<Biquad>, xs: seq<int>)
    ensures Run(CascadeOf(0), qs, xs) == (qs, xs)
  {
    if xs != [] {
      NoBands(qs, xs[..|xs| - 1]);
      assert xs[..|xs| - 1] + [xs[|xs| - 1]] == xs;
    }
  }

  // ---- what a band is, over a whole signal ----

  /** A signal that is zero before it begins. */
  function At(xs: seq<int>, k: int): int {
    if 0 <= k < |xs| then xs[k] else 0
  }

  lemma {:induction false} BandRemembers(c: Coefs, xs: seq<int>)
    ensures var (q, ys) := Run(BandTick, Biquad(c, 0, 0, 0, 0), xs); var n := |xs|;
            q == Biquad(c, At(xs, n - 1), At(xs, n - 2), At(ys, n - 1), At(ys, n - 2))
  {
    hide PlainSum, Clamp;
    if xs != [] { BandRemembers(c, xs[..|xs| - 1]); }
  }

  lemma KthOutput(c: Coefs, xs: seq<int>, k: nat)
    requires k < |xs|
    ensures var ys := Run(BandTick, Biquad(c, 0, 0, 0, 0), xs).1;
            ys[k] == BandTick(Biquad(c, At(xs, k - 1), At(xs, k - 2), At(ys, k - 1), At(ys, k - 2)), xs[k]).1
  {
    hide BandTick, Run;
    var q := Biquad(c, 0, 0, 0, 0);
    BandRemembers(c, xs[..k]);
    RunPrefix(BandTick, q, xs, k);
    RunPrefix(BandTick, q, xs, k + 1);
    RunSnoc(BandTick, q, xs[..k], xs[k]);
    assert xs[..k + 1] == xs[..k] + [xs[k]];
    var ys := Run(BandTick, q, xs).1;
    assert ys[..k + 1][k] == ys[k];
    AtPrefix(xs, k, k - 1);
    AtPrefix(xs, k, k - 2);
    AtPrefix(ys, k, k - 1);
    AtPrefix(ys, k, k - 2);
  }

  lemma AtPrefix(xs: seq<int>, n: nat, k: int)
    requires k < n <= |xs|
    ensures At(xs[..n], k) == At(xs, k)
  {
  }

  /** From silence each output is the difference equation of the coefficients (over
      2^29, rounded down, within 2^24) on the two inputs and outputs before it. */
  lemma BandIsItsEquation(c: Coefs, xs: seq<int>, k: nat)
    requires k < |xs|
    ensures var ys := Run(BandTick, Biquad(c, 0, 0, 0, 0), xs).1;
            var sum := c.b0 * xs[k] + c.b1 * At(xs, k - 1) + c.b2 * At(xs, k - 2) - c.a1 * At(ys, k - 1) - c.a2 * At(ys, k - 2);
            var y := sum / 0x2000_0000;
            ys[k] == if 0x100_0000 < y then 0x100_0000 else if y < -0x100_0000 then -0x100_0000 else y
  {
    KthOutput(c, xs, k);
    hide Run, At;
  }
}
