/**
 The two numpy grid builders the surface model uses: `linspace` (evenly
 spaced samples, both endpoints included) and `meshgrid` (the outer-product
 grid of two sample vectors, in numpy's default "xy" indexing). A grid is a
 sequence of rows.
 */
module Grids {

  type Grid = seq<seq<real>>

  /** `g` has `rows` rows of `cols` cells each. */
  ghost predicate HasShape(g: Grid, rows: nat, cols: nat) {
    |g| == rows && forall i :: 0 <= i < rows ==> |g[i]| == cols
  }

  /** `np.linspace(start, stop, num)`: with `num == 1` numpy yields just
      `start`; otherwise sample k is `start + k * (stop - start) / (num - 1)`. */
  function Linspace(start: real, stop: real, num: nat): (s: seq<real>)
    ensures |s| == num
  {
    seq(num, k requires 0 <= k < num => if num == 1 then start else start + (k as real) * Step(start, stop, num))
  }

  /** The spacing numpy uses between samples, `(stop - start) / (num - 1)`. */
  function Step(start: real, stop: real, num: nat): real
    requires num >= 2
  {
    (stop - start) / ((num - 1) as real)
  }

  lemma MulNonneg(a: real, b: real)
    requires a >= 0.0 && b >= 0.0
    ensures a * b >= 0.0
  {
  }

  lemma MulPos(a: real, b: real)
    requires a > 0.0 && b > 0.0
    ensures a * b > 0.0
  {
  }

  function Min(a: real, b: real): real { if a <= b then a else b }
  function Max(a: real, b: real): real { if a <= b then b else a }

  /** The first sample is `start` and, from two samples on, the last is `stop`. */
  lemma LinspaceEndpoints(start: real, stop: real, num: nat)
    requires num >= 1
    ensures Linspace(start, stop, num)[0] == start
    ensures num >= 2 ==> Linspace(start, stop, num)[num - 1] == stop
  {
    if num >= 2 {
      var d := (num - 1) as real;
      assert Linspace(start, stop, num)[num - 1] == start + d * Step(start, stop, num);
      assert d * ((stop - start) / d) == stop - start;
    }
  }

  /** Consecutive samples are one step `(stop - start) / (num - 1)` apart. */
  lemma LinspaceUniformStep(start: real, stop: real, num: nat, k: nat)
    requires num >= 2 && k + 1 < num
    ensures Linspace(start, stop, num)[k + 1] - Linspace(start, stop, num)[k] == Step(start, stop, num)
  {
    var h := Step(start, stop, num);
    assert ((k + 1) as real) * h == (k as real) * h + h;
  }

  /** With `start < stop` the samples strictly increase. */
  lemma LinspaceStrictlyIncreasing(start: real, stop: real, num: nat, j: nat, k: nat)
    requires start < stop
    requires j < k < num
    ensures Linspace(start, stop, num)[j] < Linspace(start, stop, num)[k]
  {
    assert num >= 2;
    var h := Step(start, stop, num);
    assert h > 0.0;
    assert (k as real) * h - (j as real) * h == ((k - j) as real) * h;
    MulPos((k - j) as real, h);
  }

  /** Every sample lies between the two endpoints, in whichever order they come. */
  lemma LinspaceWithin(start: real, stop: real, num: nat, k: nat)
    requires k < num
    ensures Min(start, stop) <= Linspace(start, stop, num)[k] <= Max(start, stop)
  {
    if num >= 2 {
      var d := (num - 1) as real;
      var h := Step(start, stop, num);
      var f := (k as real) / d;
      assert 0.0 <= f <= 1.0;
      assert (k as real) * h == f * (stop - start);
      assert Linspace(start, stop, num)[k] == start + f * (stop - start);
      assert start + 1.0 * (stop - start) == stop;
      if start <= stop {
        MulNonneg(f, stop - start);
        MulNonneg(1.0 - f, stop - start);
      } else {
        MulNonneg(f, start - stop);
        MulNonneg(1.0 - f, start - stop);
      }
    }
  }

  /** Samples between two positive endpoints are positive. */
  lemma LinspacePositive(start: real, stop: real, num: nat)
    requires start > 0.0 && stop > 0.0
    ensures forall k :: 0 <= k < num ==> Linspace(start, stop, num)[k] > 0.0
  {
    forall k | 0 <= k < num
      ensures Linspace(start, stop, num)[k] > 0.0
    {
      LinspaceWithin(start, stop, num, k);
    }
  }

  datatype Mesh = Mesh(xs: Grid, ys: Grid)

  /** `np.meshgrid(xs, ys)`: both grids have one row per `ys` sample and one
      column per `xs` sample. */
  function Meshgrid(xs: seq<real>, ys: seq<real>): (m: Mesh)
    ensures HasShape(m.xs, |ys|, |xs|) && HasShape(m.ys, |ys|, |xs|)
    ensures forall i, j :: 0 <= i < |ys| && 0 <= j < |xs| ==> m.xs[i][j] == xs[j]
    ensures forall i, j :: 0 <= i < |ys| && 0 <= j < |xs| ==> m.ys[i][j] == ys[i]
  {
    Mesh(seq(|ys|, i => xs), seq(|ys|, i requires 0 <= i < |ys| => seq(|xs|, j => ys[i])))
  }
}
