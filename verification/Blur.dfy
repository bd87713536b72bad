/**
 The icon generator's box blur (tools/genicons/main.go): sliding-window sums
 along rows and columns, three passes in place. Coverage values are reals.
 */
module Blurs {
  import opened Common

  type Mask = array2<real>

  /** A mask's values, row by row. */
  type Grid = seq<seq<real>>

  function Clamp(v: int, lo: int, hi: int): int { if v < lo then lo else if v > hi then hi else v }

  function Row(m: Mask, y: nat): (s: seq<real>)
    requires y < m.Length0
    reads m
    ensures |s| == m.Length1 && forall x :: 0 <= x < |s| ==> s[x] == m[y, x]
  {
    seq(m.Length1, x requires 0 <= x < m.Length1 reads m => m[y, x])
  }

  function Col(m: Mask, x: nat): (s: seq<real>)
    requires x < m.Length1
    reads m
    ensures |s| == m.Length0 && forall y :: 0 <= y < |s| ==> s[y] == m[y, x]
  {
    seq(m.Length0, y requires 0 <= y < m.Length0 reads m => m[y, x])
  }

  function Cells(m: Mask): (g: Grid)
    reads m
    ensures |g| == m.Length0 && forall y :: 0 <= y < |g| ==> g[y] == Row(m, y)
  {
    seq(m.Length0, y requires 0 <= y < m.Length0 reads m => Row(m, y))
  }

  /** The sum of line at lo up to but excluding hi; positions beyond either end count as that end. */
  function Window(line: seq<real>, lo: int, hi: int): real
    requires line != []
    decreases hi - lo
  {
    if lo >= hi then 0.0 else Window(line, lo, hi - 1) + line[Clamp(hi - 1, 0, |line| - 1)]
  }

  /** The mean of the 2r+1 values around position i. */
  function Mean(line: seq<real>, r: nat, i: int): real
    requires line != []
  {
    Window(line, i - r, i + r + 1) / (2 * r + 1) as real
  }

  predicate Rect(g: Grid, w: nat) { forall y :: 0 <= y < |g| ==> |g[y]| == w }

  function ColumnOf(g: Grid, x: nat): (s: seq<real>)
    requires forall y :: 0 <= y < |g| ==> x < |g[y]|
    ensures |s| == |g| && forall y :: 0 <= y < |s| ==> s[y] == g[y][x]
  {
    seq(|g|, y requires 0 <= y < |g| => g[y][x])
  }

  /** Every row averaged. */
  function AcrossRows(g: Grid, w: nat, r: nat): (b: Grid)
    requires Rect(g, w)
    ensures |b| == |g| && Rect(b, w)
    ensures forall y, x :: 0 <= y < |g| && 0 <= x < w ==> b[y][x] == Mean(g[y], r, x)
  {
    seq(|g|, y requires 0 <= y < |g| => seq(w, x requires 0 <= x < w => Mean(g[y], r, x)))
  }

  /** Every column averaged. */
  function DownColumns(g: Grid, w: nat, r: nat): (b: Grid)
    requires Rect(g, w)
    ensures |b| == |g| && Rect(b, w)
    ensures forall y, x :: 0 <= y < |g| && 0 <= x < w ==> b[y][x] == Mean(ColumnOf(g, x), r, y)
  {
    seq(|g|, y requires 0 <= y < |g| => seq(w, x requires 0 <= x < w => Mean(ColumnOf(g, x), r, y)))
  }

  function Passes(g: Grid, w: nat, r: nat, n: nat): (b: Grid)
    requires Rect(g, w)
    ensures |b| == |g| && Rect(b, w)
  {
    if n == 0 then g else DownColumns(AcrossRows(Passes(g, w, r, n - 1), w, r), w, r)
  }

  lemma {:induction false} WindowFront(line: seq<real>, lo: int, hi: int)
    requires line != [] && lo < hi
    ensures Window(line, lo, hi) == line[Clamp(lo, 0, |line| - 1)] + Window(line, lo + 1, hi)
    decreases hi - lo
  {
    if lo + 1 < hi { WindowFront(line, lo, hi - 1); }
  }

  /** Sliding the window by one: add the value that enters, subtract the one that leaves. */
  lemma WindowSlides(line: seq<real>, lo: int, hi: int)
    requires line != [] && lo < hi
    ensures Window(line, lo + 1, hi + 1) ==
            Window(line, lo, hi) + (line[Clamp(hi, 0, |line| - 1)] - line[Clamp(lo, 0, |line| - 1)])
  {
    WindowFront(line, lo, hi);
  }

  /** boxH. */
  method BoxH(src: Mask, dst: Mask, r: nat)
    requires src != dst && src.Length0 == dst.Length0 && src.Length1 == dst.Length1
    requires src.Length0 > 0 ==> src.Length1 > 0
    modifies dst
    ensures forall y, x :: 0 <= y < dst.Length0 && 0 <= x < dst.Length1 ==> dst[y, x] == Mean(Row(src, y), r, x)
  {
    var h, w := src.Length0, src.Length1;
    for y := 0 to h
      invariant forall j, i :: 0 <= j < y && 0 <= i < w ==> dst[j, i] == Mean(Row(src, j), r, i)
    {
      ghost var line := Row(src, y);
      var sum := 0.0;
      for x := -(r as int) to r + 1
        invariant sum == Window(line, -(r as int), x)
      {
        sum := sum + src[y, Clamp(x, 0, w - 1)];
      }
      for x := 0 to w
        invariant sum == Window(line, x - r, x + r + 1)
        invariant forall j, i :: 0 <= j < y && 0 <= i < w ==> dst[j, i] == Mean(Row(src, j), r, i)
        invariant forall i :: 0 <= i < x ==> dst[y, i] == Mean(line, r, i)
      {
        dst[y, x] := sum / (2 * r + 1) as real;
        var leaving := Clamp(x - r, 0, w - 1);
        var entering := Clamp(x + r + 1, 0, w - 1);
        WindowSlides(line, x - r, x + r + 1);
        sum := sum + (src[y, entering] - src[y, leaving]);
      }
    }
  }

  /** boxV. */
  method BoxV(src: Mask, dst: Mask, r: nat)
    requires src != dst && src.Length0 == dst.Length0 && src.Length1 == dst.Length1
    requires src.Length1 > 0 ==> src.Length0 > 0
    modifies dst
    ensures forall y, x :: 0 <= y < dst.Length0 && 0 <= x < dst.Length1 ==> dst[y, x] == Mean(Col(src, x), r, y)
  {
    var h, w := src.Length0, src.Length1;
    for x := 0 to w
      invariant forall j, i :: 0 <= j < h && 0 <= i < x ==> dst[j, i] == Mean(Col(src, i), r, j)
    {
      ghost var line := Col(src, x);
      var sum := 0.0;
      for y := -(r as int) to r + 1
        invariant sum == Window(line, -(r as int), y)
      {
        sum := sum + src[Clamp(y, 0, h - 1), x];
      }
      for y := 0 to h
        invariant sum == Window(line, y - r, y + r + 1)
        invariant forall j, i :: 0 <= j < h && 0 <= i < x ==> dst[j, i] == Mean(Col(src, i), r, j)
        invariant forall j :: 0 <= j < y ==> dst[j, x] == Mean(line, r, j)
      {
        dst[y, x] := sum / (2 * r + 1) as real;
        var leaving := Clamp(y - r, 0, h - 1);
        var entering := Clamp(y + r + 1, 0, h - 1);
        WindowSlides(line, y - r, y + r + 1);
        sum := sum + (src[entering, x] - src[leaving, x]);
      }
    }
  }

  /** math.Round: to the nearest integer, halves away from zero. */
  function Round(v: real): int { if v >= 0.0 then (v + 0.5).Floor else -(0.5 - v).Floor }

  lemma RowsAveraged(src: Mask, dst: Mask, r: nat)
    requires src.Length0 == dst.Length0 && src.Length1 == dst.Length1
    requires forall y, x :: 0 <= y < dst.Length0 && 0 <= x < dst.Length1 ==> dst[y, x] == Mean(Row(src, y), r, x)
    ensures Cells(dst) == AcrossRows(Cells(src), src.Length1, r)
  {
    forall y | 0 <= y < dst.Length0 ensures Cells(dst)[y] == AcrossRows(Cells(src), src.Length1, r)[y] {
    }
  }

  lemma ColumnsAveraged(src: Mask, dst: Mask, r: nat)
    requires src.Length0 == dst.Length0 && src.Length1 == dst.Length1
    requires forall y, x :: 0 <= y < dst.Length0 && 0 <= x < dst.Length1 ==> dst[y, x] == Mean(Col(src, x), r, y)
    ensures Cells(dst) == DownColumns(Cells(src), src.Length1, r)
  {
    forall y | 0 <= y < dst.Length0 ensures Cells(dst)[y] == DownColumns(Cells(src), src.Length1, r)[y] {
      forall x | 0 <= x < dst.Length1 ensures Col(src, x) == ColumnOf(Cells(src), x) {
      }
    }
  }

  /** blur: in place, three passes; a radius that rounds to zero or less leaves the mask alone. */
  method Blur(src: Mask, radius: real) returns (cur: Mask)
    requires (src.Length0 > 0 <==> src.Length1 > 0) || Round(radius) <= 0
    modifies src
    ensures cur == src
    ensures Cells(src) ==
            if Round(radius) <= 0 then old(Cells(src))
            else Passes(old(Cells(src)), src.Length1, Round(radius), 3)
  {
    cur := src;
    var r := Round(radius);
    if r <= 0 {
      return;
    }
    var tmp := new real[src.Length0, src.Length1];
    ghost var start := Cells(src);
    for pass := 0 to 3
      invariant Cells(cur) == Passes(start, src.Length1, r, pass)
      modifies src, tmp
    {
      BoxH(cur, tmp, r);
      RowsAveraged(cur, tmp, r);
      BoxV(tmp, cur, r);
      ColumnsAveraged(tmp, cur, r);
    }
  }

  predicate Within(line: seq<real>, lo: real, hi: real) { forall i :: 0 <= i < |line| ==> lo <= line[i] <= hi }

  predicate GridWithin(g: Grid, lo: real, hi: real) { forall y :: 0 <= y < |g| ==> Within(g[y], lo, hi) }

  /** n * v, by repeated addition. */
  function Copies(n: nat, v: real): real { if n == 0 then 0.0 else Copies(n - 1, v) + v }

  lemma {:induction false} CopiesIsProduct(n: nat, v: real)
    ensures Copies(n, v) == n as real * v
  {
    if n > 0 {
      CopiesIsProduct(n - 1, v);
      assert n as real == (n - 1) as real + 1.0;
      Distribute((n - 1) as real, v);
    }
  }

  lemma Distribute(n: real, v: real)
    ensures (n + 1.0) * v == n * v + v
  {
  }

  lemma {:induction false} WindowWithin(line: seq<real>, lo: real, hi: real, a: int, b: int)
    requires line != [] && Within(line, lo, hi) && a <= b
    ensures Copies(b - a, lo) <= Window(line, a, b) <= Copies(b - a, hi)
    decreases b - a
  {
    if a < b {
      WindowWithin(line, lo, hi, a, b - 1);
    }
  }

  lemma MeanWithin(line: seq<real>, lo: real, hi: real, r: nat, i: int)
    requires line != [] && Within(line, lo, hi)
    ensures lo <= Mean(line, r, i) <= hi
  {
    WindowWithin(line, lo, hi, i - r, i + r + 1);
    DivideBounds(Window(line, i - r, i + r + 1), 2 * r + 1, lo, hi);
  }

  lemma DivideBounds(s: real, k: nat, lo: real, hi: real)
    requires k > 0 && Copies(k, lo) <= s <= Copies(k, hi)
    ensures lo <= s / k as real <= hi
  {
    var n := k as real;
    var q := s / n;
    assert q * n == s;
    CopiesIsProduct(k, lo);
    CopiesIsProduct(k, hi);
    assert (q - lo) * n == q * n - lo * n && (hi - q) * n == hi * n - q * n;
    Positive(q - lo, n);
    Positive(hi - q, n);
  }

  lemma Positive(a: real, n: real)
    requires n > 0.0
    ensures a * n >= 0.0 ==> a >= 0.0
  {
  }

  lemma AcrossWithin(g: Grid, w: nat, r: nat, lo: real, hi: real)
    requires Rect(g, w) && GridWithin(g, lo, hi)
    ensures GridWithin(AcrossRows(g, w, r), lo, hi)
  {
    forall y, x | 0 <= y < |g| && 0 <= x < w ensures lo <= AcrossRows(g, w, r)[y][x] <= hi {
      assert Within(g[y], lo, hi);
      MeanWithin(g[y], lo, hi, r, x);
    }
  }

  lemma DownWithin(g: Grid, w: nat, r: nat, lo: real, hi: real)
    requires Rect(g, w) && GridWithin(g, lo, hi)
    ensures GridWithin(DownColumns(g, w, r), lo, hi)
  {
    forall y, x | 0 <= y < |g| && 0 <= x < w ensures lo <= DownColumns(g, w, r)[y][x] <= hi {
      forall j | 0 <= j < |g| ensures lo <= ColumnOf(g, x)[j] <= hi { assert Within(g[j], lo, hi); }
      MeanWithin(ColumnOf(g, x), lo, hi, r, y);
    }
  }

  /** Blurring keeps every value between the smallest and the largest of the source. */
  lemma {:induction false} BlurStaysWithin(g: Grid, w: nat, r: nat, n: nat, lo: real, hi: real)
    requires Rect(g, w) && GridWithin(g, lo, hi)
    ensures GridWithin(Passes(g, w, r, n), lo, hi)
  {
    if n > 0 {
      BlurStaysWithin(g, w, r, n - 1, lo, hi);
      AcrossWithin(Passes(g, w, r, n - 1), w, r, lo, hi);
      DownWithin(AcrossRows(Passes(g, w, r, n - 1), w, r), w, r, lo, hi);
    }
  }

  /**
   The sum over a rectangle of rows a up to b and columns lo up to hi, positions
   beyond an edge counting as that edge.
   */
  function Box(g: Grid, w: nat, a: int, b: int, lo: int, hi: int): real
    requires g != [] && w > 0 && Rect(g, w)
    decreases b - a
  {
    if a >= b then 0.0 else Box(g, w, a, b - 1, lo, hi) + Window(g[Clamp(b - 1, 0, |g| - 1)], lo, hi)
  }

  lemma {:induction false} ColumnOfMeans(g: Grid, w: nat, r: nat, x: nat, a: int, b: int)
    requires g != [] && x < w && Rect(g, w) && a <= b
    ensures Window(ColumnOf(AcrossRows(g, w, r), x), a, b) == Box(g, w, a, b, x - r, x + r + 1) / (2 * r + 1) as real
    decreases b - a
  {
    if a < b {
      ColumnOfMeans(g, w, r, x, a, b - 1);
      var j := Clamp(b - 1, 0, |g| - 1);
      assert ColumnOf(AcrossRows(g, w, r), x)[j] == Mean(g[j], r, x);
      DivideSum(Box(g, w, a, b - 1, x - r, x + r + 1), Window(g[j], x - r, x + r + 1), (2 * r + 1) as real);
    }
  }

  lemma DivideSum(p: real, q: real, n: real)
    requires n > 0.0
    ensures p / n + q / n == (p + q) / n
  {
  }

  /** The blur is separable: rows then columns is the mean over the square of side 2r+1. */
  lemma PassIsBoxMean(g: Grid, w: nat, r: nat, y: nat, x: nat)
    requires Rect(g, w) && y < |g| && x < w
    ensures var n := (2 * r + 1) as real;
            DownColumns(AcrossRows(g, w, r), w, r)[y][x] == Box(g, w, y - r, y + r + 1, x - r, x + r + 1) / n / n
  {
    ColumnOfMeans(g, w, r, x, y - r, y + r + 1);
  }
}
