/** Layer normalisation in SeerLib/src/Magika/MagikaModel.cpp over the reals: the in-place, one-pass
    form over the columns of a flat array and the two-pass form of the second normalisation. */
module LayerNorms {

  function Sum(xs: seq<real>): real {
    if xs == [] then 0.0 else Sum(xs[..|xs| - 1]) + xs[|xs| - 1]
  }

  function Sq(x: real): real { x * x }

  function SumSquares(xs: seq<real>): real {
    if xs == [] then 0.0 else SumSquares(xs[..|xs| - 1]) + Sq(xs[|xs| - 1])
  }

  /** The sum of squared distances from m. */
  function SumDeviations(xs: seq<real>, m: real): real {
    if xs == [] then 0.0
    else SumDeviations(xs[..|xs| - 1], m) + (xs[|xs| - 1] - m) * (xs[|xs| - 1] - m)
  }

  function Mean(xs: seq<real>): real
    requires xs != []
  {
    Sum(xs) / (|xs| as real)
  }

  /** The mean squared deviation: the definition of the variance. */
  function Variance(xs: seq<real>): real
    requires xs != []
  {
    SumDeviations(xs, Mean(xs)) / (|xs| as real)
  }

  // ---------------------------------------------------------------- a little algebra

  lemma Distribute(a: real, b: real, c: real)
    ensures a * (b + c) == a * b + a * c
  {
  }

  lemma OneMore(n: real, q: real)
    ensures (n + 1.0) * q == n * q + q
  {
  }

  lemma Square(x: real, m: real)
    ensures (x - m) * (x - m) == x * x - 2.0 * (m * x) + m * m
  {
  }

  lemma SquareNonNegative(y: real)
    ensures y * y >= 0.0
  {
    if y < 0.0 { assert y * y == (-y) * (-y); }
  }

  lemma QuotientNonNegative(a: real, n: real)
    requires a >= 0.0 && n > 0.0
    ensures a / n >= 0.0
  {
  }

  lemma DivideThrough(a: real, b: real, n: real)
    requires n > 0.0
    ensures (a - n * b) / n == a / n - b
  {
    assert (a / n - b) * n == (a / n) * n - b * n == a - n * b;
  }

  // ---------------------------------------------------------------- the two forms of the variance

  /** The expanded sum of squared distances. */
  ghost predicate Expanded(dev: real, sq: real, s: real, n: real, m: real) {
    dev == sq - 2.0 * (m * s) + n * (m * m)
  }

  lemma DeviationStep(dev: real, sq: real, s: real, n: real, m: real, x: real,
                      dev': real, sq': real, s': real, n': real)
    requires Expanded(dev, sq, s, n, m)
    requires dev' == dev + (x - m) * (x - m) && sq' == sq + Sq(x) && s' == s + x && n' == n + 1.0
    ensures Expanded(dev', sq', s', n', m)
  {
    Square(x, m);
    Distribute(m, s, x);
    OneMore(n, m * m);
  }

  lemma DeviationBase(m: real)
    ensures Expanded(0.0, 0.0, 0.0, 0.0, m)
  {
  }

  lemma {:induction false} DeviationsExpand(xs: seq<real>, m: real)
    ensures Expanded(SumDeviations(xs, m), SumSquares(xs), Sum(xs), |xs| as real, m)
  {
    if xs == [] {
      DeviationBase(m);
    } else {
      var rest := xs[..|xs| - 1];
      DeviationsExpand(rest, m);
      DeviationStep(SumDeviations(rest, m), SumSquares(rest), Sum(rest), |rest| as real, m, xs[|xs| - 1],
                    SumDeviations(xs, m), SumSquares(xs), Sum(xs), |xs| as real);
    }
  }

  lemma {:induction false} DeviationsNonNegative(xs: seq<real>, m: real)
    ensures SumDeviations(xs, m) >= 0.0
  {
    if xs != [] {
      SquareNonNegative(xs[|xs| - 1] - m);
      DeviationsNonNegative(xs[..|xs| - 1], m);
    }
  }

  lemma MeanTimesLength(xs: seq<real>)
    requires xs != []
    ensures Sum(xs) == (|xs| as real) * Mean(xs)
  {
  }

  lemma Commute3(m: real, n: real)
    ensures m * (n * m) == n * (m * m)
  {
  }

  /** E[x^2] - E[x]^2. */
  function OnePass(squares: real, n: real, mean: real): real
    requires n > 0.0
  {
    squares / n - mean * mean
  }

  /** The fast form equals the simple one: E[x^2] - E[x]^2 is the mean squared deviation, it is never
      negative, and so the clamp at zero changes nothing. */
  lemma OnePassIsTwoPass(xs: seq<real>)
    requires xs != []
    ensures OnePass(SumSquares(xs), |xs| as real, Mean(xs)) == Variance(xs) >= 0.0
  {
    DeviationsExpand(xs, Mean(xs));
    DeviationsNonNegative(xs, Mean(xs));
    TwoForms(SumDeviations(xs, Mean(xs)), SumSquares(xs), Sum(xs), |xs| as real, Mean(xs), Variance(xs));
  }

  lemma TwoForms(dev: real, sq: real, s: real, n: real, m: real, v: real)
    requires Expanded(dev, sq, s, n, m) && dev >= 0.0
    requires n > 0.0 && m == s / n && v == dev / n
    ensures OnePass(sq, n, m) == v >= 0.0
  {
    assert s == n * m;
    Commute3(m, n);
    DivideThrough(sq, m * m, n);
    QuotientNonNegative(dev, n);
  }

  // ---------------------------------------------------------------- the flat array

  /** Where row s starts in a row-major array with dim columns: s * dim. */
  function RowStart(s: nat, dim: nat): nat {
    if s == 0 then 0 else RowStart(s - 1, dim) + dim
  }

  lemma {:induction false} RowStartIsProduct(s: nat, dim: nat)
    ensures RowStart(s, dim) == s * dim
  {
    if s > 0 { RowStartIsProduct(s - 1, dim); }
  }

  lemma {:induction false} RowsFit(s: nat, rows: nat, dim: nat)
    requires s < rows
    ensures RowStart(s, dim) + dim <= RowStart(rows, dim)
    decreases rows - s
  {
    if s + 1 < rows { RowsFit(s + 1, rows, dim); }
  }

  function Column(data: seq<real>, rows: nat, dim: nat, d: nat): (c: seq<real>)
    requires d < dim && RowStart(rows, dim) <= |data|
    ensures |c| == rows
    decreases rows
  {
    if rows == 0 then []
    else Column(data, rows - 1, dim, d) + [data[RowStart(rows - 1, dim) + d]]
  }

  lemma {:induction false} ColumnEntries(data: seq<real>, rows: nat, dim: nat, d: nat, s: nat)
    requires d < dim && RowStart(rows, dim) <= |data| && s < rows
    ensures RowStart(s, dim) + d < |data| && Column(data, rows, dim, d)[s] == data[RowStart(s, dim) + d]
  {
    if s < rows - 1 { ColumnEntries(data, rows - 1, dim, d, s); }
  }

  lemma ColumnStep(data: seq<real>, rows: nat, dim: nat, d: nat)
    requires d < dim && RowStart(rows + 1, dim) <= |data|
    ensures var c, x := Column(data, rows, dim, d), data[RowStart(rows, dim) + d];
            && Sum(Column(data, rows + 1, dim, d)) == Sum(c) + x
            && SumSquares(Column(data, rows + 1, dim, d)) == SumSquares(c) + Sq(x)
  {
    var c := Column(data, rows + 1, dim, d);
    assert c[..rows] == Column(data, rows, dim, d);
  }

  /** The sums and sums of squares of the first `rows` rows, per column. */
  ghost predicate Accumulated(data: seq<real>, rows: nat, dim: nat, sums: seq<real>, squares: seq<real>)
    requires RowStart(rows, dim) <= |data|
  {
    && |sums| == |squares| == dim
    && forall d :: 0 <= d < dim ==>
         && sums[d] == Sum(Column(data, rows, dim, d))
         && squares[d] == SumSquares(Column(data, rows, dim, d))
  }

  /** The entries of the row that starts at `base` have been added, column by column. */
  ghost predicate RowAdded(data: seq<real>, base: nat, sums: seq<real>, squares: seq<real>, sums': seq<real>, squares': seq<real>)
  {
    && base + |sums| <= |data| && |sums| == |squares| == |sums'| == |squares'|
    && (forall d :: 0 <= d < |sums| ==> sums'[d] == sums[d] + data[base + d])
    && (forall d :: 0 <= d < |sums| ==> squares'[d] == squares[d] + Sq(data[base + d]))
  }

  lemma AccumulateEntry(data: seq<real>, s: nat, dim: nat, d: nat, x: real, sum: real, square: real)
    requires d < dim && RowStart(s + 1, dim) <= |data| && x == data[RowStart(s, dim) + d]
    requires sum == Sum(Column(data, s, dim, d)) && square == SumSquares(Column(data, s, dim, d))
    ensures sum + x == Sum(Column(data, s + 1, dim, d)) && square + Sq(x) == SumSquares(Column(data, s + 1, dim, d))
  {
    ColumnStep(data, s, dim, d);
  }

  lemma AccumulateRow(data: seq<real>, s: nat, dim: nat, sums: seq<real>, squares: seq<real>, sums': seq<real>, squares': seq<real>)
    requires RowStart(s + 1, dim) <= |data| && Accumulated(data, s, dim, sums, squares)
    requires RowAdded(data, RowStart(s, dim), sums, squares, sums', squares')
    ensures Accumulated(data, s + 1, dim, sums', squares')
  {
    forall d | 0 <= d < dim
      ensures sums'[d] == Sum(Column(data, s + 1, dim, d)) && squares'[d] == SumSquares(Column(data, s + 1, dim, d))
    {
      AccumulateEntry(data, s, dim, d, data[RowStart(s, dim) + d], sums[d], squares[d]);
    }
  }

  /** The inner accumulation loop. */
  method AddRow(data: array<real>, base: nat, mean: array<real>, square: array<real>)
    requires base + mean.Length <= data.Length && mean.Length == square.Length
    requires mean != square && data != mean && data != square
    modifies mean, square
    ensures RowAdded(data[..], base, old(mean[..]), old(square[..]), mean[..], square[..])
  {
    for d := 0 to mean.Length
      invariant forall e :: 0 <= e < d ==> mean[e] == old(mean[e]) + data[base + e]
      invariant forall e :: 0 <= e < d ==> square[e] == old(square[e]) + Sq(data[base + e])
      invariant forall e :: d <= e < mean.Length ==> mean[e] == old(mean[e]) && square[e] == old(square[e])
    {
      var v := data[base + d];
      mean[d] := mean[d] + v;
      square[d] := square[d] + Sq(v);
    }
  }

  /** Both accumulation loops. */
  method Accumulate(data: array<real>, rows: nat, dim: nat) returns (mean: array<real>, square: array<real>)
    requires data.Length == RowStart(rows, dim)
    ensures fresh(mean) && fresh(square) && mean != square
    ensures Accumulated(data[..], rows, dim, mean[..], square[..])
  {
    mean := new real[dim](_ => 0.0);
    square := new real[dim](_ => 0.0);
    var s := 0;
    while s < rows
      invariant s <= rows && RowStart(s, dim) <= data.Length
      invariant Accumulated(data[..], s, dim, mean[..], square[..])
    {
      RowsFit(s, rows, dim);
      ghost var m, q := mean[..], square[..];
      AddRow(data, RowStart(s, dim), mean, square);
      AccumulateRow(data[..], s, dim, m, q, mean[..], square[..]);
      s := s + 1;
    }
  }

  // ---------------------------------------------------------------- the two normalisations

  /** The statistics of one column as the source computes them from its sums: the mean, and the
      inverse standard deviation of the clamped one-pass variance. */
  function MeanOf(sum: real, inv: real): real { sum * inv }

  function VarianceOf(sum: real, square: real, inv: real): real {
    square * inv - MeanOf(sum, inv) * MeanOf(sum, inv)
  }

  function Clamp(v: real): (r: real)
    ensures r >= 0.0 && r >= v && (r == v || r == 0.0)
  {
    if v < 0.0 then 0.0 else v
  }

  lemma TimesInverse(a: real, n: real)
    requires n > 0.0
    ensures a * (1.0 / n) == a / n
  {
  }

  /** They are the mean and the two-pass variance: the clamp never acts. */
  lemma ColumnStatistics(column: seq<real>, inv: real)
    requires column != [] && inv == 1.0 / (|column| as real)
    ensures MeanOf(Sum(column), inv) == Mean(column)
    ensures Clamp(VarianceOf(Sum(column), SumSquares(column), inv)) == Variance(column)
  {
    OnePassIsTwoPass(column);
    Scaled(Sum(column), SumSquares(column), |column| as real, inv, Mean(column), Variance(column));
  }

  lemma Scaled(sum: real, square: real, n: real, inv: real, m: real, v: real)
    requires n > 0.0 && inv == 1.0 / n && m == sum / n && OnePass(square, n, m) == v
    ensures MeanOf(sum, inv) == m && VarianceOf(sum, square, inv) == v
  {
    TimesInverse(sum, n);
    TimesInverse(square, n);
  }

  /** Per column, the statistics the source computes from the sums. */
  ghost predicate Finished(sums: seq<real>, squares: seq<real>, inv: real, rstd: real -> real, means: seq<real>, rstds: seq<real>)
  {
    && |sums| == |squares| == |means| == |rstds|
    && (forall d :: 0 <= d < |sums| ==> means[d] == MeanOf(sums[d], inv))
    && (forall d :: 0 <= d < |sums| ==> rstds[d] == rstd(Clamp(VarianceOf(sums[d], squares[d], inv))))
  }

  /** The loop that turns sums into means and inverse standard deviations, in place. */
  method FinishColumns(mean: array<real>, square: array<real>, inv: real, rstd: real -> real)
    requires mean != square && mean.Length == square.Length
    modifies mean, square
    ensures Finished(old(mean[..]), old(square[..]), inv, rstd, mean[..], square[..])
  {
    for d := 0 to mean.Length
      invariant forall e :: d <= e < mean.Length ==> mean[e] == old(mean[e]) && square[e] == old(square[e])
      invariant forall e :: 0 <= e < d ==> mean[e] == MeanOf(old(mean[e]), inv)
      invariant forall e :: 0 <= e < d ==> square[e] == rstd(Clamp(VarianceOf(old(mean[e]), old(square[e]), inv)))
    {
      var sum := mean[d];
      mean[d] := MeanOf(sum, inv);
      square[d] := rstd(Clamp(VarianceOf(sum, square[d], inv)));
    }
  }

  /** Per column, its mean and the inverse standard deviation of its two-pass variance. */
  ghost predicate Measured(data: seq<real>, rows: nat, dim: nat, rstd: real -> real, means: seq<real>, rstds: seq<real>)
    requires rows >= 1 && RowStart(rows, dim) <= |data|
  {
    && |means| == |rstds| == dim
    && (forall d :: 0 <= d < dim ==> means[d] == Mean(Column(data, rows, dim, d)))
    && (forall d :: 0 <= d < dim ==> rstds[d] == rstd(Variance(Column(data, rows, dim, d))))
  }

  lemma FinishedIsMeasured(data: seq<real>, rows: nat, dim: nat, inv: real, rstd: real -> real,
                           sums: seq<real>, squares: seq<real>, means: seq<real>, rstds: seq<real>)
    requires rows >= 1 && RowStart(rows, dim) <= |data| && inv == 1.0 / (rows as real)
    requires Accumulated(data, rows, dim, sums, squares) && Finished(sums, squares, inv, rstd, means, rstds)
    ensures Measured(data, rows, dim, rstd, means, rstds)
  {
    forall d | 0 <= d < dim
      ensures means[d] == Mean(Column(data, rows, dim, d)) && rstds[d] == rstd(Variance(Column(data, rows, dim, d)))
    {
      ColumnStatistics(Column(data, rows, dim, d), inv);
    }
  }

  /** One entry of the output. */
  function Entry(x: real, mean: real, rstd: real, scale: real, bias: real): real {
    (x - mean) * rstd * scale + bias
  }

  /** Scale and bias said outright: a value at the mean becomes the bias, and two values normalised alike
      keep their distance up to the factor. */
  lemma EntryIsAffine(x: real, y: real, mean: real, rstd: real, scale: real, bias: real)
    ensures Entry(mean, mean, rstd, scale, bias) == bias
    ensures Entry(x, mean, rstd, scale, bias) - Entry(y, mean, rstd, scale, bias) == (x - y) * (rstd * scale)
  {
    var f := rstd * scale;
    assert (mean - mean) * rstd * scale == 0.0;
    FactorOut(x - mean, rstd, scale);
    FactorOut(y - mean, rstd, scale);
    Distribute(f, x - mean, -(y - mean));
    assert (x - mean) - (y - mean) == x - y;
    assert f * (x - mean) + f * -(y - mean) == f * (x - mean) - f * (y - mean);
  }

  lemma FactorOut(a: real, b: real, c: real)
    ensures a * b * c == (b * c) * a
  {
  }

  /** A column normalised with unit scale and no bias. */
  function Standardised(xs: seq<real>, mean: real, rstd: real): (ys: seq<real>)
    ensures |ys| == |xs| && forall i :: 0 <= i < |xs| ==> ys[i] == Entry(xs[i], mean, rstd, 1.0, 0.0)
  {
    seq(|xs|, i requires 0 <= i < |xs| => Entry(xs[i], mean, rstd, 1.0, 0.0))
  }

  lemma StandardiseStep(s: real, n: real, m: real, r: real, x: real)
    ensures (s - n * m) * r + Entry(x, m, r, 1.0, 0.0) == ((s + x) - (n + 1.0) * m) * r
  {
    OneMore(n, m);
    Distribute(r, s - n * m, x - m);
  }

  lemma {:induction false} SumStandardised(xs: seq<real>, m: real, r: real)
    ensures Sum(Standardised(xs, m, r)) == (Sum(xs) - (|xs| as real) * m) * r
  {
    if xs != [] {
      var n := |xs| - 1;
      SumStandardised(xs[..n], m, r);
      assert Standardised(xs, m, r)[..n] == Standardised(xs[..n], m, r);
      StandardiseStep(Sum(xs[..n]), n as real, m, r, xs[n]);
      assert |xs| as real == n as real + 1.0;
    }
  }

  /** Before scale and bias, a normalised column sums to zero. */
  lemma NormalisedSumsToZero(xs: seq<real>, r: real)
    requires xs != []
    ensures Sum(Standardised(xs, Mean(xs), r)) == 0.0
  {
    SumStandardised(xs, Mean(xs), r);
    MeanTimesLength(xs);
  }

  /** The inner normalisation loop, over the row that starts at `base`. */
  method NormaliseRow(data: array<real>, base: nat, mean: array<real>, rstd: array<real>, scale: real, bias: real)
    requires base + mean.Length <= data.Length && rstd.Length == mean.Length && data != mean && data != rstd
    modifies data
    ensures RowDone(old(data[..]), data[..], base, mean[..], rstd[..], scale, bias)
    ensures forall k :: 0 <= k < data.Length && !(base <= k < base + mean.Length) ==> data[k] == old(data[k])
  {
    for d := 0 to mean.Length
      invariant forall e :: 0 <= e < d ==> data[base + e] == Entry(old(data[base + e]), mean[e], rstd[e], scale, bias)
      invariant forall k :: 0 <= k < data.Length && !(base <= k < base + d) ==> data[k] == old(data[k])
    {
      data[base + d] := Entry(data[base + d], mean[d], rstd[d], scale, bias);
    }
  }

  /** The row that starts at `base` is normalised. */
  ghost predicate RowDone(before: seq<real>, after: seq<real>, base: nat, means: seq<real>, rstds: seq<real>, scale: real, bias: real)
  {
    && |before| == |after| >= base + |means| && |means| == |rstds|
    && forall d :: 0 <= d < |means| ==> after[base + d] == Entry(before[base + d], means[d], rstds[d], scale, bias)
  }

  /** Rows [0, done) are normalised, the others are as before. */
  ghost predicate RowsDone(before: seq<real>, after: seq<real>, done: nat, dim: nat,
                           means: seq<real>, rstds: seq<real>, scale: seq<real>, bias: seq<real>)
  {
    && |before| == |after| >= RowStart(done, dim) && |means| == |rstds| == dim && done <= |scale| && done <= |bias|
    && (forall s :: 0 <= s < done ==> RowDone(before, after, RowStart(s, dim), means, rstds, scale[s], bias[s]))
    && (forall k :: RowStart(done, dim) <= k < |after| ==> after[k] == before[k])
  }

  lemma RowUndisturbed(before: seq<real>, mid: seq<real>, after: seq<real>, base: nat, end: nat,
                       means: seq<real>, rstds: seq<real>, scale: real, bias: real)
    requires RowDone(before, mid, base, means, rstds, scale, bias) && base + |means| <= end && |after| == |mid|
    requires forall k :: 0 <= k < |mid| && k < end ==> after[k] == mid[k]
    ensures RowDone(before, after, base, means, rstds, scale, bias)
  {
  }

  lemma OneMoreRow(before: seq<real>, mid: seq<real>, after: seq<real>, done: nat, dim: nat,
                   means: seq<real>, rstds: seq<real>, scale: seq<real>, bias: seq<real>)
    requires RowsDone(before, mid, done, dim, means, rstds, scale, bias) && done < |scale| && done < |bias|
    requires RowDone(mid, after, RowStart(done, dim), means, rstds, scale[done], bias[done])
    requires forall k :: 0 <= k < |mid| && !(RowStart(done, dim) <= k < RowStart(done, dim) + dim) ==> after[k] == mid[k]
    ensures RowsDone(before, after, done + 1, dim, means, rstds, scale, bias)
  {
    forall s | 0 <= s < done ensures RowDone(before, after, RowStart(s, dim), means, rstds, scale[s], bias[s]) {
      RowsFit(s, done, dim);
      RowUndisturbed(before, mid, after, RowStart(s, dim), RowStart(done, dim), means, rstds, scale[s], bias[s]);
    }
  }

  /** The normalisation loops. */
  method NormaliseRows(data: array<real>, rows: nat, dim: nat, mean: array<real>, rstd: array<real>, scale: seq<real>, bias: seq<real>)
    requires data.Length == RowStart(rows, dim) && mean.Length == rstd.Length == dim && rows <= |scale| && rows <= |bias|
    requires data != mean && data != rstd
    modifies data
    ensures RowsDone(old(data[..]), data[..], rows, dim, mean[..], rstd[..], scale, bias)
  {
    for s := 0 to rows
      invariant RowStart(s, dim) <= data.Length && RowsDone(old(data[..]), data[..], s, dim, mean[..], rstd[..], scale, bias)
    {
      RowsFit(s, rows, dim);
      ghost var mid := data[..];
      NormaliseRow(data, RowStart(s, dim), mean, rstd, scale[s], bias[s]);
      OneMoreRow(old(data[..]), mid, data[..], s, dim, mean[..], rstd[..], scale, bias);
    }
  }

  /** Entry (s, d) is centred on the mean of its column, divided by the standard deviation of its column
      (two-pass variance; `rstd` maps a variance to 1 / sqrt(variance + eps)), then scaled and shifted
      by its row. */
  ghost predicate NormedAt(before: seq<real>, after: seq<real>, rows: nat, dim: nat,
                           rstd: real -> real, s: nat, d: nat, scale: real, bias: real)
    requires s < rows && d < dim && RowStart(rows, dim) <= |before|
  {
    var c := Column(before, rows, dim, d);
    && RowStart(s, dim) + d < |after|
    && after[RowStart(s, dim) + d] == Entry(c[s], Mean(c), rstd(Variance(c)), scale, bias)
  }

  ghost predicate LayerNormed(before: seq<real>, after: seq<real>, rows: nat, dim: nat,
                              rstd: real -> real, scale: seq<real>, bias: seq<real>)
    requires RowStart(rows, dim) <= |before| && rows <= |scale| && rows <= |bias|
  {
    forall s, d :: 0 <= s < rows && 0 <= d < dim ==> NormedAt(before, after, rows, dim, rstd, s, d, scale[s], bias[s])
  }

  lemma EntryIsNormed(before: seq<real>, after: seq<real>, rows: nat, dim: nat, rstd: real -> real,
                      means: seq<real>, rstds: seq<real>, s: nat, d: nat, scale: real, bias: real)
    requires s < rows && d < dim && RowStart(rows, dim) <= |before|
    requires Measured(before, rows, dim, rstd, means, rstds)
    requires RowDone(before, after, RowStart(s, dim), means, rstds, scale, bias)
    ensures NormedAt(before, after, rows, dim, rstd, s, d, scale, bias)
  {
    ColumnEntries(before, rows, dim, d, s);
  }

  lemma DoneIsNormed(before: seq<real>, after: seq<real>, rows: nat, dim: nat, rstd: real -> real,
                     means: seq<real>, rstds: seq<real>, scale: seq<real>, bias: seq<real>)
    requires rows >= 1 && |before| == RowStart(rows, dim) && RowsDone(before, after, rows, dim, means, rstds, scale, bias)
    requires Measured(before, rows, dim, rstd, means, rstds)
    ensures LayerNormed(before, after, rows, dim, rstd, scale, bias)
  {
    forall s, d | 0 <= s < rows && 0 <= d < dim
      ensures NormedAt(before, after, rows, dim, rstd, s, d, scale[s], bias[s])
    {
      EntryIsNormed(before, after, rows, dim, rstd, means, rstds, s, d, scale[s], bias[s]);
    }
  }

  /** The same in flat indices: entry s * dim + d holds the normalised value of what it held before. */
  lemma NormedFlat(before: seq<real>, after: seq<real>, rows: nat, dim: nat, rstd: real -> real,
                   scale: seq<real>, bias: seq<real>, s: nat, d: nat)
    requires RowStart(rows, dim) <= |before| && s < rows <= |scale| && rows <= |bias| && d < dim
    requires LayerNormed(before, after, rows, dim, rstd, scale, bias)
    ensures s * dim + d < |after| && s * dim + d < |before|
    ensures var c := Column(before, rows, dim, d);
            after[s * dim + d] == Entry(before[s * dim + d], Mean(c), rstd(Variance(c)), scale[s], bias[s])
  {
    RowStartIsProduct(s, dim);
    ColumnEntries(before, rows, dim, d, s);
    assert NormedAt(before, after, rows, dim, rstd, s, d, scale[s], bias[s]);
  }

  lemma {:induction false} ColumnFrom(data: seq<real>, rows: nat, dim: nat, d: nat, ys: seq<real>)
    requires d < dim && RowStart(rows, dim) <= |data| && |ys| == rows
    requires forall s :: 0 <= s < rows ==> RowStart(s, dim) + d < |data| && data[RowStart(s, dim) + d] == ys[s]
    ensures Column(data, rows, dim, d) == ys
  {
    forall s | 0 <= s < rows ensures Column(data, rows, dim, d)[s] == ys[s] { ColumnEntries(data, rows, dim, d, s); }
  }

  /** With unit scale and no bias, every column of the array that layerNorm leaves sums to zero. */
  lemma NormalisedColumnSumsToZero(before: seq<real>, after: seq<real>, rows: nat, dim: nat, rstd: real -> real,
                                   scale: seq<real>, bias: seq<real>, d: nat)
    requires rows >= 1 && d < dim && RowStart(rows, dim) <= |before| == |after| && rows <= |scale| && rows <= |bias|
    requires LayerNormed(before, after, rows, dim, rstd, scale, bias)
    requires forall s :: 0 <= s < rows ==> scale[s] == 1.0 && bias[s] == 0.0
    ensures Sum(Column(after, rows, dim, d)) == 0.0
  {
    var c := Column(before, rows, dim, d);
    var ys := Standardised(c, Mean(c), rstd(Variance(c)));
    forall s | 0 <= s < rows ensures RowStart(s, dim) + d < |after| && after[RowStart(s, dim) + d] == ys[s] {
      assert NormedAt(before, after, rows, dim, rstd, s, d, scale[s], bias[s]);
    }
    ColumnFrom(after, rows, dim, d, ys);
    NormalisedSumsToZero(c, rstd(Variance(c)));
  }

  /** The first two parts of layerNorm: the statistics of every column. */
  method Measure(data: array<real>, rows: nat, dim: nat, rstd: real -> real) returns (mean: array<real>, inv: array<real>)
    requires rows >= 1 && data.Length == RowStart(rows, dim)
    ensures fresh(mean) && fresh(inv) && mean.Length == inv.Length == dim
    ensures Measured(data[..], rows, dim, rstd, mean[..], inv[..])
  {
    var invSeq := 1.0 / (rows as real);
    mean, inv := Accumulate(data, rows, dim);
    ghost var xs, sums, squares := data[..], mean[..], inv[..];
    FinishColumns(mean, inv, invSeq, rstd);
    FinishedIsMeasured(xs, rows, dim, invSeq, rstd, sums, squares, mean[..], inv[..]);
  }

  /** layerNorm: per-column statistics in one pass over a rows x dim array, then in-place normalisation. */
  method LayerNorm(data: array<real>, scale: seq<real>, bias: seq<real>, rows: nat, dim: nat, rstd: real -> real)
    requires rows >= 1 && data.Length == rows * dim && rows <= |scale| && rows <= |bias|
    modifies data
    ensures RowStart(rows, dim) == data.Length
    ensures LayerNormed(old(data[..]), data[..], rows, dim, rstd, scale, bias)
  {
    RowStartIsProduct(rows, dim);
    ghost var before := data[..];
    var mean, inv := Measure(data, rows, dim, rstd);
    NormaliseRows(data, rows, dim, mean, inv, scale, bias);
    DoneIsNormed(before, data[..], rows, dim, rstd, mean[..], inv[..], scale, bias);
  }

  /** The sum and, around m, the sum of squared distances of an array, by the two passes of LayerNorm1. */
  method TwoPass(pooled: array<real>) returns (mean: real, variance: real)
    requires pooled.Length >= 1
    ensures mean == Mean(pooled[..]) && variance == Variance(pooled[..])
  {
    ghost var xs := pooled[..];
    mean := 0.0;
    for i := 0 to pooled.Length
      invariant mean == Sum(xs[..i])
    {
      assert xs[..i + 1][..i] == xs[..i];
      mean := mean + pooled[i];
    }
    assert xs[..pooled.Length] == xs;
    mean := mean / (pooled.Length as real);
    variance := 0.0;
    for i := 0 to pooled.Length
      invariant variance == SumDeviations(xs[..i], mean)
    {
      assert xs[..i + 1][..i] == xs[..i];
      var diff := pooled[i] - mean;
      variance := variance + diff * diff;
    }
    variance := variance / (pooled.Length as real);
  }

  /** The inline LayerNorm1: one vector, two passes, per-element scale and bias. */
  method LayerNorm1(pooled: array<real>, scale: seq<real>, bias: seq<real>, rstd: real -> real)
    requires pooled.Length >= 1 && pooled.Length <= |scale| && pooled.Length <= |bias|
    modifies pooled
    ensures var xs := old(pooled[..]);
            forall i :: 0 <= i < pooled.Length ==>
              pooled[i] == Entry(xs[i], Mean(xs), rstd(Variance(xs)), scale[i], bias[i])
  {
    var mean, variance := TwoPass(pooled);
    var inv := rstd(variance);
    for i := 0 to pooled.Length
      invariant forall j :: 0 <= j < i ==> pooled[j] == Entry(old(pooled[j]), mean, inv, scale[j], bias[j])
      invariant forall j :: i <= j < pooled.Length ==> pooled[j] == old(pooled[j])
    {
      pooled[i] := Entry(pooled[i], mean, inv, scale[i], bias[i]);
    }
  }
}
