/** Bar sampling and returns of finb/analyzer/process.py.

    `volume_bar` and `dollar_bar` walk the daily rows with an accumulator: each row's
    weight is added, and as soon as the accumulator reaches the threshold the row is
    selected and the accumulator restarts from zero. `compute_returns` turns a price
    column into percentage changes. */
module Bars {
  import opened Values
  import opened Statements
  import opened Weekly

  // ---------------------------------------------------------------- returns

  /** One entry of the returns column: a finite percentage, or the infinity that a
      division of a non-zero change by a zero price gives. */
  datatype Return = Pct(pct: real) | PosInf | NegInf

  /** `(p - prev) / prev * 100`, where 0/0 is NaN and `fillna(0)` turns it into 0. */
  function ReturnOf(prev: real, p: real): Return {
    if prev != 0.0 then Pct((p - prev) / prev * 100.0)
    else if p > 0.0 then PosInf
    else if p < 0.0 then NegInf
    else Pct(0.0)
  }

  /** `compute_returns(df, price_col)` (process.py:7-12): the first entry has no previous
      price, so it is NaN and filled with 0. */
  function Returns(prices: seq<real>): (r: seq<Return>)
    ensures |r| == |prices|
  {
    seq(|prices|, i requires 0 <= i < |prices| => if i == 0 then Pct(0.0) else ReturnOf(prices[i - 1], prices[i]))
  }

  /** A return compounds the previous price into the current one; a zero previous price
      gives 0 when the price stays zero and an infinity of the new price's sign otherwise. */
  lemma ReturnsCompound(prices: seq<real>, i: nat)
    requires 0 < i < |prices|
    ensures Returns(prices)[0] == Pct(0.0)
    ensures prices[i - 1] != 0.0 ==>
      Returns(prices)[i].Pct? && prices[i] == prices[i - 1] * (1.0 + Returns(prices)[i].pct / 100.0)
    ensures prices[i - 1] == 0.0 ==>
      Returns(prices)[i] == (if prices[i] > 0.0 then PosInf else if prices[i] < 0.0 then NegInf else Pct(0.0))
  {
    var prev, p := prices[i - 1], prices[i];
    if prev != 0.0 {
      var q := (p - prev) / prev;
      DivideThenMultiply(q, p - prev, prev);
      assert Returns(prices)[i] == Pct(q * 100.0);
      assert prev * (1.0 + (q * 100.0) / 100.0) == prev + q * prev;
    }
  }

  /** A price that does not move has return 0. */
  lemma ReturnsOfFlatPrices(prices: seq<real>)
    requires forall i :: 0 <= i < |prices| ==> prices[i] == prices[0]
    ensures forall i :: 0 <= i < |prices| ==> Returns(prices)[i] == Pct(0.0)
  {
    forall i | 0 < i < |prices|
      ensures Returns(prices)[i] == Pct(0.0)
    {
      var prev := prices[i - 1];
      if prev != 0.0 {
        assert prices[i] - prev == 0.0;
      }
    }
  }

  // ---------------------------------------------------------------- the accumulator scan

  /** The state of the sampling loop after some rows: the selected indices, the
      accumulator `ts`, and where the current (unfinished) run of rows starts. */
  datatype Scan = Scan(idx: seq<nat>, acc: real, start: nat)

  /** The loop of `volume_bar` / `dollar_bar` run over the weights `w`. */
  function ScanBars(w: seq<real>, threshold: real): (s: Scan)
    ensures s.start <= |w|
    ensures forall j :: 0 <= j < |s.idx| ==> s.idx[j] < |w|
    decreases |w|
  {
    if w == [] then Scan([], 0.0, 0)
    else
      var prev := ScanBars(w[..|w| - 1], threshold);
      var ts := prev.acc + w[|w| - 1];
      if ts >= threshold then Scan(prev.idx + [|w| - 1], 0.0, |w|)
      else Scan(prev.idx, ts, prev.start)
  }

  /** Where the run of rows that ends with selection j starts: right after the previous selection. */
  function RunStart(idx: seq<nat>, j: nat): nat
    requires j <= |idx|
  {
    if j == 0 then 0 else idx[j - 1] + 1
  }

  /** Every prefix of the run starting at row `a`, up to (not including) row `e`, weighs
      less than the threshold. */
  predicate StaysBelow(w: seq<real>, threshold: real, a: nat, e: nat) {
    a <= e <= |w| && forall b :: a < b <= e ==> Sum(w[a..b]) < threshold
  }

  /** Rows a..e form a finished run: it reaches the threshold at row e and not before. */
  predicate ClosedRun(w: seq<real>, threshold: real, a: nat, e: nat) {
    e < |w| && StaysBelow(w, threshold, a, e) && Sum(w[a..e + 1]) >= threshold
  }

  predicate RunsClosed(w: seq<real>, threshold: real, idx: seq<nat>) {
    forall j {:trigger RunStart(idx, j)} :: 0 <= j < |idx| ==> ClosedRun(w, threshold, RunStart(idx, j), idx[j])
  }

  /** The rows are cut into runs: each selected index ends a run whose weights reach the
      threshold while every shorter prefix of the run stays below it; the rows after the
      last selection stay below it at every step and make up the accumulator. */
  predicate IsBarSelection(w: seq<real>, threshold: real, s: Scan) {
    && s.start == RunStart(s.idx, |s.idx|)
    && RunsClosed(w, threshold, s.idx)
    && StaysBelow(w, threshold, s.start, |w|)
    && s.acc == Sum(w[s.start..])
  }

  /** Selected indices strictly increase. */
  lemma SelectionIncreases(w: seq<real>, threshold: real, s: Scan)
    requires IsBarSelection(w, threshold, s)
    ensures forall j :: 0 <= j < |s.idx| ==> s.idx[j] < |w|
    ensures forall i, j :: 0 <= i < j < |s.idx| ==> s.idx[i] < s.idx[j]
  {
    forall j | 0 <= j < |s.idx|
      ensures RunStart(s.idx, j) <= s.idx[j] < |w|
    {
      assert ClosedRun(w, threshold, RunStart(s.idx, j), s.idx[j]);
    }
    forall i, j | 0 <= i < j < |s.idx|
      ensures s.idx[i] < s.idx[j]
    {
      IncreasesFrom(s.idx, i, j);
    }
  }

  lemma {:induction false} IncreasesFrom(idx: seq<nat>, i: nat, j: nat)
    requires i < j < |idx|
    requires forall k {:trigger RunStart(idx, k)} :: 0 <= k < |idx| ==> RunStart(idx, k) <= idx[k]
    ensures idx[i] < idx[j]
    decreases j - i
  {
    assert RunStart(idx, j) == idx[j - 1] + 1;
    if i < j - 1 {
      IncreasesFrom(idx, i, j - 1);
    }
  }

  /** A run that stays below the threshold on the rows seen so far still does after one more row. */
  lemma StaysBelowOfPrefix(w: seq<real>, threshold: real, a: nat, e: nat)
    requires w != [] && StaysBelow(w[..|w| - 1], threshold, a, e)
    ensures StaysBelow(w, threshold, a, e)
  {
    forall b | a < b <= e
      ensures Sum(w[a..b]) < threshold
    {
      assert w[..|w| - 1][a..b] == w[a..b];
    }
  }

  lemma ClosedRunOfPrefix(w: seq<real>, threshold: real, a: nat, e: nat)
    requires w != [] && ClosedRun(w[..|w| - 1], threshold, a, e)
    ensures ClosedRun(w, threshold, a, e)
  {
    StaysBelowOfPrefix(w, threshold, a, e);
    assert w[..|w| - 1][a..e + 1] == w[a..e + 1];
  }

  lemma RunsClosedOfPrefix(w: seq<real>, threshold: real, idx: seq<nat>)
    requires w != [] && RunsClosed(w[..|w| - 1], threshold, idx)
    ensures RunsClosed(w, threshold, idx)
  {
    forall j | 0 <= j < |idx|
      ensures ClosedRun(w, threshold, RunStart(idx, j), idx[j])
    {
      ClosedRunOfPrefix(w, threshold, RunStart(idx, j), idx[j]);
    }
  }

  /** Closing one more run keeps the earlier ones closed. */
  lemma RunsClosedAppend(w: seq<real>, threshold: real, idx: seq<nat>, e: nat)
    requires RunsClosed(w, threshold, idx)
    requires ClosedRun(w, threshold, RunStart(idx, |idx|), e)
    ensures RunsClosed(w, threshold, idx + [e])
  {
    var idx' := idx + [e];
    forall j | 0 <= j < |idx'|
      ensures ClosedRun(w, threshold, RunStart(idx', j), idx'[j])
    {
      if j > 0 {
        assert idx'[j - 1] == idx[j - 1];
      }
      assert RunStart(idx', j) == RunStart(idx, j);
      if j < |idx| {
        assert idx'[j] == idx[j];
        assert ClosedRun(w, threshold, RunStart(idx, j), idx[j]);
      }
    }
  }

  /** The run in progress, extended by the last row: its sum grows by that row's weight. */
  lemma SumOfLongerRun(w: seq<real>, a: nat)
    requires a < |w|
    ensures Sum(w[a..]) == Sum(w[..|w| - 1][a..]) + w[|w| - 1]
  {
    var init := w[..|w| - 1][a..];
    assert w[a..] == init + [w[|w| - 1]];
    SumAppend(init, [w[|w| - 1]]);
  }

  /** The loop's state is a bar selection of the rows seen so far. */
  lemma {:induction false} ScanIsBarSelection(w: seq<real>, threshold: real)
    ensures IsBarSelection(w, threshold, ScanBars(w, threshold))
    decreases |w|
  {
    if w == [] {
      assert w[0..] == [];
    } else {
      var n := |w|;
      var init := w[..n - 1];
      var prev := ScanBars(init, threshold);
      ScanIsBarSelection(init, threshold);
      SumOfLongerRun(w, prev.start);
      RunsClosedOfPrefix(w, threshold, prev.idx);
      StaysBelowOfPrefix(w, threshold, prev.start, n - 1);
      assert w[prev.start..n] == w[prev.start..];
      if prev.acc + w[n - 1] >= threshold {
        assert ClosedRun(w, threshold, prev.start, n - 1);
        RunsClosedAppend(w, threshold, prev.idx, n - 1);
        assert w[n..] == [];
      }
    }
  }

  /** Every bar takes at least the threshold's worth of weight, so with non-negative
      weights the bars' thresholds add up to no more than the total weight. */
  lemma BarCountBound(w: seq<real>, threshold: real, idx: seq<nat>)
    requires RunsClosed(w, threshold, idx)
    requires forall i :: 0 <= i < |w| ==> w[i] >= 0.0
    ensures Copies(|idx|, threshold) <= Sum(w)
  {
    RunsSum(w, threshold, idx, |idx|);
    PrefixSumBelow(w, RunStart(idx, |idx|));
  }

  /** With non-negative weights, a prefix weighs no more than the whole. */
  lemma PrefixSumBelow(w: seq<real>, k: nat)
    requires k <= |w|
    requires forall i :: 0 <= i < |w| ==> w[i] >= 0.0
    ensures Sum(w[..k]) <= Sum(w)
  {
    var rest := w[k..];
    assert w == w[..k] + rest;
    SumAppend(w[..k], rest);
    SumNonNegative(rest);
  }

  /** `n` copies of `t` added up; equal to `n * t` (CopiesIsProduct). */
  function Copies(n: nat, t: real): real {
    if n == 0 then 0.0 else Copies(n - 1, t) + t
  }

  lemma {:induction false} CopiesIsProduct(n: nat, t: real)
    ensures Copies(n, t) == n as real * t
  {
    if n > 0 {
      CopiesIsProduct(n - 1, t);
      assert n as real * t == (n - 1) as real * t + t;
    }
  }

  /** The first `j` runs weigh at least `j` thresholds. */
  lemma {:induction false} RunsSum(w: seq<real>, threshold: real, idx: seq<nat>, j: nat)
    requires RunsClosed(w, threshold, idx)
    requires j <= |idx|
    ensures RunStart(idx, j) <= |w|
    ensures Copies(j, threshold) <= Sum(w[..RunStart(idx, j)])
    decreases j
  {
    if j > 0 {
      RunsSum(w, threshold, idx, j - 1);
      var a, b := RunStart(idx, j - 1), idx[j - 1] + 1;
      assert ClosedRun(w, threshold, a, idx[j - 1]);
      assert w[..b] == w[..a] + w[a..b];
      SumAppend(w[..a], w[a..b]);
    } else {
      assert w[..0] == [];
    }
  }

  // ---------------------------------------------------------------- the two samplers

  /** `df.iloc[idx]`: the selected rows, in order. */
  function Pick(bars: seq<Bar>, idx: seq<nat>): (r: seq<Bar>)
    requires forall j :: 0 <= j < |idx| ==> idx[j] < |bars|
    ensures |r| == |idx|
    ensures forall j :: 0 <= j < |idx| ==> r[j] == bars[idx[j]]
  {
    seq(|idx|, j requires 0 <= j < |idx| => bars[idx[j]])
  }

  /** Two rows that `drop_duplicates` treats as equal: the same value in every column
      (the date is the frame's index, not a column). */
  predicate SameValues(a: Bar, b: Bar) {
    a.open == b.open && a.high == b.high && a.low == b.low && a.close == b.close && a.volume == b.volume
  }

  /** Some row of `rows` has the values of `x`. */
  predicate HasSame(rows: seq<Bar>, x: Bar) {
    exists k :: 0 <= k < |rows| && SameValues(rows[k], x)
  }

  /** `drop_duplicates()`: the rows, in order, each kept unless an earlier kept row has
      its values (keep="first"). */
  function DropDuplicates(rows: seq<Bar>): seq<Bar>
    decreases |rows|
  {
    if rows == [] then []
    else
      var kept := DropDuplicates(rows[..|rows| - 1]);
      var x := rows[|rows| - 1];
      if HasSame(kept, x) then kept else kept + [x]
  }

  /** Every kept row is an input row. */
  lemma {:induction false} DropDuplicatesKeepsInputRows(rows: seq<Bar>)
    ensures forall k :: 0 <= k < |DropDuplicates(rows)| ==> DropDuplicates(rows)[k] in rows
    decreases |rows|
  {
    if rows != [] {
      var init := rows[..|rows| - 1];
      DropDuplicatesKeepsInputRows(init);
      assert forall x :: x in init ==> x in rows;
    }
  }

  /** Every input row's values survive in some kept row. */
  lemma {:induction false} DropDuplicatesCoversInput(rows: seq<Bar>)
    ensures forall i :: 0 <= i < |rows| ==> HasSame(DropDuplicates(rows), rows[i])
    decreases |rows|
  {
    if rows != [] {
      var n := |rows|;
      var init := rows[..n - 1];
      var kept := DropDuplicates(init);
      var r := DropDuplicates(rows);
      DropDuplicatesCoversInput(init);
      forall i | 0 <= i < n
        ensures HasSame(r, rows[i])
      {
        if i < n - 1 {
          assert init[i] == rows[i];
          HasSameOfPrefix(kept, r, rows[i]);
        } else if !HasSame(kept, rows[i]) {
          assert r[|kept|] == rows[i];
        } else {
          HasSameOfPrefix(kept, r, rows[i]);
        }
      }
    }
  }

  lemma HasSameOfPrefix(kept: seq<Bar>, r: seq<Bar>, x: Bar)
    requires kept <= r && HasSame(kept, x)
    ensures HasSame(r, x)
  {
    var k :| 0 <= k < |kept| && SameValues(kept[k], x);
    assert r[k] == kept[k];
  }

  /** No two kept rows have the same values. */
  lemma {:induction false} DropDuplicatesDistinct(rows: seq<Bar>)
    ensures forall i, j :: 0 <= i < j < |DropDuplicates(rows)| ==>
      !SameValues(DropDuplicates(rows)[i], DropDuplicates(rows)[j])
    decreases |rows|
  {
    if rows != [] {
      DropDuplicatesDistinct(rows[..|rows| - 1]);
    }
  }

  /** `volume_bar(df, threshold)` (process.py:49-60): each row weighs its volume. */
  method VolumeBar(bars: seq<Bar>, threshold: real) returns (picked: seq<Bar>)
    ensures picked == DropDuplicates(Pick(bars, ScanBars(Volumes(bars), threshold).idx))
  {
    ghost var w := Volumes(bars);
    var ts := 0.0;
    var idx: seq<nat> := [];
    var i := 0;
    while i < |bars|
      invariant 0 <= i <= |bars|
      invariant ScanBars(w[..i], threshold).idx == idx
      invariant ScanBars(w[..i], threshold).acc == ts
    {
      assert w[..i + 1][..i] == w[..i];
      ts := ts + bars[i].volume;
      if ts >= threshold {
        idx := idx + [i];
        ts := 0.0;
      }
      i := i + 1;
    }
    assert w[..i] == w;
    picked := DropDuplicates(Pick(bars, idx));
  }

  /** The weight of a row in `dollar_bar`: the typical price times the volume, in units of 1000. */
  function DollarWeight(b: Bar): real {
    (b.close + b.low + b.high) / 3.0 * b.volume * 1000.0
  }

  function DollarWeights(bars: seq<Bar>): (r: seq<real>)
    ensures |r| == |bars|
    ensures forall i :: 0 <= i < |bars| ==> r[i] == DollarWeight(bars[i])
  {
    seq(|bars|, i requires 0 <= i < |bars| => DollarWeight(bars[i]))
  }

  /** `dollar_bar(df, threshold)` (process.py:63-74): the same loop over the dollar weights. */
  method DollarBar(bars: seq<Bar>, threshold: real) returns (picked: seq<Bar>)
    ensures picked == DropDuplicates(Pick(bars, ScanBars(DollarWeights(bars), threshold).idx))
  {
    ghost var w := DollarWeights(bars);
    var ts := 0.0;
    var idx: seq<nat> := [];
    var i := 0;
    while i < |bars|
      invariant 0 <= i <= |bars|
      invariant ScanBars(w[..i], threshold).idx == idx
      invariant ScanBars(w[..i], threshold).acc == ts
    {
      assert w[..i + 1][..i] == w[..i];
      ts := ts + (bars[i].close + bars[i].low + bars[i].high) / 3.0 * bars[i].volume * 1000.0;
      if ts >= threshold {
        idx := idx + [i];
        ts := 0.0;
      }
      i := i + 1;
    }
    assert w[..i] == w;
    picked := DropDuplicates(Pick(bars, idx));
  }

  /** Rows with non-negative prices and volumes have non-negative dollar weights, so the
      bar-count bound applies to `dollar_bar` as well. */
  lemma DollarWeightsNonNegative(bars: seq<Bar>)
    requires forall i :: 0 <= i < |bars| ==>
      bars[i].close >= 0.0 && bars[i].low >= 0.0 && bars[i].high >= 0.0 && bars[i].volume >= 0.0
    ensures forall i :: 0 <= i < |bars| ==> DollarWeights(bars)[i] >= 0.0
  {
    forall i | 0 <= i < |bars|
      ensures DollarWeight(bars[i]) >= 0.0
    {
      var b := bars[i];
      var p := (b.close + b.low + b.high) / 3.0;
      assert p >= 0.0;
      assert p * b.volume >= 0.0;
    }
  }
}
