/** `TechnicalFactors` of finb/analyzer/factor.py: traded volume over a window of the
    most recent trading days, and the free float left after the major holders. */
module Technical {
  import opened Values
  import opened Calendar
  import opened Statements
  import opened Weekly
  import opened Factors

  /** The fields that `TechnicalFactors.__init__` sets (factor.py:401-406). `year` and
      `quarter` come from `current_quarter_and_year()`, unpacked in swapped order, and are
      not used by any method. */
  datatype Analysis = Analysis(
    symbol: string,
    prices: Option<seq<Bar>>,
    holders: seq<Holder>,
    year: int,
    quarter: int,
    fund: Snapshot)

  /** `TechnicalFactors(symbol, year, quarter)`: the prices (None when they cannot be read),
      the major holders (a missing file raises) and the fundamental snapshot of the given
      quarter with its chain. */
  method BuildAnalysis(store: Store, symbol: string, year: Option<int>, quarter: Option<int>)
    returns (r: Outcome<Analysis>)
    ensures symbol !in store.holders ==> r == Raised(MissingHolders)
    ensures var base := LoadQuarter(store, symbol, year, quarter, false);
      r.Ok? <==> symbol in store.holders && base.Ok? && ChainLoads(store, symbol, base.value.year, base.value.quarter)
    ensures r.Ok? ==>
      && r.value.prices == ReadPrices(store, symbol)
      && r.value.holders == store.holders[symbol]
      && r.value.fund == LoadQuarter(store, symbol, year, quarter, false).value.(prev := r.value.fund.prev)
      && |r.value.fund.prev| == 4
  {
    var prices := ReadPrices(store, symbol);
    if symbol !in store.holders {
      return Raised(MissingHolders);
    }
    var holders := store.holders[symbol];
    var current := CurrentQuarterAndYear(store.now);
    var fund := Build(store, symbol, year, quarter, false, false);
    if fund.Raised? {
      return Raised(fund.error);
    }
    r := Ok(Analysis(symbol, prices, holders, current.0, current.1, fund.value));
  }

  // ---------------------------------------------------------------- windowed volume

  /** How Python normalises one bound of a slice over a sequence of length n: a negative
      bound counts from the end, and the result is clamped to 0..n. */
  function SliceBound(i: int, n: nat): (r: nat)
    ensures r <= n
    ensures 0 <= i <= n ==> r == i
    ensures i < 0 && 0 <= i + n ==> r == i + n
    ensures i + n < 0 ==> r == 0
    ensures i > n ==> r == n
  {
    if i < 0 then (if i + n < 0 then 0 else i + n)
    else if i > n then n
    else i
  }

  /** `price_df.iloc[n - shift - days : n - shift]["Volume"].sum()` as written: both bounds
      go through Python's slice normalisation, so a negative start counts from the end.
      A slice whose start is not before its end is empty and sums to 0. */
  function SliceVolume(bars: seq<Bar>, days: int, shift: int): real {
    var n := |bars|;
    var start := SliceBound(n - shift - days, n);
    var end := SliceBound(n - shift, n);
    if start < end then Sum(Volumes(bars)[start..end]) else 0.0
  }

  /** A bound clamped into 0..n, without counting from the end. */
  function Clamp(i: int, n: nat): (r: nat)
    ensures r <= n
    ensures 0 <= i <= n ==> r == i
  {
    if i < 0 then 0 else if i > n then n else i
  }

  /** The volume window as evidently intended: the `days` rows that end `shift` rows before
      the last, cut short at the first row when the history is shorter. */
  function WindowVolume(bars: seq<Bar>, days: int, shift: int): real {
    var n := |bars|;
    var start := Clamp(n - shift - days, n);
    var end := Clamp(n - shift, n);
    if start < end then Sum(Volumes(bars)[start..end]) else 0.0
  }

  /** `TotalVol(days, shift)` (factor.py:408-411) as written: `len(None)` raises when the
      prices could not be read. */
  function TotalVolAsWritten(a: Analysis, days: int, shift: int): Outcome<real> {
    match a.prices
    case None => Raised(MissingPrice)
    case Some(bars) => Ok(SliceVolume(bars, days, shift))
  }

  /** `TotalVol(days, shift)` over the corrected window. */
  function TotalVol(a: Analysis, days: int, shift: int): Outcome<real> {
    match a.prices
    case None => Raised(MissingPrice)
    case Some(bars) => Ok(WindowVolume(bars, days, shift))
  }

  /** When the window fits in the history, it is exactly the `days` rows that end `shift`
      rows before the last, and the slice as written agrees with it. */
  lemma WindowVolumeExact(bars: seq<Bar>, days: int, shift: int)
    requires 0 <= days && 0 <= shift && days + shift <= |bars|
    ensures var n := |bars|;
      WindowVolume(bars, days, shift) == Sum(Volumes(bars)[n - shift - days..n - shift])
    ensures SliceVolume(bars, days, shift) == WindowVolume(bars, days, shift)
  {
    var n := |bars|;
    if days == 0 {
      assert Volumes(bars)[n - shift..n - shift] == [];
    }
  }

  /** A window of no days sums to 0, whatever the shift. */
  lemma WindowVolumeOfNoDays(bars: seq<Bar>, shift: int)
    ensures WindowVolume(bars, 0, shift) == 0.0
    ensures SliceVolume(bars, 0, shift) == 0.0
  {
  }

  /** With no shift and n < days < 2n the slice as written starts from the end: only the
      last days - n rows are summed. */
  lemma SliceVolumeWraps(bars: seq<Bar>, days: int)
    requires |bars| < days < 2 * |bars|
    ensures var n := |bars|;
      && SliceVolume(bars, days, 0) == Sum(Volumes(bars)[2 * n - days..])
      && |Volumes(bars)[2 * n - days..]| == days - n
  {
    var n := |bars|;
    assert SliceBound(n - days, n) == 2 * n - days;
    assert Volumes(bars)[2 * n - days..n] == Volumes(bars)[2 * n - days..];
  }

  /** With no shift and days >= 2n the slice as written starts at 0: every row is summed. */
  lemma SliceVolumeAllRows(bars: seq<Bar>, days: int)
    requires days >= 2 * |bars|
    ensures SliceVolume(bars, days, 0) == Sum(Volumes(bars))
  {
    var n := |bars|;
    assert SliceBound(n - days, n) == 0;
    assert Volumes(bars)[0..n] == Volumes(bars);
    if n == 0 {
      assert Volumes(bars) == [];
    }
  }

  /** A history shorter than the window: every row up to `shift` rows before the last is
      summed. */
  lemma WindowVolumeOfShortHistory(bars: seq<Bar>, days: int, shift: int)
    requires 0 <= shift <= |bars| <= days + shift
    ensures WindowVolume(bars, days, shift) == Sum(Volumes(bars)[..|bars| - shift])
  {
    var n := |bars|;
    assert Clamp(n - shift - days, n) == 0;
    if shift == n {
      assert Volumes(bars)[..0] == [];
    } else {
      assert Volumes(bars)[0..n - shift] == Volumes(bars)[..n - shift];
    }
  }

  /** Sum of positive values over a non-empty sequence is positive. */
  lemma {:induction false} SumPositive(s: seq<real>)
    requires s != []
    requires forall i :: 0 <= i < |s| ==> s[i] > 0.0
    ensures Sum(s) > 0.0
    decreases |s|
  {
    if |s| > 1 {
      SumPositive(s[..|s| - 1]);
    }
  }

  /** The discrepancy: with no shift, n < days < 2n and every volume positive, the slice as
      written misses the first 2n - days rows, so it sums strictly less than the window. */
  lemma SliceVolumeMissesRows(bars: seq<Bar>, days: int)
    requires |bars| < days < 2 * |bars|
    requires forall i :: 0 <= i < |bars| ==> bars[i].volume > 0.0
    ensures SliceVolume(bars, days, 0) < WindowVolume(bars, days, 0)
    ensures WindowVolume(bars, days, 0) == Sum(Volumes(bars))
  {
    var n := |bars|;
    var v := Volumes(bars);
    SliceVolumeWraps(bars, days);
    WindowVolumeOfShortHistory(bars, days, 0);
    assert v[..n - 0] == v;
    assert v == v[..2 * n - days] + v[2 * n - days..];
    SumAppend(v[..2 * n - days], v[2 * n - days..]);
    SumPositive(v[..2 * n - days]);
  }

  /** Non-negative volumes give a non-negative window volume. */
  lemma WindowVolumeNonNegative(bars: seq<Bar>, days: int, shift: int)
    requires forall i :: 0 <= i < |bars| ==> bars[i].volume >= 0.0
    ensures WindowVolume(bars, days, shift) >= 0.0
  {
    var n := |bars|;
    var start := Clamp(n - shift - days, n);
    var end := Clamp(n - shift, n);
    if start < end {
      var w := Volumes(bars)[start..end];
      forall i | 0 <= i < |w|
        ensures w[i] >= 0.0
      {
        assert w[i] == Volumes(bars)[start + i];
      }
      SumNonNegative(w);
    }
  }

  // ---------------------------------------------------------------- free float

  function HolderShares(holders: seq<Holder>): (r: seq<real>)
    ensures |r| == |holders|
    ensures forall i :: 0 <= i < |holders| ==> r[i] == holders[i].shares
  {
    seq(|holders|, i requires 0 <= i < |holders| => holders[i].shares)
  }

  /** `MajorHolderShares()` (factor.py:413-414): the "Shares" column summed. */
  function MajorHolderShares(a: Analysis): real {
    Sum(HolderShares(a.holders))
  }

  /** `FreeFloatingShares()` (factor.py:416-417): the share count less the major holders'. */
  function FreeFloatingShares(c: Config, a: Analysis): Num {
    SubNum(NumberOfShares(c, a.fund), Num(MajorHolderShares(a)))
  }

  /** `FreeFloatingPercent()` (factor.py:419-420): not wrapped, so a zero share count raises. */
  function FreeFloatingPercent(c: Config, a: Analysis): Outcome<Num> {
    Over(Ok(FreeFloatingShares(c, a)), Ok(NumberOfShares(c, a.fund)))
  }

  /** `TotalVol2FreeFloating(days, shift)` (factor.py:422-423) as written, over the
      slice as written. */
  function TotalVol2FreeFloatingAsWritten(c: Config, a: Analysis, days: int, shift: int): Outcome<Num> {
    var vol :- TotalVolAsWritten(a, days, shift);
    Over(Ok(Num(vol)), Ok(FreeFloatingShares(c, a)))
  }

  /** `TotalVol2FreeFloating(days, shift)` over the corrected window. */
  function TotalVol2FreeFloating(c: Config, a: Analysis, days: int, shift: int): Outcome<Num> {
    var vol :- TotalVol(a, days, shift);
    Over(Ok(Num(vol)), Ok(FreeFloatingShares(c, a)))
  }

  /** The free float and its share: with n shares of which the major holders own h, the
      float is n - h, its share (n - h) / n, and share times n plus h gives n back. */
  lemma FreeFloatFormula(c: Config, a: Analysis, n: real)
    requires NumberOfShares(c, a.fund) == Num(n)
    ensures FreeFloatingShares(c, a) == Num(n - MajorHolderShares(a))
    ensures n == 0.0 ==> FreeFloatingPercent(c, a) == Raised(DivisionByZero)
    ensures n != 0.0 ==>
      && FreeFloatingPercent(c, a) == Ok(Num((n - MajorHolderShares(a)) / n))
      && FreeFloatingPercent(c, a).value.v * n + MajorHolderShares(a) == n
  {
    var h := MajorHolderShares(a);
    if n != 0.0 {
      DivideThenMultiply((n - h) / n, n - h, n);
    }
  }

  /** A NaN share count makes the float and both ratios NaN instead of raising. */
  lemma FreeFloatOfUnknownShares(c: Config, a: Analysis, days: int, shift: int)
    requires NumberOfShares(c, a.fund) == NaN
    requires a.prices.Some?
    ensures FreeFloatingShares(c, a) == NaN
    ensures FreeFloatingPercent(c, a) == Ok(NaN)
    ensures TotalVol2FreeFloating(c, a, days, shift) == Ok(NaN)
  {
  }

  /** The volume ratio raises when the prices are missing or the float is zero, and is the
      volume over the float otherwise: the slice as written, or the corrected window. */
  lemma TotalVol2FreeFloatingFormula(c: Config, a: Analysis, days: int, shift: int)
    ensures a.prices.None? ==>
      && TotalVol2FreeFloatingAsWritten(c, a, days, shift) == Raised(MissingPrice)
      && TotalVol2FreeFloating(c, a, days, shift) == Raised(MissingPrice)
    ensures a.prices.Some? && FreeFloatingShares(c, a) == Num(0.0) ==>
      && TotalVol2FreeFloatingAsWritten(c, a, days, shift) == Raised(DivisionByZero)
      && TotalVol2FreeFloating(c, a, days, shift) == Raised(DivisionByZero)
    ensures a.prices.Some? && FreeFloatingShares(c, a).Num? && FreeFloatingShares(c, a).v != 0.0 ==>
      && TotalVol2FreeFloatingAsWritten(c, a, days, shift) ==
           Ok(Num(SliceVolume(a.prices.value, days, shift) / FreeFloatingShares(c, a).v))
      && TotalVol2FreeFloating(c, a, days, shift) ==
           Ok(Num(WindowVolume(a.prices.value, days, shift) / FreeFloatingShares(c, a).v))
  {
  }

  /** With positive volumes, a positive float, no shift and fewer than `days` but more than
      `days / 2` rows, the ratio as written is strictly below the ratio over every row. */
  lemma TotalVol2FreeFloatingAsWrittenUndercounts(c: Config, a: Analysis, days: int)
    requires a.prices.Some? && |a.prices.value| < days < 2 * |a.prices.value|
    requires forall i :: 0 <= i < |a.prices.value| ==> a.prices.value[i].volume > 0.0
    requires FreeFloatingShares(c, a).Num? && FreeFloatingShares(c, a).v > 0.0
    ensures TotalVol2FreeFloatingAsWritten(c, a, days, 0).Ok?
    ensures TotalVol2FreeFloating(c, a, days, 0) ==
      Ok(Num(Sum(Volumes(a.prices.value)) / FreeFloatingShares(c, a).v))
    ensures TotalVol2FreeFloatingAsWritten(c, a, days, 0).value.v <
      TotalVol2FreeFloating(c, a, days, 0).value.v
  {
    var bars, f := a.prices.value, FreeFloatingShares(c, a).v;
    SliceVolumeMissesRows(bars, days);
    TotalVol2FreeFloatingFormula(c, a, days, 0);
    DivideMonotone(SliceVolume(bars, days, 0), WindowVolume(bars, days, 0), f);
  }

  lemma DivideMonotone(x: real, y: real, f: real)
    requires x < y && f > 0.0
    ensures x / f < y / f
  {
    assert y / f - x / f == (y - x) / f;
  }

  /** With non-negative holdings the major holders own a non-negative number of shares, so
      the float never exceeds the share count. */
  lemma FloatAtMostShares(c: Config, a: Analysis, n: real)
    requires forall i :: 0 <= i < |a.holders| ==> a.holders[i].shares >= 0.0
    requires NumberOfShares(c, a.fund) == Num(n)
    ensures FreeFloatingShares(c, a).v <= n
  {
    SumNonNegative(HolderShares(a.holders));
  }
}
