/** Statement tables and the readers of finb/utils/datahub.py.

    A statement table is the CSV of one statement of one (symbol, year,
    quarter), indexed by its "fields" column: an ordered sequence of labelled
    values. Files on disk and the crawler that fills them are one collaborator,
    the `Store`: what it holds for a key is what `pd.read_csv` would return, and
    a key it lacks is a read that failed and was caught. */
module Statements {
  import opened Values
  import opened Calendar

  datatype Row = Row(name: string, value: real)

  type Table = seq<Row>

  /** One row of a daily price file; `day` is the day's ordinal number. */
  datatype Bar = Bar(day: int, open: real, high: real, low: real, close: real, volume: real)

  /** One row of a major-holders file. */
  datatype Holder = Holder(name: string, shares: real)

  datatype Store = Store(
    balance: map<(string, int, int), Table>,
    income: map<(string, int, int), Table>,
    cashflow: map<(string, int, int), Table>,
    prices: map<string, seq<Bar>>,
    holders: map<string, seq<Holder>>,
    now: Instant)

  // ---------------------------------------------------------------- labels

  const CurrentAssetsLabel := "A. Tài sản lưu động và đầu tư ngắn hạn"
  const TotalAssetsLabel := "TỔNG CỘNG TÀI SẢN"
  const LiabilitiesLabel := "A. Nợ phải trả"
  const TotalCapitalLabel := "TỔNG CỘNG NGUỒN VỐN"
  const AssetsHeader := "TÀI SẢN"
  const CapitalHeader := "NGUỒN VỐN"

  const GrossRevenueLabel := "1. Tổng doanh thu hoạt động kinh doanh"
  const RevenueDeductionsLabel := "2. Các khoản giảm trừ doanh thu"
  const NetRevenueLabel := "3. Doanh thu thuần (1)-(2)"
  const ParentProfitLabel := "21. Lợi nhuận sau thuế của cổ đông của công ty mẹ (19)-(20)"

  const OperatingCashFlowLabel := "Lưu chuyển tiền thuần từ hoạt động kinh doanh"

  /** The ten rows whose sum replaces a zero operating cash flow (datahub.py:313-322). */
  const OperatingCashFlowParts := [
    "3. Lợi nhuận từ hoạt động kinh doanh trước thay đổi vốn lưu động",
    "- Tăng, giảm các khoản phải thu",
    "- Tăng, giảm hàng tồn kho",
    "- Tăng, giảm các khoản phải trả (Không kể lãi vay phải trả, thuế thu nhập doanh nghiệp phải nộp)",
    "- Tăng giảm chi phí trả trước",
    "- Tăng giảm tài sản ngắn hạn khác",
    "- Tiền lãi vay phải trả",
    "- Thuế thu nhập doanh nghiệp đã nộp",
    "- Tiền thu khác từ hoạt động kinh doanh",
    "- Tiền chi khác từ hoạt động kinh doanh"]

  // ---------------------------------------------------------------- lookups

  /** `df.index.to_list().index(key)`: the first position holding the label. */
  function IndexOf(t: Table, key: string): (r: Option<nat>)
    ensures r.Some? ==> r.value < |t| && t[r.value].name == key
    ensures r.Some? ==> forall j :: 0 <= j < r.value ==> t[j].name != key
    ensures r.None? ==> forall j :: 0 <= j < |t| ==> t[j].name != key
    decreases |t|
  {
    if t == [] then None
    else if t[0].name == key then Some(0)
    else match IndexOf(t[1..], key)
      case None => None
      case Some(i) => Some(i + 1)
  }

  /** `df.loc[key]["values"]`, read from the first row holding the label. */
  function Loc(t: Table, key: string): Option<real> {
    match IndexOf(t, key)
    case None => None
    case Some(i) => Some(t[i].value)
  }

  function Labels(t: Table): (r: seq<string>)
    ensures |r| == |t|
    ensures forall i :: 0 <= i < |t| ==> r[i] == t[i].name
  {
    seq(|t|, i requires 0 <= i < |t| => t[i].name)
  }

  /** Two tables with the same labels find every label at the same position. */
  lemma IndexOfDependsOnLabels(t: Table, u: Table, key: string)
    requires Labels(t) == Labels(u)
    ensures IndexOf(t, key) == IndexOf(u, key)
  {
    assert |t| == |u|;
    assert forall j :: 0 <= j < |t| ==> t[j].name == Labels(t)[j] == Labels(u)[j] == u[j].name;
  }

  /** `df.loc[key] = v`: every row holding the label gets the value `v`. */
  function SetValue(t: Table, key: string, v: real): (r: Table)
    ensures Labels(r) == Labels(t)
    ensures forall i :: 0 <= i < |t| ==> r[i].value == (if t[i].name == key then v else t[i].value)
  {
    seq(|t|, i requires 0 <= i < |t| => if t[i].name == key then Row(key, v) else t[i])
  }

  /** After `df.loc[key] = v`, the label reads `v` and every other label reads as before. */
  lemma LocAfterSetValue(t: Table, key: string, v: real, other: string)
    ensures Loc(SetValue(t, key, v), other) ==
            (if other == key && Loc(t, key).Some? then Some(v) else Loc(t, other))
  {
    IndexOfDependsOnLabels(SetValue(t, key, v), t, other);
  }

  /** The values of `labels`, in order, or None if one of them is missing. */
  function RowValues(t: Table, labels: seq<string>): (r: Option<seq<real>>)
    ensures r.Some? <==> forall i :: 0 <= i < |labels| ==> Loc(t, labels[i]).Some?
    ensures r.Some? ==> |r.value| == |labels|
    ensures r.Some? ==> forall i :: 0 <= i < |labels| ==> r.value[i] == Loc(t, labels[i]).value
    decreases |labels|
  {
    if labels == [] then Some([])
    else match (RowValues(t, labels[..|labels| - 1]), Loc(t, labels[|labels| - 1]))
      case (Some(vs), Some(x)) => Some(vs + [x])
      case _ => None
  }

  // ---------------------------------------------------------------- repairs

  /** The revenue correction of `read_income_statement` (datahub.py:219-221): a gross
      revenue below the net revenue is replaced by net revenue plus deductions. A
      missing label raises a KeyError inside the reader's try, so the reader gives None. */
  function RepairRevenue(t: Table): Option<Table> {
    var gross, net := Loc(t, GrossRevenueLabel), Loc(t, NetRevenueLabel);
    if gross.None? || net.None? then None
    else if gross.value < net.value then
      var deductions := Loc(t, RevenueDeductionsLabel);
      if deductions.None? then None
      else Some(SetValue(t, GrossRevenueLabel, net.value + deductions.value))
    else Some(t)
  }

  /** The repair fails exactly on a missing label that it reads. */
  lemma RepairRevenueFails(t: Table)
    ensures RepairRevenue(t).None? <==>
      Loc(t, GrossRevenueLabel).None? || Loc(t, NetRevenueLabel).None?
      || (Loc(t, GrossRevenueLabel).value < Loc(t, NetRevenueLabel).value
          && Loc(t, RevenueDeductionsLabel).None?)
  {
  }

  /** A gross revenue below the net revenue becomes net revenue plus deductions, and
      nothing else in the table changes; any other table is returned as it is. */
  lemma RepairRevenueRewritesGross(t: Table)
    requires RepairRevenue(t).Some?
    ensures Loc(t, GrossRevenueLabel).value >= Loc(t, NetRevenueLabel).value ==> RepairRevenue(t).value == t
    ensures Loc(t, GrossRevenueLabel).value < Loc(t, NetRevenueLabel).value ==>
      && Labels(RepairRevenue(t).value) == Labels(t)
      && Loc(RepairRevenue(t).value, GrossRevenueLabel)
         == Some(Loc(t, NetRevenueLabel).value + Loc(t, RevenueDeductionsLabel).value)
      && forall other :: other != GrossRevenueLabel ==> Loc(RepairRevenue(t).value, other) == Loc(t, other)
  {
    var gross, net := Loc(t, GrossRevenueLabel).value, Loc(t, NetRevenueLabel).value;
    if gross < net {
      var v := net + Loc(t, RevenueDeductionsLabel).value;
      assert RepairRevenue(t).value == SetValue(t, GrossRevenueLabel, v);
      LocAfterSetValue(t, GrossRevenueLabel, v, GrossRevenueLabel);
      forall other | other != GrossRevenueLabel
        ensures Loc(SetValue(t, GrossRevenueLabel, v), other) == Loc(t, other)
      {
        LocAfterSetValue(t, GrossRevenueLabel, v, other);
      }
    }
  }

  /** With non-negative deductions, the repaired gross revenue is never below the net revenue. */
  lemma RepairedGrossNotBelowNet(t: Table)
    requires RepairRevenue(t).Some?
    requires Loc(t, RevenueDeductionsLabel).Some? ==> Loc(t, RevenueDeductionsLabel).value >= 0.0
    ensures Loc(RepairRevenue(t).value, GrossRevenueLabel).value
            >= Loc(RepairRevenue(t).value, NetRevenueLabel).value
  {
    RepairRevenueRewritesGross(t);
  }

  /** The operating-cash-flow fallback of `read_cashflow` (datahub.py:311-322): a zero
      operating cash flow is replaced by the sum of the ten working-capital and operating
      rows. A missing label raises inside the reader's try, so the reader gives None. */
  function RepairOperatingCashFlow(t: Table): Option<Table> {
    var cfo := Loc(t, OperatingCashFlowLabel);
    if cfo.None? then None
    else if cfo.value == 0.0 then
      var parts := RowValues(t, OperatingCashFlowParts);
      if parts.None? then None
      else Some(SetValue(t, OperatingCashFlowLabel, Sum(parts.value)))
    else Some(t)
  }

  /** The fallback fails exactly on a missing label that it reads. */
  lemma RepairOperatingCashFlowFails(t: Table)
    ensures RepairOperatingCashFlow(t).None? <==>
      Loc(t, OperatingCashFlowLabel).None?
      || (Loc(t, OperatingCashFlowLabel).value == 0.0 && RowValues(t, OperatingCashFlowParts).None?)
  {
  }

  /** A zero operating cash flow becomes the sum of the ten rows and nothing else in the
      table changes; a non-zero one is left as it is. */
  lemma RepairOperatingCashFlowRewritesZero(t: Table)
    requires RepairOperatingCashFlow(t).Some?
    ensures Loc(t, OperatingCashFlowLabel).value != 0.0 ==> RepairOperatingCashFlow(t).value == t
    ensures Loc(t, OperatingCashFlowLabel).value == 0.0 ==>
      && Labels(RepairOperatingCashFlow(t).value) == Labels(t)
      && Loc(RepairOperatingCashFlow(t).value, OperatingCashFlowLabel)
         == Some(Sum(RowValues(t, OperatingCashFlowParts).value))
      && forall other :: other != OperatingCashFlowLabel
           ==> Loc(RepairOperatingCashFlow(t).value, other) == Loc(t, other)
  {
    if Loc(t, OperatingCashFlowLabel).value == 0.0 {
      var v := Sum(RowValues(t, OperatingCashFlowParts).value);
      assert RepairOperatingCashFlow(t).value == SetValue(t, OperatingCashFlowLabel, v);
      LocAfterSetValue(t, OperatingCashFlowLabel, v, OperatingCashFlowLabel);
      forall other | other != OperatingCashFlowLabel
        ensures Loc(SetValue(t, OperatingCashFlowLabel, v), other) == Loc(t, other)
      {
        LocAfterSetValue(t, OperatingCashFlowLabel, v, other);
      }
    }
  }

  // ---------------------------------------------------------------- percent views

  /** Rows first..last (inclusive), each divided by `divisor`; a zero divisor raises
      as soon as one row is divided. */
  function ScaledRows(t: Table, first: nat, last: int, divisor: real): (r: Option<Table>)
    requires last < |t|
    ensures r.None? <==> divisor == 0.0 && first <= last
    ensures r.Some? ==> |r.value| == (if first <= last then last - first + 1 else 0)
    ensures r.Some? ==> forall k :: 0 <= k < |r.value| ==>
      r.value[k] == Row(t[first + k].name, t[first + k].value / divisor)
  {
    if first > last then Some([])
    else if divisor == 0.0 then None
    else Some(seq(last - first + 1, k requires 0 <= k < last - first + 1 =>
                  Row(t[first + k].name, t[first + k].value / divisor)))
  }

  /** The percent format of `read_balance_sheet` (datahub.py:112-135): an assets header,
      the rows from current assets through total assets, a capital header and the rows
      from liabilities through total capital, every value divided by total assets;
      the headers' None values become 0 through `fillna(0)`. */
  function BalanceSheetPercentView(t: Table): Option<Table> {
    var fa, ta := IndexOf(t, CurrentAssetsLabel), IndexOf(t, TotalAssetsLabel);
    if fa.None? || ta.None? then None
    else
      var total := t[ta.value].value;
      var assets := ScaledRows(t, fa.value, ta.value, total);
      var fc, tc := IndexOf(t, LiabilitiesLabel), IndexOf(t, TotalCapitalLabel);
      if assets.None? || fc.None? || tc.None? then None
      else
        var capital := ScaledRows(t, fc.value, tc.value, total);
        if capital.None? then None
        else Some([Row(AssetsHeader, 0.0)] + assets.value + [Row(CapitalHeader, 0.0)] + capital.value)
  }

  /** The imperative form of the percent view: the two row-appending loops. */
  method BalanceSheetPercent(t: Table) returns (r: Option<Table>)
    ensures r == BalanceSheetPercentView(t)
  {
    var fa := IndexOf(t, CurrentAssetsLabel);
    var ta := IndexOf(t, TotalAssetsLabel);
    if fa.None? || ta.None? {
      return None;
    }
    var total := t[ta.value].value;
    var rows := [Row(AssetsHeader, 0.0)];
    var assets := AppendScaled(rows, t, fa.value, ta.value, total);
    if assets.None? {
      return None;
    }
    rows := assets.value + [Row(CapitalHeader, 0.0)];
    var fc := IndexOf(t, LiabilitiesLabel);
    var tc := IndexOf(t, TotalCapitalLabel);
    if fc.None? || tc.None? {
      return None;
    }
    r := AppendScaled(rows, t, fc.value, tc.value, total);
  }

  /** The loop `for z in range(first, last + 1): percent_df = percent_df.append(...)`. */
  method AppendScaled(rows: Table, t: Table, first: nat, last: int, divisor: real) returns (r: Option<Table>)
    requires last < |t|
    ensures r.None? <==> ScaledRows(t, first, last, divisor).None?
    ensures r.Some? ==> r.value == rows + ScaledRows(t, first, last, divisor).value
  {
    var acc := rows;
    var z := first;
    while z <= last
      invariant first <= z && (z <= last + 1 || z == first)
      invariant divisor != 0.0 || z == first
      invariant |acc| == |rows| + z - first
      invariant acc[..|rows|] == rows
      invariant forall k :: |rows| <= k < |acc| ==>
        acc[k] == Row(t[first + k - |rows|].name, t[first + k - |rows|].value / divisor)
    {
      if divisor == 0.0 {
        return None;
      }
      acc := acc + [Row(t[z].name, t[z].value / divisor)];
      z := z + 1;
    }
    var block := ScaledRows(t, first, last, divisor).value;
    assert acc == rows + block;
    r := Some(acc);
  }

  /** The percent format of `read_income_statement` (datahub.py:225-234): the rows from
      gross revenue through the parent's profit after tax, each divided by gross revenue. */
  function IncomeStatementPercentView(t: Table): Option<Table> {
    var first, last := IndexOf(t, GrossRevenueLabel), IndexOf(t, ParentProfitLabel);
    if first.None? || last.None? then None
    else ScaledRows(t, first.value, last.value, t[first.value].value)
  }

  /** Row `k` of the asset block sits at position `1 + k - fa` of the percent view,
      divided by total assets, which is not zero. */
  lemma PercentViewAssetRows(t: Table, fa: nat, ta: nat)
    requires BalanceSheetPercentView(t).Some?
    requires IndexOf(t, CurrentAssetsLabel) == Some(fa) && IndexOf(t, TotalAssetsLabel) == Some(ta)
    requires fa <= ta
    ensures t[ta].value != 0.0
    ensures |BalanceSheetPercentView(t).value| > 1 + ta - fa
    ensures forall k :: fa <= k <= ta ==>
      BalanceSheetPercentView(t).value[1 + k - fa] == Row(t[k].name, t[k].value / t[ta].value)
  {
    var total := t[ta].value;
    var fc, tc := IndexOf(t, LiabilitiesLabel).value, IndexOf(t, TotalCapitalLabel).value;
    var assets := ScaledRows(t, fa, ta, total).value;
    var capital := ScaledRows(t, fc, tc, total).value;
    var p := BalanceSheetPercentView(t).value;
    assert p == [Row(AssetsHeader, 0.0)] + assets + [Row(CapitalHeader, 0.0)] + capital;
    forall k | fa <= k <= ta
      ensures p[1 + k - fa] == Row(t[k].name, t[k].value / total)
    {
      assert p[1 + k - fa] == assets[k - fa];
    }
  }

  lemma DivideThenMultiply(q: real, x: real, d: real)
    requires d != 0.0 && q == x / d
    ensures q * d == x
    ensures x == d ==> q == 1.0
  {
  }

  /** In the balance-sheet percent view the total-assets row reads exactly 1. */
  lemma PercentViewTotalIsOne(t: Table, fa: nat, ta: nat)
    requires BalanceSheetPercentView(t).Some?
    requires IndexOf(t, CurrentAssetsLabel) == Some(fa) && IndexOf(t, TotalAssetsLabel) == Some(ta)
    requires fa <= ta
    ensures BalanceSheetPercentView(t).value[1 + ta - fa] == Row(TotalAssetsLabel, 1.0)
  {
    PercentViewAssetRows(t, fa, ta);
    var total := t[ta].value;
    DivideThenMultiply(total / total, total, total);
  }

  /** The income percent view is missing exactly when one of its bounding labels is
      missing, or when gross revenue is zero and there are rows to divide. Otherwise row k
      is the k-th row from gross revenue on, over gross revenue, so that the view starts
      with a gross-revenue row reading exactly 1. */
  lemma IncomePercentViewRows(t: Table)
    ensures IncomeStatementPercentView(t).None? <==>
      || IndexOf(t, GrossRevenueLabel).None? || IndexOf(t, ParentProfitLabel).None?
      || (Loc(t, GrossRevenueLabel) == Some(0.0)
          && IndexOf(t, GrossRevenueLabel).value <= IndexOf(t, ParentProfitLabel).value)
    ensures IncomeStatementPercentView(t).Some? ==>
      var first, last := IndexOf(t, GrossRevenueLabel).value, IndexOf(t, ParentProfitLabel).value;
      var v := IncomeStatementPercentView(t).value;
      && |v| == (if first <= last then last - first + 1 else 0)
      && (forall k :: 0 <= k < |v| ==>
            v[k] == Row(t[first + k].name, t[first + k].value / Loc(t, GrossRevenueLabel).value))
      && (first <= last ==> v[0] == Row(GrossRevenueLabel, 1.0))
  {
    var first, last := IndexOf(t, GrossRevenueLabel), IndexOf(t, ParentProfitLabel);
    if first.Some? && last.Some? && IncomeStatementPercentView(t).Some? && first.value <= last.value {
      var revenue := t[first.value].value;
      DivideThenMultiply(revenue / revenue, revenue, revenue);
    }
  }

  /** Multiplying a scaled row back by the divisor restores the raw value it was made from. */
  lemma ScaledRowsRoundTrip(t: Table, first: nat, last: int, divisor: real)
    requires last < |t|
    requires ScaledRows(t, first, last, divisor).Some?
    ensures forall k :: first <= k <= last ==>
      ScaledRows(t, first, last, divisor).value[k - first].value * divisor == t[k].value
  {
    var r := ScaledRows(t, first, last, divisor).value;
    forall k | first <= k <= last
      ensures r[k - first].value * divisor == t[k].value
    {
      DivideThenMultiply(r[k - first].value, t[k].value, divisor);
    }
  }

  // ---------------------------------------------------------------- readers

  /** The gate shared by the three readers (datahub.py:94-97, 204-207, 298-299): the end
      date is computed outside the try, so an invalid quarter raises; a quarter that has
      not ended yet (end date >= now) reads as None. */
  function QuarterGate(now: Instant, year: int, quarter: int): (r: Outcome<bool>)
    ensures r.Raised? <==> QuarterEndDate(year, quarter).Raised?
    ensures r.Ok? ==> (r.value <==> !NotBefore(QuarterEndDate(year, quarter).value, now))
  {
    var end :- QuarterEndDate(year, quarter);
    Ok(!NotBefore(end, now))
  }

  function Lookup(m: map<(string, int, int), Table>, key: (string, int, int)): Option<Table> {
    if key in m then Some(m[key]) else None
  }

  /** `read_balance_sheet(symbol, year, quarter)` in the raw format. */
  function ReadBalanceSheet(store: Store, symbol: string, year: int, quarter: int): (r: Outcome<Option<Table>>)
    ensures r.Raised? <==> QuarterEndDate(year, quarter).Raised?
    ensures r.Ok? && r.value.Some? ==> !NotBefore(QuarterEndDate(year, quarter).value, store.now)
  {
    var open :- QuarterGate(store.now, year, quarter);
    if !open then Ok(None) else Ok(Lookup(store.balance, (symbol, year, quarter)))
  }

  /** `read_balance_sheet(symbol, year, quarter, format="percent")`. */
  function ReadBalanceSheetPercent(store: Store, symbol: string, year: int, quarter: int): (r: Outcome<Option<Table>>)
    ensures r.Raised? <==> QuarterEndDate(year, quarter).Raised?
    ensures r.Ok? && r.value.Some? ==> !NotBefore(QuarterEndDate(year, quarter).value, store.now)
  {
    var raw :- ReadBalanceSheet(store, symbol, year, quarter);
    match raw
    case None => Ok(None)
    case Some(t) => Ok(BalanceSheetPercentView(t))
  }

  /** `read_income_statement(symbol, year, quarter)` in the raw format, revenue repaired. */
  function ReadIncomeStatement(store: Store, symbol: string, year: int, quarter: int): (r: Outcome<Option<Table>>)
    ensures r.Raised? <==> QuarterEndDate(year, quarter).Raised?
    ensures r.Ok? && r.value.Some? ==> !NotBefore(QuarterEndDate(year, quarter).value, store.now)
  {
    var open :- QuarterGate(store.now, year, quarter);
    if !open then Ok(None)
    else match Lookup(store.income, (symbol, year, quarter))
      case None => Ok(None)
      case Some(t) => Ok(RepairRevenue(t))
  }

  /** `read_income_statement(symbol, year, quarter, format="percent")`. */
  function ReadIncomeStatementPercent(store: Store, symbol: string, year: int, quarter: int): (r: Outcome<Option<Table>>)
    ensures r.Raised? <==> QuarterEndDate(year, quarter).Raised?
    ensures r.Ok? && r.value.Some? ==> !NotBefore(QuarterEndDate(year, quarter).value, store.now)
  {
    var raw :- ReadIncomeStatement(store, symbol, year, quarter);
    match raw
    case None => Ok(None)
    case Some(t) => Ok(IncomeStatementPercentView(t))
  }

  /** `read_cashflow(symbol, year, quarter)`, operating cash flow repaired. */
  function ReadCashflow(store: Store, symbol: string, year: int, quarter: int): (r: Outcome<Option<Table>>)
    ensures r.Raised? <==> QuarterEndDate(year, quarter).Raised?
    ensures r.Ok? && r.value.Some? ==> !NotBefore(QuarterEndDate(year, quarter).value, store.now)
  {
    var open :- QuarterGate(store.now, year, quarter);
    if !open then Ok(None)
    else match Lookup(store.cashflow, (symbol, year, quarter))
      case None => Ok(None)
      case Some(t) => Ok(RepairOperatingCashFlow(t))
  }

  /** `read_price_df(symbol)`: the daily prices, or None when they cannot be read. An empty
      series is None too: reading its last date (datahub.py:19) raises, and the handler at
      datahub.py:24-27 returns None. */
  function ReadPrices(store: Store, symbol: string): (r: Option<seq<Bar>>)
    ensures r.Some? ==> r.value != [] && symbol in store.prices && r.value == store.prices[symbol]
  {
    if symbol in store.prices && store.prices[symbol] != [] then Some(store.prices[symbol]) else None
  }
}
