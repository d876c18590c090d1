/** The quarterly fundamental-factor engine, `CompanyQuarterlyFundamentalFactors` of
    finb/analyzer/factor.py.

    A snapshot is built once for a (symbol, year, quarter): it reads the three statements
    and the daily prices, clips the prices to the quarter's calendar window, and, unless
    told not to, builds the snapshots of the four previous quarters (each without its own
    chain). Every factor is then an expression over the snapshot's tables, its prices and
    the factors of the chain. Every factor but `EPS` is wrapped by `nanc`, which turns any
    exception into NaN. */
module Factors {
  import opened Values
  import opened Calendar
  import opened Statements

  /** `PAR_VALUE` and `TAX_RATE` of finb/utils/constant.py. */
  datatype Config = Config(parValue: real, taxRate: real)

  /** The fields that `__init__` sets. `prev` is `prev_fund_factors`. */
  datatype Snapshot = Snapshot(
    symbol: string,
    year: int,
    quarter: int,
    balance: Option<Table>,
    income: Option<Table>,
    cashflow: Option<Table>,
    prices: Option<seq<Bar>>,
    prev: seq<Snapshot>)

  // ---------------------------------------------------------------- line items

  const EquityLabel := "1. Vốn đầu tư của chủ sở hữu"
  const CashLabel := "I. Tiền và các khoản tương đương tiền"
  const ShortTermInvestmentsLabel := "II. Các khoản đầu tư tài chính ngắn hạn"
  const PretaxProfitLabel := "15. Tổng lợi nhuận kế toán trước thuế (11)+(14)"
  const InterestExpenseLabel := "-Trong đó: Chi phí lãi vay"
  const DepreciationLabel := "- Khấu hao TSCĐ"
  const DividendsPaidLabel := "8. Cổ tức, lợi nhuận đã trả cho chủ sở hữu"
  const BuybackLabel := "2. Tiền chi trả vốn góp cho các chủ sở hữu, mua lại cổ phiếu của doanh nghiệp đã phát hành"
  const ShareIssueLabel := "1. Tiền thu từ phát hành cổ phiếu, nhận vốn góp của chủ sở hữu"
  const LoanRepaymentLabel := "4. Tiền chi trả nợ gốc vay"
  const BorrowingLabel := "3. Tiền vay ngắn hạn, dài hạn nhận được"
  const LeaseRepaymentLabel := "5. Tiền chi trả nợ thuê tài chính"
  const CashflowInterestLabel := "- Chi phí lãi vay"
  const GrossProfitLabel := "5. Lợi nhuận gộp (3)-(4)"
  const NetIncomeLabel := "19. Lợi nhuận sau thuế thu nhập doanh nghiệp (15)-(18)"
  const CostOfGoodsLabel := "4. Giá vốn hàng bán"
  const AdminExpenseLabel := "10. Chi phí quản lý doanh nghiệp"
  const SellingExpenseLabel := "9. Chi phí bán hàng"

  /** The six operating-liability rows of `OPL` (factor.py:186-191). */
  const OperatingLiabilityLabels := [
    "3. Phải trả người bán ngắn hạn",
    "4. Người mua trả tiền trước",
    "6. Phải trả người lao động",
    "7. Chi phí phải trả ngắn hạn",
    "10. Doanh thu chưa thực hiện ngắn hạn",
    "1. Vay và nợ thuê tài chính ngắn hạn"]

  /** The nine operating-asset rows of `OPA` (factor.py:197-205). */
  const OperatingAssetLabels := [
    "I. Tiền và các khoản tương đương tiền",
    "III. Các khoản phải thu ngắn hạn",
    "IV. Tổng hàng tồn kho",
    "I. Các khoản phải thu dài hạn",
    "II. Tài sản cố định",
    "1. Chi phí trả trước dài hạn",
    "VII. Lợi thế thương mại",
    "1. Chi phí sản xuất, kinh doanh dở dang dài hạn",
    "2. chi phí xây dựng cơ bản dở dang"]

  const OtherInvestmentLabels := [
    "5. Đầu tư góp vốn vào công ty liên doanh liên kết",
    "6. Chi đầu tư ngắn hạn",
    "7. Tiền chi đầu tư góp vốn vào đơn vị khác"]

  const CapexLabels := [
    "1. Tiền chi để mua sắm, xây dựng TSCĐ và các tài sản dài hạn khác",
    "2. Tiền thu từ thanh lý, nhượng bán TSCĐ và các tài sản dài hạn khác"]

  const AccountsPayableLabels := [
    "3. Phải trả người bán ngắn hạn",
    "11. Phải trả ngắn hạn khác"]

  /** `df.loc[label]["values"]`: a table that is None has no `.loc`, a missing label is a KeyError. */
  function Item(t: Option<Table>, key: string): (r: Outcome<Num>)
    ensures r.Raised? <==> t.None? || Loc(t.value, key).None?
    ensures r.Ok? ==> r.value == Num(Loc(t.value, key).value)
  {
    match t
    case None => Raised(MissingTable)
    case Some(tab) =>
      match Loc(tab, key)
      case None => Raised(MissingLineItem)
      case Some(v) => Ok(Num(v))
  }

  /** `df[label]["values"]`: indexing the frame by a row label looks the label up among
      the columns, and the only column of a statement table is "values". */
  function ColumnItem(t: Option<Table>, key: string): Outcome<Num> {
    match t
    case None => Raised(MissingTable)
    case Some(tab) => if key == "values" then Item(t, "values") else Raised(MissingLineItem)
  }

  /** `item_1 + item_2 + ... + item_n`, evaluated left to right. */
  function ItemsSum(t: Option<Table>, labels: seq<string>): Outcome<Num>
    requires labels != []
    decreases |labels|
  {
    if |labels| == 1 then Item(t, labels[0])
    else Plus(ItemsSum(t, labels[..|labels| - 1]), Item(t, labels[|labels| - 1]))
  }

  /** A sum of line items succeeds exactly when the table has every label, and then it is
      the sum of those rows' values. */
  lemma {:induction false} ItemsSumIsRowSum(t: Option<Table>, labels: seq<string>)
    requires labels != []
    ensures ItemsSum(t, labels).Ok? <==> t.Some? && RowValues(t.value, labels).Some?
    ensures ItemsSum(t, labels).Ok? ==> ItemsSum(t, labels).value == Num(Sum(RowValues(t.value, labels).value))
    decreases |labels|
  {
    var n := |labels|;
    if n == 1 {
      if t.Some? {
        assert labels[..0] == [];
        var vs := RowValues(t.value, labels);
        if vs.Some? {
          assert vs.value[..0] == [];
        }
      }
    } else {
      var init := labels[..n - 1];
      ItemsSumIsRowSum(t, init);
      if t.Some? {
        var vs := RowValues(t.value, labels);
        if vs.Some? {
          assert vs.value[..n - 1] == RowValues(t.value, init).value;
        }
      }
    }
  }

  /** `nanc` (factor.py:10-16): any exception becomes NaN. */
  function Nanc(o: Outcome<Num>): (r: Num)
    ensures o.Raised? ==> r == NaN
    ensures o.Ok? ==> r == o.value
  {
    if o.Raised? then NaN else o.value
  }

  /** `self.price_df.iloc[-1]["Close"]`: None has no `.iloc`, an empty frame has no last row. */
  function LastClose(s: Snapshot): Outcome<Num> {
    match s.prices
    case None => Raised(MissingPrice)
    case Some(bars) => if bars == [] then Raised(MissingPrice) else Ok(Num(bars[|bars| - 1].close))
  }

  /** `self.prev_fund_factors[k]`. */
  function Prior(s: Snapshot, k: nat): Outcome<Snapshot> {
    if k < |s.prev| then Ok(s.prev[k]) else Raised(ChainUnderflow)
  }

  // ---------------------------------------------------------------- the factors

  function NumberOfShares(c: Config, s: Snapshot): Num {
    Nanc(Over(Item(s.balance, EquityLabel), Lit(c.parValue)))
  }

  function BVPS(c: Config, s: Snapshot): Num {
    Nanc(Over(Minus(Item(s.balance, TotalAssetsLabel), Item(s.balance, LiabilitiesLabel)),
              Ok(NumberOfShares(c, s))))
  }

  function MC(c: Config, s: Snapshot): Num {
    Nanc(Times(Times(Ok(NumberOfShares(c, s)), LastClose(s)), Lit(1000.0)))
  }

  function CCE(c: Config, s: Snapshot): Num {
    Nanc(Item(s.balance, CashLabel))
  }

  function TotalDebt(c: Config, s: Snapshot): Num {
    Nanc(Item(s.balance, LiabilitiesLabel))
  }

  function TotalAsset(c: Config, s: Snapshot): Num {
    Nanc(Item(s.balance, TotalAssetsLabel))
  }

  function EV(c: Config, s: Snapshot): Num {
    Nanc(Minus(Minus(Plus(Ok(MC(c, s)), Ok(TotalDebt(c, s))), Ok(CCE(c, s))),
               Item(s.balance, ShortTermInvestmentsLabel)))
  }

  function CFO(c: Config, s: Snapshot): Num {
    Nanc(Item(s.cashflow, OperatingCashFlowLabel))
  }

  function CFO2EV(c: Config, s: Snapshot): Num {
    Nanc(Over(Ok(CFO(c, s)), Ok(EV(c, s))))
  }

  function EBIT(c: Config, s: Snapshot): Num {
    Nanc(Plus(Item(s.income, PretaxProfitLabel), Item(s.income, InterestExpenseLabel)))
  }

  function EBITDA(c: Config, s: Snapshot): Num {
    Nanc(Plus(Ok(EBIT(c, s)), Item(s.cashflow, DepreciationLabel)))
  }

  function EBITDA2EV(c: Config, s: Snapshot): Num {
    Nanc(Over(Ok(EBITDA(c, s)), Ok(EV(c, s))))
  }

  /** The EPS of the k-th previous quarter, raising when the chain is too short. */
  function PriorEPS(c: Config, s: Snapshot, k: nat): Outcome<Num> {
    var p :- Prior(s, k);
    EPS(c, p)
  }

  function Trailing12MonthEPS(c: Config, s: Snapshot): Num {
    Nanc(Plus(Plus(Plus(EPS(c, s), PriorEPS(c, s, 0)), PriorEPS(c, s, 1)), PriorEPS(c, s, 2)))
  }

  function Trailing12MonthPE(c: Config, s: Snapshot): Num {
    Nanc(Over(Times(LastClose(s), Lit(1000.0)), Ok(Trailing12MonthEPS(c, s))))
  }

  function NetBB(c: Config, s: Snapshot): Num {
    Nanc(Minus(Plus(Negate(Item(s.cashflow, DividendsPaidLabel)), Negate(Item(s.cashflow, BuybackLabel))),
               Item(s.cashflow, ShareIssueLabel)))
  }

  function NetExtFin(c: Config, s: Snapshot): Num {
    Nanc(Minus(Plus(Ok(NetBB(c, s)), Negate(Item(s.cashflow, LoanRepaymentLabel))),
               Item(s.cashflow, BorrowingLabel)))
  }

  function BB2P(c: Config, s: Snapshot): Num {
    Nanc(Over(Ok(NetBB(c, s)), Ok(MC(c, s))))
  }

  function BB2EV(c: Config, s: Snapshot): Num {
    Nanc(Over(Ok(NetExtFin(c, s)), Ok(EV(c, s))))
  }

  function B2P(c: Config, s: Snapshot): Num {
    Nanc(Over(Ok(BVPS(c, s)), Times(LastClose(s), Lit(1000.0))))
  }

  function OPL(c: Config, s: Snapshot): Num {
    Nanc(ItemsSum(s.balance, OperatingLiabilityLabels))
  }

  function OPA(c: Config, s: Snapshot): Num {
    Nanc(ItemsSum(s.balance, OperatingAssetLabels))
  }

  function NOA(c: Config, s: Snapshot): Num {
    Nanc(Minus(Ok(OPA(c, s)), Ok(OPL(c, s))))
  }

  function CFROI(c: Config, s: Snapshot): Num {
    Nanc(Over(Ok(CFO(c, s)), Ok(NOA(c, s))))
  }

  function OL(c: Config, s: Snapshot): Num {
    Nanc(Over(Ok(OPL(c, s)), Ok(NOA(c, s))))
  }

  function XF(c: Config, s: Snapshot): Num {
    Nanc(Over(Ok(NetExtFin(c, s)), Ok(NOA(c, s))))
  }

  function WC(c: Config, s: Snapshot): Num {
    Nanc(Minus(Item(s.balance, CurrentAssetsLabel), Item(s.balance, LiabilitiesLabel)))
  }

  function Revenue(c: Config, s: Snapshot): Num {
    Nanc(Item(s.income, GrossRevenueLabel))
  }

  function S2EV(c: Config, s: Snapshot): Num {
    Nanc(Over(Ok(Revenue(c, s)), Ok(EV(c, s))))
  }

  function GrossIncome(c: Config, s: Snapshot): Num {
    Nanc(Item(s.income, GrossProfitLabel))
  }

  function NetIncome(c: Config, s: Snapshot): Num {
    Nanc(Item(s.income, NetIncomeLabel))
  }

  function DeltaNOPAT(c: Config, s: Snapshot): Num {
    Nanc(Minus(Ok(NetIncome(c, s)), var p :- Prior(s, 0); Ok(NetIncome(c, p))))
  }

  function DeltaNOA(c: Config, s: Snapshot): Num {
    Nanc(Minus(Ok(NOA(c, s)), var p :- Prior(s, 0); Ok(NOA(c, p))))
  }

  function DeltaSales(c: Config, s: Snapshot): Num {
    Nanc(Minus(Ok(Revenue(c, s)), var p :- Prior(s, 0); Ok(Revenue(c, p))))
  }

  function Profitability(c: Config, s: Snapshot): Num {
    Nanc(Over(Ok(DeltaNOPAT(c, s)), Ok(DeltaSales(c, s))))
  }

  function Scalability(c: Config, s: Snapshot): Num {
    Nanc(Over(Ok(DeltaSales(c, s)), Ok(NOA(c, s))))
  }

  function Growth(c: Config, s: Snapshot): Num {
    Nanc(Over(Ok(DeltaSales(c, s)), Ok(Revenue(c, s))))
  }

  function RIC(c: Config, s: Snapshot): Num {
    Nanc(Times(Ok(Profitability(c, s)), Ok(Scalability(c, s))))
  }

  function OtherInvestments(c: Config, s: Snapshot): Num {
    Nanc(ItemsSum(s.cashflow, OtherInvestmentLabels))
  }

  function DA(c: Config, s: Snapshot): Num {
    Nanc(Item(s.cashflow, DepreciationLabel))
  }

  function FCFF(c: Config, s: Snapshot): Num {
    Nanc(Minus(Minus(Minus(Plus(Ok(NetIncome(c, s)), Ok(DA(c, s))), Ok(DeltaWC(c, s))), Ok(CAPEX(c, s))),
               Ok(OtherInvestments(c, s))))
  }

  /** Indexes the cash-flow frame's columns by row labels (factor.py:317-320). */
  function FCFE(c: Config, s: Snapshot): Num {
    Nanc(Minus(Plus(Ok(FCFF(c, s)),
                    Plus(Plus(ColumnItem(s.cashflow, BorrowingLabel), ColumnItem(s.cashflow, LoanRepaymentLabel)),
                         ColumnItem(s.cashflow, LeaseRepaymentLabel))),
               Times(ColumnItem(s.cashflow, CashflowInterestLabel), Lit(1.0 - c.taxRate))))
  }

  function RNOA(c: Config, s: Snapshot): Num {
    Nanc(Over(Ok(NetIncome(c, s)), Ok(NOA(c, s))))
  }

  /** The one factor without `nanc` (factor.py:327-329): a zero share count raises. */
  function EPS(c: Config, s: Snapshot): Outcome<Num> {
    Over(Ok(NetIncome(c, s)), Ok(NumberOfShares(c, s)))
  }

  function PE(c: Config, s: Snapshot): Num {
    Nanc(Over(Times(LastClose(s), Lit(1000.0)), EPS(c, s)))
  }

  function DeltaWC(c: Config, s: Snapshot): Num {
    Nanc(Minus(Ok(WC(c, s)), var p :- Prior(s, 0); Ok(WC(c, p))))
  }

  function DeltaXF(c: Config, s: Snapshot): Num {
    Nanc(Minus(Ok(XF(c, s)), var p :- Prior(s, 0); Ok(XF(c, p))))
  }

  function CAPEX(c: Config, s: Snapshot): Num {
    Nanc(Negate(ItemsSum(s.cashflow, CapexLabels)))
  }

  function DeltaCAPEX(c: Config, s: Snapshot): Num {
    Nanc(Minus(Ok(CAPEX(c, s)), var p :- Prior(s, 0); Ok(CAPEX(c, p))))
  }

  function DeltaOL(c: Config, s: Snapshot): Num {
    Nanc(Minus(Ok(OL(c, s)), var p :- Prior(s, 0); Ok(OL(c, p))))
  }

  function AccountsPayable(c: Config, s: Snapshot): Num {
    Nanc(ItemsSum(s.balance, AccountsPayableLabels))
  }

  function COGS(c: Config, s: Snapshot): Num {
    Nanc(Item(s.income, CostOfGoodsLabel))
  }

  /** `AccountsPayable / COGS * 365 / 4`, evaluated left to right. */
  function DPO(c: Config, s: Snapshot): Num {
    Nanc(Over(Times(Over(Ok(AccountsPayable(c, s)), Ok(COGS(c, s))), Lit(365.0)), Lit(4.0)))
  }

  function AdminExp2S(c: Config, s: Snapshot): Num {
    Nanc(Over(Item(s.income, AdminExpenseLabel), Ok(Revenue(c, s))))
  }

  function SellExp2S(c: Config, s: Snapshot): Num {
    Nanc(Over(Item(s.income, SellingExpenseLabel), Ok(Revenue(c, s))))
  }

  function ROS(c: Config, s: Snapshot): Num {
    Nanc(Over(Ok(EBIT(c, s)), Ok(Revenue(c, s))))
  }

  // ---------------------------------------------------------------- what the factors promise

  /** FCFE looks its cash-flow rows up among the columns, where they never are: it is NaN
      for every snapshot. */
  lemma FCFEIsAlwaysNaN(c: Config, s: Snapshot)
    ensures FCFE(c, s) == NaN
  {
    assert BorrowingLabel != "values" by {
      assert BorrowingLabel[0] != "values"[0];
    }
  }

  /** EPS raises exactly when the share count is zero; a NaN share count gives NaN instead. */
  lemma EPSRaisesOnlyOnZeroShares(c: Config, s: Snapshot)
    ensures EPS(c, s).Raised? <==> NumberOfShares(c, s) == Num(0.0)
    ensures EPS(c, s).Raised? ==> EPS(c, s).error == DivisionByZero
  {
  }

  /** The wrapped accessors built on EPS turn its exception into NaN. */
  lemma EPSFailureIsContained(c: Config, s: Snapshot)
    requires EPS(c, s).Raised?
    ensures PE(c, s) == NaN
    ensures Trailing12MonthEPS(c, s) == NaN
  {
  }

  /** The share count is the equity row over the par value, and multiplying back gives the
      equity row; a missing row, a missing table or a zero par value gives NaN. */
  lemma NumberOfSharesFormula(c: Config, s: Snapshot)
    ensures s.balance.None? ==> NumberOfShares(c, s) == NaN
    ensures s.balance.Some? && Loc(s.balance.value, EquityLabel).None? ==> NumberOfShares(c, s) == NaN
    ensures c.parValue == 0.0 ==> NumberOfShares(c, s) == NaN
    ensures s.balance.Some? && Loc(s.balance.value, EquityLabel).Some? && c.parValue != 0.0 ==>
      var equity := Loc(s.balance.value, EquityLabel).value;
      && NumberOfShares(c, s) == Num(equity / c.parValue)
      && NumberOfShares(c, s).v * c.parValue == equity
  {
    if s.balance.Some? && Loc(s.balance.value, EquityLabel).Some? && c.parValue != 0.0 {
      var equity := Loc(s.balance.value, EquityLabel).value;
      DivideThenMultiply(equity / c.parValue, equity, c.parValue);
    }
  }

  /** Book value per share: total assets less liabilities, per share. */
  lemma BVPSFormula(c: Config, s: Snapshot, assets: real, liabilities: real, shares: real)
    requires s.balance.Some?
    requires Loc(s.balance.value, TotalAssetsLabel) == Some(assets)
    requires Loc(s.balance.value, LiabilitiesLabel) == Some(liabilities)
    requires NumberOfShares(c, s) == Num(shares)
    ensures shares != 0.0 ==> BVPS(c, s) == Num((assets - liabilities) / shares)
    ensures shares != 0.0 ==> BVPS(c, s).v * shares == assets - liabilities
    ensures shares == 0.0 ==> BVPS(c, s) == NaN
  {
    if shares != 0.0 {
      DivideThenMultiply((assets - liabilities) / shares, assets - liabilities, shares);
    }
  }

  /** Market capitalisation: shares times the last close in thousands; NaN without prices. */
  lemma MCFormula(c: Config, s: Snapshot, shares: real)
    requires NumberOfShares(c, s) == Num(shares)
    ensures s.prices.None? || s.prices.value == [] ==> MC(c, s) == NaN
    ensures s.prices.Some? && s.prices.value != [] ==>
      MC(c, s) == Num(shares * s.prices.value[|s.prices.value| - 1].close * 1000.0)
  {
  }

  /** Enterprise value: market capitalisation plus debt, less cash and short-term investments. */
  lemma EVFormula(c: Config, s: Snapshot, mc: real, debt: real, cash: real, investments: real)
    requires s.balance.Some?
    requires MC(c, s) == Num(mc)
    requires Loc(s.balance.value, LiabilitiesLabel) == Some(debt)
    requires Loc(s.balance.value, CashLabel) == Some(cash)
    requires Loc(s.balance.value, ShortTermInvestmentsLabel) == Some(investments)
    ensures EV(c, s) == Num(mc + debt - cash - investments)
  {
  }

  /** Operating assets: the sum of the nine operating-asset rows, NaN as soon as one is missing. */
  lemma OPAFormula(c: Config, s: Snapshot)
    ensures s.balance.None? ==> OPA(c, s) == NaN
    ensures s.balance.Some? ==>
      var assets := RowValues(s.balance.value, OperatingAssetLabels);
      && (assets.None? ==> OPA(c, s) == NaN)
      && (assets.Some? ==> OPA(c, s) == Num(Sum(assets.value)))
  {
    ItemsSumIsRowSum(s.balance, OperatingAssetLabels);
  }

  /** Operating liabilities: the sum of the six operating-liability rows, NaN as soon as one is missing. */
  lemma OPLFormula(c: Config, s: Snapshot)
    ensures s.balance.None? ==> OPL(c, s) == NaN
    ensures s.balance.Some? ==>
      var liabilities := RowValues(s.balance.value, OperatingLiabilityLabels);
      && (liabilities.None? ==> OPL(c, s) == NaN)
      && (liabilities.Some? ==> OPL(c, s) == Num(Sum(liabilities.value)))
  {
    ItemsSumIsRowSum(s.balance, OperatingLiabilityLabels);
  }

  /** Net operating assets: operating assets less operating liabilities (whose sums
      OPAFormula and OPLFormula give), NaN when either is. */
  lemma NOAFormula(c: Config, s: Snapshot)
    ensures OPA(c, s).NaN? || OPL(c, s).NaN? ==> NOA(c, s) == NaN
    ensures OPA(c, s).Num? && OPL(c, s).Num? ==> NOA(c, s) == Num(OPA(c, s).v - OPL(c, s).v)
    ensures s.balance.None? ==> NOA(c, s) == NaN
  {
  }

  /** Trailing twelve-month EPS adds this quarter's EPS to those of the three previous
      quarters; with fewer than three snapshots in the chain it is NaN. */
  lemma Trailing12MonthEPSFormula(c: Config, s: Snapshot)
    ensures |s.prev| < 3 ==> Trailing12MonthEPS(c, s) == NaN
    ensures |s.prev| >= 3 && EPS(c, s).Ok? && EPS(c, s.prev[0]).Ok? && EPS(c, s.prev[1]).Ok? && EPS(c, s.prev[2]).Ok? ==>
      Trailing12MonthEPS(c, s) ==
        AddNum(AddNum(AddNum(EPS(c, s).value, EPS(c, s.prev[0]).value), EPS(c, s.prev[1]).value), EPS(c, s.prev[2]).value)
  {
  }

  /** Every Delta factor is this quarter's value less that of the previous quarter, and NaN
      when the chain is empty. */
  lemma DeltasSubtractPreviousQuarter(c: Config, s: Snapshot)
    ensures s.prev == [] ==>
      && DeltaNOPAT(c, s) == NaN && DeltaNOA(c, s) == NaN && DeltaSales(c, s) == NaN
      && DeltaWC(c, s) == NaN && DeltaXF(c, s) == NaN && DeltaCAPEX(c, s) == NaN && DeltaOL(c, s) == NaN
    ensures s.prev != [] ==>
      var p := s.prev[0];
      && DeltaNOPAT(c, s) == SubNum(NetIncome(c, s), NetIncome(c, p))
      && DeltaNOA(c, s) == SubNum(NOA(c, s), NOA(c, p))
      && DeltaSales(c, s) == SubNum(Revenue(c, s), Revenue(c, p))
      && DeltaWC(c, s) == SubNum(WC(c, s), WC(c, p))
      && DeltaXF(c, s) == SubNum(XF(c, s), XF(c, p))
      && DeltaCAPEX(c, s) == SubNum(CAPEX(c, s), CAPEX(c, p))
      && DeltaOL(c, s) == SubNum(OL(c, s), OL(c, p))
  {
  }

  /** A zero enterprise value makes every ratio over it NaN; otherwise each is its
      numerator over EV. */
  lemma RatiosOverEV(c: Config, s: Snapshot)
    ensures EV(c, s) == Num(0.0) ==>
      CFO2EV(c, s) == NaN && EBITDA2EV(c, s) == NaN && BB2EV(c, s) == NaN && S2EV(c, s) == NaN
    ensures EV(c, s).Num? && EV(c, s).v != 0.0 && CFO(c, s).Num? ==>
      CFO2EV(c, s) == Num(CFO(c, s).v / EV(c, s).v)
    ensures EV(c, s).Num? && EV(c, s).v != 0.0 && Revenue(c, s).Num? ==>
      S2EV(c, s) == Num(Revenue(c, s).v / EV(c, s).v)
  {
  }

  /** A zero net operating assets figure makes every ratio over it NaN. */
  lemma RatiosOverNOA(c: Config, s: Snapshot)
    ensures NOA(c, s) == Num(0.0) ==>
      CFROI(c, s) == NaN && OL(c, s) == NaN && XF(c, s) == NaN && RNOA(c, s) == NaN && Scalability(c, s) == NaN
    ensures NOA(c, s).Num? && NOA(c, s).v != 0.0 && NetIncome(c, s).Num? ==>
      RNOA(c, s) == Num(NetIncome(c, s).v / NOA(c, s).v)
  {
  }

  /** A zero revenue makes every ratio over revenue NaN. */
  lemma RatiosOverRevenue(c: Config, s: Snapshot)
    ensures Revenue(c, s) == Num(0.0) ==>
      Growth(c, s) == NaN && AdminExp2S(c, s) == NaN && SellExp2S(c, s) == NaN && ROS(c, s) == NaN
    ensures Revenue(c, s).Num? && Revenue(c, s).v != 0.0 && EBIT(c, s).Num? ==>
      ROS(c, s) == Num(EBIT(c, s).v / Revenue(c, s).v)
  {
  }

  /** EBIT adds interest back to pre-tax profit, and EBITDA adds depreciation to EBIT. */
  lemma EarningsFormula(c: Config, s: Snapshot, pretax: real, interest: real, depreciation: real)
    requires s.income.Some? && s.cashflow.Some?
    requires Loc(s.income.value, PretaxProfitLabel) == Some(pretax)
    requires Loc(s.income.value, InterestExpenseLabel) == Some(interest)
    requires Loc(s.cashflow.value, DepreciationLabel) == Some(depreciation)
    ensures EBIT(c, s) == Num(pretax + interest)
    ensures EBITDA(c, s) == Num(pretax + interest + depreciation)
    ensures DA(c, s) == Num(depreciation)
  {
  }

  /** Net buyback is minus dividends paid, minus the buyback outflow, less new share issues;
      net external financing further subtracts repayments and borrowings. */
  lemma FinancingFormula(c: Config, s: Snapshot, dividends: real, buyback: real, issue: real,
                         repayment: real, borrowing: real)
    requires s.cashflow.Some?
    requires Loc(s.cashflow.value, DividendsPaidLabel) == Some(dividends)
    requires Loc(s.cashflow.value, BuybackLabel) == Some(buyback)
    requires Loc(s.cashflow.value, ShareIssueLabel) == Some(issue)
    requires Loc(s.cashflow.value, LoanRepaymentLabel) == Some(repayment)
    requires Loc(s.cashflow.value, BorrowingLabel) == Some(borrowing)
    ensures NetBB(c, s) == Num(-dividends - buyback - issue)
    ensures NetExtFin(c, s) == Num(-dividends - buyback - issue - repayment - borrowing)
  {
  }

  /** Capital expenditure is minus the sum of the purchase and disposal rows; working capital
      is current assets less liabilities. */
  lemma CapexAndWorkingCapital(c: Config, s: Snapshot)
    ensures s.cashflow.Some? && RowValues(s.cashflow.value, CapexLabels).Some? ==>
      CAPEX(c, s) == Num(-Sum(RowValues(s.cashflow.value, CapexLabels).value))
    ensures s.balance.Some? && Loc(s.balance.value, CurrentAssetsLabel).Some? && Loc(s.balance.value, LiabilitiesLabel).Some? ==>
      WC(c, s) == Num(Loc(s.balance.value, CurrentAssetsLabel).value - Loc(s.balance.value, LiabilitiesLabel).value)
  {
    ItemsSumIsRowSum(s.cashflow, CapexLabels);
  }

  /** Without a chain the trailing factors are NaN. */
  lemma EmptyChainTrailingNaN(c: Config, s: Snapshot)
    requires s.prev == []
    ensures Trailing12MonthEPS(c, s) == NaN && Trailing12MonthPE(c, s) == NaN
  {
  }

  /** Without a chain the ratios built on the Delta factors are NaN. */
  lemma EmptyChainRatiosNaN(c: Config, s: Snapshot)
    requires s.prev == []
    ensures Profitability(c, s) == NaN && Scalability(c, s) == NaN && Growth(c, s) == NaN && RIC(c, s) == NaN
    ensures FCFF(c, s) == NaN
  {
    DeltasSubtractPreviousQuarter(c, s);
  }

  /** A balance sheet that could not be read makes every factor drawn from it NaN. */
  lemma MissingBalanceSheetGivesNaN(c: Config, s: Snapshot)
    requires s.balance.None?
    ensures NumberOfShares(c, s) == NaN && BVPS(c, s) == NaN && MC(c, s) == NaN && EV(c, s) == NaN
    ensures OPA(c, s) == NaN && OPL(c, s) == NaN && NOA(c, s) == NaN && WC(c, s) == NaN
    ensures AccountsPayable(c, s) == NaN && EPS(c, s) == Ok(NaN)
  {
  }

  /** The same for a missing income statement; EPS still raises on a zero share count. */
  lemma MissingIncomeStatementGivesNaN(c: Config, s: Snapshot)
    requires s.income.None?
    ensures Revenue(c, s) == NaN && NetIncome(c, s) == NaN && EBIT(c, s) == NaN && GrossIncome(c, s) == NaN
    ensures COGS(c, s) == NaN && ROS(c, s) == NaN
    ensures NumberOfShares(c, s) != Num(0.0) ==> EPS(c, s) == Ok(NaN)
  {
  }

  /** The same for a missing cash-flow statement. */
  lemma MissingCashflowGivesNaN(c: Config, s: Snapshot)
    requires s.cashflow.None?
    ensures CFO(c, s) == NaN && DA(c, s) == NaN && NetBB(c, s) == NaN && NetExtFin(c, s) == NaN
    ensures CAPEX(c, s) == NaN && OtherInvestments(c, s) == NaN && FCFF(c, s) == NaN
  {
  }

  // ---------------------------------------------------------------- construction

  /** `datetime(year=y, month=m, day=1)` for the two ends of the window, start first. */
  function Window(start: Outcome<Date>, end: Outcome<Date>): Outcome<(Date, Date)> {
    var sd :- start;
    var ed :- end;
    Ok((sd, ed))
  }

  /** The price window [sd, ed) of factor.py:35-46. It is built from the `year` argument,
      not from `self.year`, so a `year` of None raises; a quarter other than 1, 2 or 3
      gets the fourth quarter's window. */
  function PriceWindow(year: Option<int>, quarter: int): (r: Outcome<(Date, Date)>)
    ensures r.Ok? ==> r.value.0.day == 1 && r.value.1.day == 1
    ensures r.Ok? ==> 1 <= r.value.0.month <= 12 && 1 <= r.value.1.month <= 12
  {
    match year
    case None => Raised(InvalidDate)
    case Some(y) =>
      if quarter == 1 then Window(FirstOfMonth(y, 1), FirstOfMonth(y, 4))
      else if quarter == 2 then Window(FirstOfMonth(y, 4), FirstOfMonth(y, 7))
      else if quarter == 3 then Window(FirstOfMonth(y, 7), FirstOfMonth(y, 10))
      else Window(FirstOfMonth(y, 10), FirstOfMonth(y + 1, 1))
  }

  /** For a quarter in 1..4 the window runs from the quarter's first day to its end date;
      any other quarter gets the fourth quarter's window. */
  lemma PriceWindowIsQuarter(year: int, quarter: int)
    requires MinYear <= year < MaxYear
    ensures ValidQuarter(quarter) ==>
      PriceWindow(Some(year), quarter) == Ok((QuarterStartDate(year, quarter), QuarterEndDate(year, quarter).value))
    ensures !ValidQuarter(quarter) ==> PriceWindow(Some(year), quarter) == PriceWindow(Some(year), 4)
  {
    QuarterEndDates(year, quarter);
  }

  /** Consecutive windows tile the calendar: each ends where the next quarter's starts. */
  lemma PriceWindowsTile(year: int, quarter: int)
    requires MinYear <= year < MaxYear - 1
    requires ValidQuarter(quarter)
    ensures var next := if quarter == 4 then (year + 1, 1) else (year, quarter + 1);
      && PriceWindow(Some(year), quarter).Ok?
      && PriceWindow(Some(next.0), next.1).Ok?
      && PriceWindow(Some(year), quarter).value.1 == PriceWindow(Some(next.0), next.1).value.0
  {
    var next := if quarter == 4 then (year + 1, 1) else (year, quarter + 1);
    PriceWindowIsQuarter(year, quarter);
    PriceWindowIsQuarter(next.0, next.1);
    PrevQuarterEndsAtQuarterStart(next.0, next.1);
  }

  /** The ordinal of a window end (a first of the month). */
  function FirstDay(d: Date): int
    requires 1 <= d.month <= 12
  {
    DayNumber(d.year, d.month, d.day)
  }

  /** `df[(df.index >= sd) & (df.index < ed)]`: the rows inside the window, in order. */
  function InWindow(bars: seq<Bar>, lo: int, hi: int): seq<Bar>
    decreases |bars|
  {
    if bars == [] then []
    else
      var kept := InWindow(bars[..|bars| - 1], lo, hi);
      var b := bars[|bars| - 1];
      if lo <= b.day < hi then kept + [b] else kept
  }

  /** The clipped rows are exactly the input rows that fall inside the window. */
  lemma {:induction false} InWindowKeeps(bars: seq<Bar>, lo: int, hi: int)
    ensures forall b :: b in InWindow(bars, lo, hi) <==> b in bars && lo <= b.day < hi
    decreases |bars|
  {
    if bars != [] {
      var init := bars[..|bars| - 1];
      InWindowKeeps(init, lo, hi);
      assert bars == init + [bars[|bars| - 1]];
    }
  }

  /** The filter keeps order: clipping a concatenation concatenates the clipped parts. */
  lemma {:induction false} InWindowAppend(a: seq<Bar>, b: seq<Bar>, lo: int, hi: int)
    ensures InWindow(a + b, lo, hi) == InWindow(a, lo, hi) + InWindow(b, lo, hi)
    decreases |b|
  {
    if b == [] {
      assert a + b == a;
    } else {
      var init := b[..|b| - 1];
      assert (a + b)[..|a + b| - 1] == a + init;
      InWindowAppend(a, init, lo, hi);
    }
  }

  /** The filter keeps multiplicity: each row inside the window occurs as often as in the
      input, and a row outside it not at all. */
  lemma {:induction false} InWindowCounts(bars: seq<Bar>, lo: int, hi: int)
    ensures forall b :: multiset(InWindow(bars, lo, hi))[b] == if lo <= b.day < hi then multiset(bars)[b] else 0
    decreases |bars|
  {
    if bars != [] {
      var init := bars[..|bars| - 1];
      InWindowCounts(init, lo, hi);
      assert bars == init + [bars[|bars| - 1]];
    }
  }

  /** The last clipped row is the last input row inside the window, so the close that
      `MC`, `EV` and the price ratios read is that row's. */
  lemma {:induction false} InWindowLast(bars: seq<Bar>, lo: int, hi: int, j: nat)
    requires j < |bars| && lo <= bars[j].day < hi
    requires forall i :: j < i < |bars| ==> !(lo <= bars[i].day < hi)
    ensures InWindow(bars, lo, hi) != []
    ensures InWindow(bars, lo, hi)[|InWindow(bars, lo, hi)| - 1] == bars[j]
    decreases |bars|
  {
    if j < |bars| - 1 {
      InWindowLast(bars[..|bars| - 1], lo, hi, j);
    }
  }

  /** A snapshot whose prices were clipped reads its last close from the last input row
      inside the window. */
  lemma ClippedLastClose(s: Snapshot, bars: seq<Bar>, lo: int, hi: int, j: nat)
    requires j < |bars| && lo <= bars[j].day < hi
    requires forall i :: j < i < |bars| ==> !(lo <= bars[i].day < hi)
    requires s.prices == Some(InWindow(bars, lo, hi))
    ensures LastClose(s) == Ok(Num(bars[j].close))
  {
    InWindowLast(bars, lo, hi, j);
  }

  /** The filter of factor.py:48-49 applied to what `read_price_df` returned: a price frame
      that is None has no `.index`. */
  function ClipPrices(prices: Option<seq<Bar>>, window: (Date, Date)): Outcome<Option<seq<Bar>>>
    requires 1 <= window.0.month <= 12 && 1 <= window.1.month <= 12
  {
    match prices
    case None => Raised(MissingPrice)
    case Some(bars) => Ok(Some(InWindow(bars, FirstDay(window.0), FirstDay(window.1))))
  }

  /** `__init__` up to the chain (factor.py:20-51). Without both `year` and `quarter`
      the fields come from `current_quarter_and_year()`, whose (quarter, year) pair is
      unpacked as (year, quarter). */
  function LoadQuarter(store: Store, symbol: string, year: Option<int>, quarter: Option<int>,
                       usingCurrentPrice: bool): (r: Outcome<Snapshot>)
    ensures r.Ok? ==> r.value.prev == [] && r.value.symbol == symbol
    ensures r.Ok? && year.Some? && quarter.Some? ==>
      r.value.year == year.value && r.value.quarter == quarter.value
  {
    var (y, q) := if year.None? || quarter.None? then CurrentQuarterAndYear(store.now)
                  else (year.value, quarter.value);
    var balance :- ReadBalanceSheet(store, symbol, y, q);
    // The three readers share the quarter gate, so the other two raise exactly when this one did.
    var income := ReadIncomeStatement(store, symbol, y, q).value;
    var cashflow := ReadCashflow(store, symbol, y, q).value;
    var prices := ReadPrices(store, symbol);
    var window :- PriceWindow(year, q);
    var kept :- if usingCurrentPrice then Ok(prices) else ClipPrices(prices, window);
    Ok(Snapshot(symbol, y, q, balance, income, cashflow, kept, []))
  }

  /** Without a `year` argument the constructor always raises: the readers reject the swapped
      quarter (a calendar year), and when that year happens to lie in 1..4 the window
      raises on `datetime(year=None)`. */
  lemma DefaultPathRaises(store: Store, symbol: string, quarter: Option<int>, usingCurrentPrice: bool)
    ensures LoadQuarter(store, symbol, None, quarter, usingCurrentPrice).Raised?
  {
    var (y, q) := CurrentQuarterAndYear(store.now);
    if ValidQuarter(q) {
      assert PriceWindow(None, q).Raised?;
    } else {
      assert QuarterEndDate(y, q).Raised?;
    }
  }

  /** With a `year` but no `quarter` the same swap happens: the readers get the calendar
      year as the quarter and raise unless that year lies in 1..4. */
  lemma DefaultQuarterPathRaises(store: Store, symbol: string, year: int, usingCurrentPrice: bool)
    requires !(1 <= store.now.year <= 4)
    ensures LoadQuarter(store, symbol, Some(year), None, usingCurrentPrice).Raised?
  {
    var (y, q) := CurrentQuarterAndYear(store.now);
    assert QuarterEndDate(y, q).Raised?;
  }

  /** A snapshot that loads has the quarter's statements as the readers give them and,
      unless the current price is asked for, only the price rows of the quarter's window. */
  lemma LoadedSnapshot(store: Store, symbol: string, year: int, quarter: int, usingCurrentPrice: bool)
    requires LoadQuarter(store, symbol, Some(year), Some(quarter), usingCurrentPrice).Ok?
    ensures var s := LoadQuarter(store, symbol, Some(year), Some(quarter), usingCurrentPrice).value;
      && ValidQuarter(quarter)
      && ReadBalanceSheet(store, symbol, year, quarter) == Ok(s.balance)
      && ReadIncomeStatement(store, symbol, year, quarter) == Ok(s.income)
      && ReadCashflow(store, symbol, year, quarter) == Ok(s.cashflow)
      && (usingCurrentPrice ==> s.prices == ReadPrices(store, symbol))
      && (!usingCurrentPrice ==>
            && s.prices.Some?
            && ReadPrices(store, symbol).Some?
            && var w := PriceWindow(Some(year), quarter).value;
               forall b :: b in s.prices.value <==>
                 b in ReadPrices(store, symbol).value && FirstDay(w.0) <= b.day < FirstDay(w.1))
  {
    var s := LoadQuarter(store, symbol, Some(year), Some(quarter), usingCurrentPrice).value;
    if !usingCurrentPrice {
      var w := PriceWindow(Some(year), quarter).value;
      InWindowKeeps(ReadPrices(store, symbol).value, FirstDay(w.0), FirstDay(w.1));
    }
  }

  /** The k-th snapshot of the chain: `prev_quarter` applied k+1 times, built with its
      chain suppressed and `using_current_price` left at False (factor.py:56-61). */
  function PriorLoad(store: Store, symbol: string, year: int, quarter: int, k: nat): Outcome<Snapshot> {
    var p := PrevQuarterN(year, quarter, k + 1);
    LoadQuarter(store, symbol, Some(p.0), Some(p.1), false)
  }

  predicate ChainLoads(store: Store, symbol: string, year: int, quarter: int) {
    forall k :: 0 <= k < 4 ==> PriorLoad(store, symbol, year, quarter, k).Ok?
  }

  /** `CompanyQuarterlyFundamentalFactors(symbol, year, quarter, dont_load_prev,
      using_current_price)`: a snapshot, or the exception its construction raised. */
  method Build(store: Store, symbol: string, year: Option<int>, quarter: Option<int>,
               dontLoadPrev: bool, usingCurrentPrice: bool) returns (r: Outcome<Snapshot>)
    ensures var base := LoadQuarter(store, symbol, year, quarter, usingCurrentPrice);
      r.Ok? <==> base.Ok? && (dontLoadPrev || ChainLoads(store, symbol, base.value.year, base.value.quarter))
    ensures var base := LoadQuarter(store, symbol, year, quarter, usingCurrentPrice);
      base.Raised? ==> r == Raised(base.error)
    ensures r.Ok? ==> r.value == LoadQuarter(store, symbol, year, quarter, usingCurrentPrice).value.(prev := r.value.prev)
    ensures r.Ok? && dontLoadPrev ==> r.value.prev == []
    ensures r.Ok? && !dontLoadPrev ==>
      && |r.value.prev| == 4
      && forall k :: 0 <= k < 4 ==>
           Ok(r.value.prev[k]) == PriorLoad(store, symbol, r.value.year, r.value.quarter, k)
    decreases if dontLoadPrev then 0 else 2
  {
    var base := LoadQuarter(store, symbol, year, quarter, usingCurrentPrice);
    if base.Raised? {
      return Raised(base.error);
    }
    var snap := base.value;
    if dontLoadPrev {
      r := Ok(snap);
    } else {
      var chain := LoadChain(store, symbol, snap.year, snap.quarter);
      if chain.Raised? {
        return Raised(chain.error);
      }
      r := Ok(snap.(prev := chain.value));
    }
  }

  /** The loop of factor.py:53-61: four steps back with `prev_quarter`, a chainless
      snapshot for each; an exception in any of them propagates. */
  method LoadChain(store: Store, symbol: string, year: int, quarter: int) returns (r: Outcome<seq<Snapshot>>)
    ensures r.Ok? <==> ChainLoads(store, symbol, year, quarter)
    ensures r.Ok? ==> |r.value| == 4
    ensures r.Ok? ==> forall k :: 0 <= k < 4 ==> Ok(r.value[k]) == PriorLoad(store, symbol, year, quarter, k)
    decreases 1
  {
    var chain: seq<Snapshot> := [];
    var prevYear, prevQuarter := year, quarter;
    var i := 0;
    while i < 4
      invariant 0 <= i <= 4
      invariant |chain| == i
      invariant (prevYear, prevQuarter) == PrevQuarterN(year, quarter, i)
      invariant forall k :: 0 <= k < i ==> Ok(chain[k]) == PriorLoad(store, symbol, year, quarter, k)
    {
      var step := PrevQuarter(prevYear, prevQuarter);
      prevYear, prevQuarter := step.0, step.1;
      assert (prevYear, prevQuarter) == PrevQuarterN(year, quarter, i + 1);
      var p := Build(store, symbol, Some(prevYear), Some(prevQuarter), true, false);
      if p.Raised? {
        assert !PriorLoad(store, symbol, year, quarter, i).Ok?;
        return Raised(p.error);
      }
      chain := chain + [p.value];
      i := i + 1;
    }
    r := Ok(chain);
  }
}
