/** The `*_with_year_range` readers of finb/utils/datahub.py: one statement per
    quarter from `from` to `to`, each becoming a column labelled "{y}-Q{q}" next
    to the `fields` column of the first statement that could be read. */
module YearRange {
  import opened Values
  import opened Calendar
  import opened Statements

  // ---------------------------------------------------------------- labels

  function DigitChar(d: int): char
    requires 0 <= d < 10
  {
    ('0' as int + d) as char
  }

  function CharDigit(c: char): int {
    if '0' <= c <= '9' then c as int - '0' as int else 0
  }

  /** The decimal digits of `n`, as `str(n)` writes them. */
  function Digits(n: nat): (r: string)
    ensures |r| > 0
    ensures forall i :: 0 <= i < |r| ==> '0' <= r[i] <= '9'
  {
    if n < 10 then [DigitChar(n)] else Digits(n / 10) + [DigitChar(n % 10)]
  }

  function ParseDigits(s: string): nat {
    if s == [] then 0 else ParseDigits(s[..|s| - 1]) * 10 + CharDigit(s[|s| - 1]) as nat
  }

  /** `str(n)` for any integer. */
  function IntToString(n: int): string {
    if n < 0 then "-" + Digits(-n) else Digits(n)
  }

  function ParseInt(s: string): int {
    if s != [] && s[0] == '-' then -(ParseDigits(s[1..]) as int) else ParseDigits(s)
  }

  lemma {:induction false} DigitsRoundTrip(n: nat)
    ensures ParseDigits(Digits(n)) == n
  {
    if n >= 10 {
      DigitsRoundTrip(n / 10);
      var s := Digits(n / 10) + [DigitChar(n % 10)];
      assert s[..|s| - 1] == Digits(n / 10);
    }
  }

  lemma NegativeRoundTrip(n: int)
    requires n < 0
    ensures ParseInt(IntToString(n)) == n
  {
    var d := Digits(-n);
    DigitsRoundTrip(-n);
    var s := "-" + d;
    assert s[1..] == d;
  }

  lemma NonNegativeRoundTrip(n: nat)
    ensures ParseInt(IntToString(n)) == n
  {
    DigitsRoundTrip(n);
    assert Digits(n)[0] != '-';
  }

  /** Reading back the text of an integer gives the integer. */
  lemma IntToStringRoundTrip(n: int)
    ensures ParseInt(IntToString(n)) == n
  {
    if n < 0 {
      NegativeRoundTrip(n);
    } else {
      NonNegativeRoundTrip(n);
    }
  }

  /** The column label `f"{y}-Q{q}"`. */
  function QuarterLabel(year: int, quarter: int): string
    requires ValidQuarter(quarter)
  {
    IntToString(year) + "-Q" + Digits(quarter)
  }

  /** Distinct quarters get distinct column labels. */
  lemma QuarterLabelInjective(y1: int, q1: int, y2: int, q2: int)
    requires ValidQuarter(q1) && ValidQuarter(q2)
    requires QuarterLabel(y1, q1) == QuarterLabel(y2, q2)
    ensures y1 == y2 && q1 == q2
  {
    var s1, s2 := IntToString(y1), IntToString(y2);
    var a := QuarterLabel(y1, q1);
    assert a == s1 + ['-', 'Q', DigitChar(q1)];
    assert a == s2 + ['-', 'Q', DigitChar(q2)];
    assert s1 == a[..|a| - 3] == s2;
    assert DigitChar(q1) == a[|a| - 1] == DigitChar(q2);
    IntToStringRoundTrip(y1);
    IntToStringRoundTrip(y2);
  }

  // ---------------------------------------------------------------- reading the quarters

  datatype Format = Raw | Percent

  datatype StatementKind = BalanceSheet | IncomeStatement

  /** A single-quarter reader: the statement of (year, quarter), None, or the exception. */
  type Reader = (int, int) -> Outcome<Option<Table>>

  /** The single-quarter reader the range reader calls. */
  function ReadStatement(store: Store, kind: StatementKind, format: Format, symbol: string, year: int, quarter: int)
    : Outcome<Option<Table>>
  {
    match (kind, format)
    case (BalanceSheet, Raw) => ReadBalanceSheet(store, symbol, year, quarter)
    case (BalanceSheet, Percent) => ReadBalanceSheetPercent(store, symbol, year, quarter)
    case (IncomeStatement, Raw) => ReadIncomeStatement(store, symbol, year, quarter)
    case (IncomeStatement, Percent) => ReadIncomeStatementPercent(store, symbol, year, quarter)
  }

  type Quarter = q: int | 1 <= q <= 4 witness 1

  /** One appended pair `(f"{y}-Q{q}", df)`, keeping the year and quarter that the label renders. */
  datatype Entry = Entry(year: int, quarter: Quarter, table: Option<Table>)

  /** How many quarters `range(from, to + 1) x range(1, 5)` visits. */
  function QuarterCount(from: int, to: int): nat {
    if from <= to then 4 * (to - from + 1) else 0
  }

  /** The year and quarter of the k-th visited quarter. */
  function YearOf(from: int, k: nat): int { from + k / 4 }
  function QuarterOf(k: nat): Quarter { k % 4 + 1 }

  /** The pair the loop appends for the k-th visited quarter, once its statement is read. */
  function EntryAt(from: int, k: nat, table: Option<Table>): Entry {
    Entry(YearOf(from, k), QuarterOf(k), table)
  }

  /** The reading of the k-th visited quarter. */
  function ReadAt(read: Reader, from: int, k: nat): Outcome<Option<Table>> {
    read(YearOf(from, k), QuarterOf(k))
  }

  /** The first `n` entries of the nested loop, or the first exception a reader raised. */
  function Entries(read: Reader, from: int, n: nat): (r: Outcome<seq<Entry>>)
    ensures r.Ok? ==> |r.value| == n
  {
    if n == 0 then Ok([])
    else match Entries(read, from, n - 1)
      case Raised(e) => Raised(e)
      case Ok(prev) =>
        match ReadAt(read, from, n - 1)
        case Raised(e) => Raised(e)
        case Ok(t) => Ok(prev + [EntryAt(from, n - 1, t)])
  }

  /** Entry k of the list is labelled by the k-th visited quarter and holds what the reader
      returned for it. */
  lemma {:induction false} EntriesAt(read: Reader, from: int, n: nat)
    requires Entries(read, from, n).Ok?
    ensures forall k :: 0 <= k < n ==>
      Entries(read, from, n).value[k].year == YearOf(from, k) && Entries(read, from, n).value[k].quarter == QuarterOf(k)
    ensures forall k :: 0 <= k < n ==> ReadAt(read, from, k) == Ok(Entries(read, from, n).value[k].table)
  {
    if n > 0 {
      EntriesLast(read, from, n);
      EntriesAt(read, from, n - 1);
      var prev, all := Entries(read, from, n - 1).value, Entries(read, from, n).value;
      assert forall k :: 0 <= k < n - 1 ==> all[k] == prev[k];
    }
  }

  /** A list of entries that was built had its shorter prefix built, and its last quarter read. */
  lemma EntriesLast(read: Reader, from: int, n: nat)
    requires n > 0 && Entries(read, from, n).Ok?
    ensures Entries(read, from, n - 1).Ok? && ReadAt(read, from, n - 1).Ok?
    ensures Entries(read, from, n).value
         == Entries(read, from, n - 1).value + [EntryAt(from, n - 1, ReadAt(read, from, n - 1).value)]
  {
  }

  /** Once a reader has raised, every longer prefix raises the same exception. */
  lemma {:induction false} EntriesStayRaised(read: Reader, from: int, n: nat, m: nat)
    requires n <= m
    requires Entries(read, from, n).Raised?
    ensures Entries(read, from, m) == Entries(read, from, n)
    decreases m
  {
    if n < m {
      EntriesStayRaised(read, from, n, m - 1);
      assert Entries(read, from, m - 1).Raised?;
    }
  }

  /** `index`: the labels of the first statement that was read, if any. */
  function FirstFields(entries: seq<Entry>): Option<seq<string>> {
    if entries == [] then None
    else match FirstFields(entries[..|entries| - 1])
      case Some(f) => Some(f)
      case None =>
        match entries[|entries| - 1].table
        case Some(t) => Some(Labels(t))
        case None => None
  }

  /** The index is the labels of the earliest statement present, and is absent only when
      every quarter read as None. */
  lemma {:induction false} FirstFieldsIsEarliest(entries: seq<Entry>)
    ensures FirstFields(entries).None? <==> forall k :: 0 <= k < |entries| ==> entries[k].table.None?
    ensures FirstFields(entries).Some? ==>
      exists k :: 0 <= k < |entries| && entries[k].table.Some?
               && FirstFields(entries).value == Labels(entries[k].table.value)
               && forall j :: 0 <= j < k ==> entries[j].table.None?
    decreases |entries|
  {
    if entries != [] {
      var init := entries[..|entries| - 1];
      FirstFieldsIsEarliest(init);
      if FirstFields(init).Some? {
        var k :| 0 <= k < |init| && init[k].table.Some?
               && FirstFields(init).value == Labels(init[k].table.value)
               && forall j :: 0 <= j < k ==> init[j].table.None?;
        assert entries[k] == init[k];
      } else {
        assert forall j :: 0 <= j < |init| ==> entries[j] == init[j];
      }
    }
  }

  /** One more visited quarter extends the entries by its pair, or raises. */
  lemma EntriesStep(read: Reader, from: int, n: nat)
    requires Entries(read, from, n).Ok?
    ensures ReadAt(read, from, n).Raised? ==> Entries(read, from, n + 1) == Raised(ReadAt(read, from, n).error)
    ensures ReadAt(read, from, n).Ok? ==>
      Entries(read, from, n + 1) == Ok(Entries(read, from, n).value + [EntryAt(from, n, ReadAt(read, from, n).value)])
  {
  }

  /** The n-th visited quarter, counted from 0, is quarter q of year y. */
  lemma VisitedQuarter(from: int, y: int, q: int, n: nat)
    requires 1 <= q <= 4 && n == 4 * (y - from) + q - 1
    ensures YearOf(from, n) == y && QuarterOf(n) == q
  {
    assert n == 4 * (y - from) + (q - 1);
  }

  /** The index after one more pair: kept if already set, else taken from the pair's statement. */
  lemma FirstFieldsAppend(entries: seq<Entry>, e: Entry)
    ensures FirstFields(entries + [e]) ==
      if FirstFields(entries).Some? then FirstFields(entries)
      else if e.table.Some? then Some(Labels(e.table.value)) else None
  {
    assert (entries + [e])[..|entries|] == entries;
  }

  /** One pass of the inner loop body: quarter q of year y is read, and either the rest of
      the year raises with it or the pair is appended. */
  lemma CollectStep(read: Reader, from: int, y: int, q: Quarter, acc: seq<Entry>)
    requires from <= y
    requires Entries(read, from, 4 * (y - from) + q - 1) == Ok(acc)
    ensures read(y, q).Raised? ==> Entries(read, from, 4 * (y - from) + 4) == Raised(read(y, q).error)
    ensures read(y, q).Ok? ==> Entries(read, from, 4 * (y - from) + q) == Ok(acc + [Entry(y, q, read(y, q).value)])
  {
    var n := 4 * (y - from) + q - 1;
    VisitedQuarter(from, y, q, n);
    EntriesStep(read, from, n);
    if read(y, q).Raised? {
      EntriesStayRaised(read, from, n + 1, 4 * (y - from) + 4);
    }
  }

  /** The nested `for y ... for q in range(1, 5)` loop: the list of pairs and `index`. */
  method CollectQuarters(read: Reader, from: int, to: int)
    returns (r: Outcome<(seq<Entry>, Option<seq<string>>)>)
    ensures r.Raised? <==> Entries(read, from, QuarterCount(from, to)).Raised?
    ensures r.Raised? ==> r.error == Entries(read, from, QuarterCount(from, to)).error
    ensures r.Ok? ==> r.value.0 == Entries(read, from, QuarterCount(from, to)).value
    ensures r.Ok? ==> r.value.1 == FirstFields(r.value.0)
  {
    var entries: seq<Entry> := [];
    var index: Option<seq<string>> := None;
    var y := from;
    while y <= to
      invariant from <= y
      invariant from <= to ==> y <= to + 1
      invariant from > to ==> y == from
      invariant Entries(read, from, 4 * (y - from)) == Ok(entries)
      invariant index == FirstFields(entries)
    {
      var year := CollectYear(read, from, y, entries, index);
      if year.Raised? {
        EntriesStayRaised(read, from, 4 * (y - from) + 4, QuarterCount(from, to));
        return Raised(year.error);
      }
      entries, index := year.value.0, year.value.1;
      y := y + 1;
    }
    assert 4 * (y - from) == QuarterCount(from, to);
    return Ok((entries, index));
  }

  /** The inner `for q in range(1, 5)` loop for year y: four more pairs, or the exception. */
  method CollectYear(read: Reader, from: int, y: int, entries: seq<Entry>, index: Option<seq<string>>)
    returns (r: Outcome<(seq<Entry>, Option<seq<string>>)>)
    requires from <= y
    requires Entries(read, from, 4 * (y - from)) == Ok(entries)
    requires index == FirstFields(entries)
    ensures r.Raised? ==> Entries(read, from, 4 * (y - from) + 4) == Raised(r.error)
    ensures r.Ok? ==> Entries(read, from, 4 * (y - from) + 4) == Ok(r.value.0)
    ensures r.Ok? ==> r.value.1 == FirstFields(r.value.0)
  {
    var acc, first := entries, index;
    var q := 1;
    while q <= 4
      invariant 1 <= q <= 5
      invariant Entries(read, from, 4 * (y - from) + q - 1) == Ok(acc)
      invariant first == FirstFields(acc)
    {
      var t := read(y, q);
      CollectStep(read, from, y, q, acc);
      if t.Raised? {
        return Raised(t.error);
      }
      FirstFieldsAppend(acc, Entry(y, q, t.value));
      acc := acc + [Entry(y, q, t.value)];
      if t.value.Some? && first.None? {
        first := Some(Labels(t.value.value));
      }
      q := q + 1;
    }
    return Ok((acc, first));
  }

  // ---------------------------------------------------------------- assembling the frame

  /** A quarter column: `""` for a quarter read as None, the statement's values, or (in the
      raw income-statement range as written) a column of NaN. */
  datatype Cell = Blank | Values(values: seq<real>) | AllNaN

  /** The returned frame: the `fields` column and one column per quarter. */
  datatype Frame = Frame(fields: seq<string>, columns: seq<Column>)

  /** The quarter column `ret_raw_df[f"{y}-Q{q}"]`. */
  datatype Column = Column(year: int, quarter: Quarter, cell: Cell) {
    /** The column's label, "{y}-Q{q}". */
    function Name(): string {
      QuarterLabel(year, quarter)
    }
  }

  function ValuesOf(t: Table): (r: seq<real>)
    ensures |r| == |t|
    ensures forall i :: 0 <= i < |t| ==> r[i] == t[i].value
  {
    seq(|t|, i requires 0 <= i < |t| => t[i].value)
  }

  /** `ret_raw_df[q] = df["values"].tolist()` or `= ""`: a list must match the frame's length. */
  function ColumnOf(fields: seq<string>, e: Entry): Outcome<Column> {
    match e.table
    case None => Ok(Column(e.year, e.quarter, Blank))
    case Some(t) => if |t| == |fields| then Ok(Column(e.year, e.quarter, Values(ValuesOf(t)))) else Raised(LengthMismatch)
  }

  /** The columns of `concat_raw_df` / `concat_percent_df` for a list of pairs. */
  function Columns(fields: seq<string>, entries: seq<Entry>): (r: Outcome<seq<Column>>)
    ensures r.Ok? ==> |r.value| == |entries|
  {
    if entries == [] then Ok([])
    else
      var init, e := entries[..|entries| - 1], entries[|entries| - 1];
      var prev :- Columns(fields, init);
      var c :- ColumnOf(fields, e);
      Ok(prev + [c])
  }

  /** Column k of the loop is the column built from pair k. */
  lemma {:induction false} ColumnsAt(fields: seq<string>, entries: seq<Entry>)
    requires Columns(fields, entries).Ok?
    ensures forall k :: 0 <= k < |entries| ==> Ok(Columns(fields, entries).value[k]) == ColumnOf(fields, entries[k])
    decreases |entries|
  {
    if entries != [] {
      var init := entries[..|entries| - 1];
      ColumnsAt(fields, init);
      assert forall k :: 0 <= k < |init| ==> entries[k] == init[k];
    }
  }

  /** The column loop raises exactly when one of the pairs' columns does. */
  lemma {:induction false} ColumnsRaisedIff(fields: seq<string>, entries: seq<Entry>)
    ensures Columns(fields, entries).Raised? <==> exists k :: 0 <= k < |entries| && ColumnOf(fields, entries[k]).Raised?
    decreases |entries|
  {
    if entries != [] {
      var init := entries[..|entries| - 1];
      ColumnsRaisedIff(fields, init);
      assert forall k :: 0 <= k < |init| ==> entries[k] == init[k];
      if Columns(fields, init).Ok? && ColumnOf(fields, entries[|entries| - 1]).Ok? {
        forall k | 0 <= k < |entries|
          ensures ColumnOf(fields, entries[k]).Ok?
        {
          if k < |init| {
            assert entries[k] == init[k];
          }
        }
      }
    }
  }

  /** The column loop of `concat_raw_df` / `concat_percent_df`. */
  method Concat(index: Option<seq<string>>, entries: seq<Entry>) returns (r: Outcome<Frame>)
    ensures var fields := if index.Some? then index.value else [];
            r == (match Columns(fields, entries)
                  case Ok(cs) => Ok(Frame(fields, cs))
                  case Raised(e) => Raised(e))
  {
    var fields := if index.Some? then index.value else [];
    var columns: seq<Column> := [];
    var i := 0;
    while i < |entries|
      invariant 0 <= i <= |entries|
      invariant Columns(fields, entries[..i]) == Ok(columns)
    {
      assert entries[..i + 1][..i] == entries[..i];
      var c := ColumnOf(fields, entries[i]);
      if c.Raised? {
        ColumnsStayRaised(fields, entries, i + 1);
        return Raised(c.error);
      }
      columns := columns + [c.value];
      i := i + 1;
    }
    assert entries[..i] == entries;
    return Ok(Frame(fields, columns));
  }

  /** A column that raises makes the whole column loop raise with it. */
  lemma {:induction false} ColumnsStayRaised(fields: seq<string>, entries: seq<Entry>, n: nat)
    requires 0 < n <= |entries|
    requires Columns(fields, entries[..n - 1]).Ok?
    requires ColumnOf(fields, entries[n - 1]).Raised?
    ensures Columns(fields, entries) == Raised(ColumnOf(fields, entries[n - 1]).error)
    decreases |entries| - n
  {
    if n == |entries| {
      assert entries[..n] == entries;
      assert entries[..n][..n - 1] == entries[..n - 1];
    } else {
      var init := entries[..|entries| - 1];
      assert init[..n - 1] == entries[..n - 1];
      ColumnsStayRaised(fields, init, n);
    }
  }

  function ConcatView(index: Option<seq<string>>, entries: seq<Entry>): Outcome<Frame> {
    var fields := if index.Some? then index.value else [];
    var cs :- Columns(fields, entries);
    Ok(Frame(fields, cs))
  }

  // ---------------------------------------------------------------- the range readers

  /** The frame a range reader returns when its columns come from the list its index came
      from (every range reader except the percent income statement). */
  function RangeView(read: Reader, from: int, to: int): Outcome<Frame> {
    var entries :- Entries(read, from, QuarterCount(from, to));
    ConcatView(FirstFields(entries), entries)
  }

  /** The collection loop followed by the column loop. */
  method AssembleRange(read: Reader, from: int, to: int) returns (r: Outcome<Frame>)
    ensures r == RangeView(read, from, to)
  {
    var collected := CollectQuarters(read, from, to);
    if collected.Raised? {
      return Raised(collected.error);
    }
    r := Concat(collected.value.1, collected.value.0);
  }

  /** Column k of the range frame is labelled by the k-th visited quarter and holds that
      quarter's values, or is blank when the quarter read as None. */
  lemma RangeColumnAt(read: Reader, from: int, to: int, k: nat)
    requires RangeView(read, from, to).Ok?
    requires k < QuarterCount(from, to)
    ensures var f := RangeView(read, from, to).value;
            && |f.columns| == QuarterCount(from, to)
            && f.columns[k].Name() == QuarterLabel(YearOf(from, k), QuarterOf(k))
            && match read(YearOf(from, k), QuarterOf(k))
               case Ok(None) => f.columns[k].cell == Blank
               case Ok(Some(t)) => f.columns[k].cell == Values(ValuesOf(t))
               case Raised(_) => false
  {
    var n := QuarterCount(from, to);
    var entries := Entries(read, from, n).value;
    EntriesAt(read, from, n);
    var fields := if FirstFields(entries).Some? then FirstFields(entries).value else [];
    ColumnsAt(fields, entries);
    assert RangeView(read, from, to).value.columns == Columns(fields, entries).value;
    assert ReadAt(read, from, k) == Ok(entries[k].table);
    assert entries[k].year == YearOf(from, k) && entries[k].quarter == QuarterOf(k);
  }

  /** The range frame has one column per visited quarter, labelled "{y}-Q{q}" in order of
      year and then quarter 1..4; a quarter that read as None is blank, and any other
      carries that quarter's values. */
  lemma RangeColumns(read: Reader, from: int, to: int)
    requires RangeView(read, from, to).Ok?
    ensures |RangeView(read, from, to).value.columns| == QuarterCount(from, to)
    ensures forall k :: 0 <= k < QuarterCount(from, to) ==>
              RangeView(read, from, to).value.columns[k].Name() == QuarterLabel(YearOf(from, k), QuarterOf(k))
    ensures forall k :: 0 <= k < QuarterCount(from, to) && read(YearOf(from, k), QuarterOf(k)) == Ok(None) ==>
              RangeView(read, from, to).value.columns[k].cell == Blank
    ensures forall k, t :: 0 <= k < QuarterCount(from, to) && read(YearOf(from, k), QuarterOf(k)) == Ok(Some(t)) ==>
              RangeView(read, from, to).value.columns[k].cell == Values(ValuesOf(t))
  {
    var n := QuarterCount(from, to);
    var entries := Entries(read, from, n).value;
    var fields := if FirstFields(entries).Some? then FirstFields(entries).value else [];
    assert |RangeView(read, from, to).value.columns| == n;
    forall k | 0 <= k < n
      ensures RangeView(read, from, to).value.columns[k].Name() == QuarterLabel(YearOf(from, k), QuarterOf(k))
      ensures read(YearOf(from, k), QuarterOf(k)).Ok?
      ensures read(YearOf(from, k), QuarterOf(k)) == Ok(None) ==> RangeView(read, from, to).value.columns[k].cell == Blank
      ensures read(YearOf(from, k), QuarterOf(k)).Ok? && read(YearOf(from, k), QuarterOf(k)).value.Some? ==>
              RangeView(read, from, to).value.columns[k].cell == Values(ValuesOf(read(YearOf(from, k), QuarterOf(k)).value.value))
    {
      RangeColumnAt(read, from, to, k);
    }
  }

  /** A reader that does not raise on the visited quarters lets the collection loop finish. */
  lemma {:induction false} EntriesOk(read: Reader, from: int, n: nat)
    requires forall k :: 0 <= k < n ==> ReadAt(read, from, k).Ok?
    ensures Entries(read, from, n).Ok?
  {
    if n > 0 {
      EntriesOk(read, from, n - 1);
    }
  }

  /** The single-quarter readers raise exactly when the quarter's end date cannot be built. */
  lemma ReadStatementRaises(store: Store, kind: StatementKind, format: Format, symbol: string, year: int, quarter: int)
    ensures ReadStatement(store, kind, format, symbol, year, quarter).Raised?
            <==> QuarterEndDate(year, quarter).Raised?
  {
  }

  /** Between years 1 and 9998 no quarter's end date fails, so with a reader that raises
      only for such a failure the collection loop finishes. */
  lemma RangeReadsInYears(read: Reader, from: int, to: int)
    requires MinYear <= from && to < MaxYear
    requires forall y, q :: read(y, q).Raised? ==> QuarterEndDate(y, q).Raised?
    ensures Entries(read, from, QuarterCount(from, to)).Ok?
  {
    forall k | 0 <= k < QuarterCount(from, to)
      ensures ReadAt(read, from, k).Ok?
    {
      var y, q := YearOf(from, k), QuarterOf(k);
      assert y <= to;
      QuarterEndDates(y, q);
    }
    EntriesOk(read, from, QuarterCount(from, to));
  }

  /** `read_balance_sheet_with_year_range(symbol, from, to, format)`. */
  method BalanceSheetRange(store: Store, symbol: string, from: int, to: int, format: Format)
    returns (r: Outcome<Frame>)
    ensures r == RangeView((y, q) => ReadStatement(store, BalanceSheet, format, symbol, y, q), from, to)
  {
    r := AssembleRange((y, q) => ReadStatement(store, BalanceSheet, format, symbol, y, q), from, to);
  }

  /** `read_income_statement_with_year_range(symbol, from, to, "percent")` as written: the
      percent statements are collected into `list_percent_df`, but `concat_percent_df` loops
      over `list_raw_df`, which this format leaves empty. */
  method IncomeStatementPercentRangeAsWritten(store: Store, symbol: string, from: int, to: int)
    returns (r: Outcome<Frame>)
    ensures r == IncomePercentRangeAsWrittenView(store, symbol, from, to)
  {
    var collected := CollectQuarters((y, q) => ReadIncomeStatementPercent(store, symbol, y, q), from, to);
    if collected.Raised? {
      return Raised(collected.error);
    }
    var listRaw: seq<Entry> := [];
    r := Concat(collected.value.1, listRaw);
  }

  function IncomePercentRangeAsWrittenView(store: Store, symbol: string, from: int, to: int): Outcome<Frame> {
    var entries :- Entries((y, q) => ReadIncomeStatementPercent(store, symbol, y, q), from, QuarterCount(from, to));
    ConcatView(FirstFields(entries), [])
  }

  /** The discrepancy: whatever the quarters hold, the percent income frame as written has
      no quarter column, while the corrected frame has one per visited quarter. */
  lemma IncomePercentRangeHasNoColumns(store: Store, symbol: string, from: int, to: int)
    requires from <= to
    requires MinYear <= from && to < MaxYear
    ensures IncomePercentRangeAsWrittenView(store, symbol, from, to).Ok?
    ensures IncomePercentRangeAsWrittenView(store, symbol, from, to).value.columns == []
    ensures var fixed := RangeView((y, q) => ReadIncomeStatementPercent(store, symbol, y, q), from, to);
            fixed.Ok? ==> |fixed.value.columns| == 4 * (to - from + 1)
  {
    var read: Reader := (y, q) => ReadIncomeStatementPercent(store, symbol, y, q);
    RangeReadsInYears(read, from, to);
    if RangeView(read, from, to).Ok? {
      RangeColumns(read, from, to);
    }
  }

  /** `read_income_statement_with_year_range(symbol, from, to, format)` with the evident
      intent: the columns come from the list the chosen format filled. */
  method IncomeStatementRange(store: Store, symbol: string, from: int, to: int, format: Format)
    returns (r: Outcome<Frame>)
    ensures r == RangeView((y, q) => ReadStatement(store, IncomeStatement, format, symbol, y, q), from, to)
  {
    r := AssembleRange((y, q) => ReadStatement(store, IncomeStatement, format, symbol, y, q), from, to);
  }

  // ---------------------------------------------------------------- the raw income range as written

  /** `ret_raw_df[q] = df["values"]` in the raw income-statement range (datahub.py:268-276):
      only `fields` was assigned before, so the frame has a RangeIndex, while the Series is
      indexed by the field labels. pandas aligns the two by label, matches none, and the
      column is all NaN whatever its length; a quarter read as None gets `""`. */
  function AlignedColumn(e: Entry): Column {
    Column(e.year, e.quarter, if e.table.Some? then AllNaN else Blank)
  }

  function AlignedColumns(entries: seq<Entry>): (r: seq<Column>)
    ensures |r| == |entries|
    ensures forall k :: 0 <= k < |entries| ==> r[k] == AlignedColumn(entries[k])
  {
    seq(|entries|, k requires 0 <= k < |entries| => AlignedColumn(entries[k]))
  }

  /** The frame of a range whose column loop makes label-aligned assignments. */
  function AlignedRangeView(read: Reader, from: int, to: int): Outcome<Frame> {
    var entries :- Entries(read, from, QuarterCount(from, to));
    var index := FirstFields(entries);
    Ok(Frame(if index.Some? then index.value else [], AlignedColumns(entries)))
  }

  /** With label-aligned assignments, every quarter that was read comes out as a column of
      NaN, and every quarter read as None as `""`. */
  lemma AlignedRangeColumns(read: Reader, from: int, to: int)
    requires Entries(read, from, QuarterCount(from, to)).Ok?
    ensures AlignedRangeView(read, from, to).Ok?
    ensures |AlignedRangeView(read, from, to).value.columns| == QuarterCount(from, to)
    ensures forall k, t ::
              (0 <= k < QuarterCount(from, to) && read(YearOf(from, k), QuarterOf(k)) == Ok(Some(t)))
              ==> AlignedRangeView(read, from, to).value.columns[k].cell == AllNaN
    ensures forall k ::
              (0 <= k < QuarterCount(from, to) && read(YearOf(from, k), QuarterOf(k)) == Ok(None))
              ==> AlignedRangeView(read, from, to).value.columns[k].cell == Blank
  {
    EntriesAt(read, from, QuarterCount(from, to));
  }

  function IncomeRawRangeAsWrittenView(store: Store, symbol: string, from: int, to: int): Outcome<Frame> {
    AlignedRangeView((y, q) => ReadStatement(store, IncomeStatement, Raw, symbol, y, q), from, to)
  }

  /** `read_income_statement_with_year_range(symbol, from, to, "raw")` as written: the
      collection loop, then the column loop of label-aligned assignments. */
  method IncomeStatementRawRangeAsWritten(store: Store, symbol: string, from: int, to: int)
    returns (r: Outcome<Frame>)
    ensures r == IncomeRawRangeAsWrittenView(store, symbol, from, to)
  {
    var collected := CollectQuarters((y, q) => ReadStatement(store, IncomeStatement, Raw, symbol, y, q), from, to);
    if collected.Raised? {
      return Raised(collected.error);
    }
    var entries, index := collected.value.0, collected.value.1;
    var columns: seq<Column> := [];
    var i := 0;
    while i < |entries|
      invariant 0 <= i <= |entries|
      invariant |columns| == i
      invariant forall k :: 0 <= k < i ==> columns[k] == AlignedColumn(entries[k])
    {
      columns := columns + [AlignedColumn(entries[i])];
      i := i + 1;
    }
    assert columns == AlignedColumns(entries);
    r := Ok(Frame(if index.Some? then index.value else [], columns));
  }

  /** The discrepancy: in years 1..9998 the raw income range as written never raises and
      every quarter that was read comes out as a column of NaN, while the corrected frame
      carries that quarter's values. */
  lemma IncomeRawRangeLosesValues(store: Store, symbol: string, from: int, to: int)
    requires MinYear <= from && to < MaxYear
    ensures IncomeRawRangeAsWrittenView(store, symbol, from, to).Ok?
    ensures |IncomeRawRangeAsWrittenView(store, symbol, from, to).value.columns| == QuarterCount(from, to)
    ensures forall k, t ::
              (0 <= k < QuarterCount(from, to) && ReadStatement(store, IncomeStatement, Raw, symbol, YearOf(from, k), QuarterOf(k)) == Ok(Some(t)))
              ==> IncomeRawRangeAsWrittenView(store, symbol, from, to).value.columns[k].cell == AllNaN
    ensures var fixed := RangeView((y, q) => ReadStatement(store, IncomeStatement, Raw, symbol, y, q), from, to);
            forall k, t ::
              (fixed.Ok? && 0 <= k < QuarterCount(from, to) && ReadStatement(store, IncomeStatement, Raw, symbol, YearOf(from, k), QuarterOf(k)) == Ok(Some(t)))
              ==> fixed.value.columns[k].cell == Values(ValuesOf(t))
  {
    var read: Reader := (y, q) => ReadStatement(store, IncomeStatement, Raw, symbol, y, q);
    RangeReadsInYears(read, from, to);
    AlignedRangeColumns(read, from, to);
    if RangeView(read, from, to).Ok? {
      RangeColumns(read, from, to);
    }
  }
}
