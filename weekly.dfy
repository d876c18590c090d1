/** The daily-to-weekly aggregation of finb/utils/datahub.py (`generate_weekly_quotes`).

    Every daily row is keyed by the Monday of its week; the week keys are taken
    in order of first appearance (pandas `unique`), and each week becomes one bar:
    the first row's open, the highest high, the lowest low, the last row's close
    and the summed volume. */
module Weekly {
  import opened Values
  import opened Calendar
  import opened Statements

  // ---------------------------------------------------------------- week keys

  /** `date - dayofweek days`: the Monday of the day's week. */
  function WeekOf(day: int): int {
    day - Weekday(day)
  }

  /** The key of a day is a Monday at most six days before it. */
  lemma WeekOfIsMonday(day: int)
    ensures Weekday(WeekOf(day)) == 0
    ensures WeekOf(day) <= day < WeekOf(day) + 7
  {
  }

  /** A day belongs to the week of `monday` exactly when its key is `monday`. */
  lemma WeekOfIsUnique(day: int, monday: int)
    requires Weekday(monday) == 0
    ensures WeekOf(day) == monday <==> monday <= day < monday + 7
  {
    if monday <= day < monday + 7 {
      assert Weekday(day) == day - monday by {
        assert (day + 6) == (monday + 6) + (day - monday);
        assert (monday + 6) % 7 == 0;
      }
    }
  }

  /** The week key of every row, in row order. */
  function Weeks(bars: seq<Bar>): (r: seq<int>)
    ensures |r| == |bars|
    ensures forall i :: 0 <= i < |bars| ==> r[i] == WeekOf(bars[i].day)
  {
    seq(|bars|, i requires 0 <= i < |bars| => WeekOf(bars[i].day))
  }

  /** The position where `x` first occurs in `s`. */
  function First(s: seq<int>, x: int): (r: nat)
    requires x in s
    ensures r < |s| && s[r] == x
    ensures forall m :: 0 <= m < r ==> s[m] != x
  {
    if s[0] == x then 0 else 1 + First(s[1..], x)
  }

  lemma FirstInPrefix(s: seq<int>, y: int, x: int)
    requires x in s
    ensures First(s + [y], x) == First(s, x)
  {
    if s[0] != x {
      assert (s + [y])[1..] == s[1..] + [y];
      FirstInPrefix(s[1..], y, x);
    }
  }

  lemma FirstOfNew(s: seq<int>, x: int)
    requires x !in s
    ensures First(s + [x], x) == |s|
  {
    if s != [] {
      assert (s + [x])[1..] == s[1..] + [x];
      FirstOfNew(s[1..], x);
    }
  }

  /** pandas `unique`: the distinct values of `s` in order of first appearance. */
  function Unique(s: seq<int>): (r: seq<int>)
    ensures forall i :: 0 <= i < |r| ==> r[i] in s
    ensures forall i, j :: 0 <= i < j < |r| ==> r[i] != r[j]
    decreases |s|
  {
    if s == [] then []
    else
      var init, x := s[..|s| - 1], s[|s| - 1];
      var u := Unique(init);
      assert forall i :: 0 <= i < |u| ==> u[i] in init && init[..] <= s;
      if x in u then u else u + [x]
  }

  /** Every value of `s` is among its distinct values. */
  lemma {:induction false} UniqueCovers(s: seq<int>, x: int)
    requires x in s
    ensures x in Unique(s)
    decreases |s|
  {
    var init, y := s[..|s| - 1], s[|s| - 1];
    assert s == init + [y];
    if x != y {
      UniqueCovers(init, x);
    }
  }

  /** The distinct values come out in the order in which they first appear. */
  lemma {:induction false} UniqueKeepsFirstAppearanceOrder(s: seq<int>)
    ensures forall i, j :: 0 <= i < j < |Unique(s)| ==> First(s, Unique(s)[i]) < First(s, Unique(s)[j])
    decreases |s|
  {
    if s != [] {
      var init, x := s[..|s| - 1], s[|s| - 1];
      assert s == init + [x];
      var u := Unique(init);
      UniqueKeepsFirstAppearanceOrder(init);
      assert forall i :: 0 <= i < |u| ==> u[i] in init;
      FirstsInPrefix(init, x, u);
      if x !in u {
        if x in init {
          UniqueCovers(init, x);
        }
        FirstOfNew(init, x);
        var r := u + [x];
        assert Unique(s) == r;
        forall i, j | 0 <= i < j < |r|
          ensures First(s, r[i]) < First(s, r[j])
        {
          if j < |u| {
            assert r[i] == u[i] && r[j] == u[j];
          } else {
            assert r[i] == u[i] && r[j] == x;
          }
        }
      }
    }
  }

  lemma FirstsInPrefix(init: seq<int>, x: int, u: seq<int>)
    requires forall i :: 0 <= i < |u| ==> u[i] in init
    ensures forall i :: 0 <= i < |u| ==> First(init + [x], u[i]) == First(init, u[i])
  {
    forall i | 0 <= i < |u|
      ensures First(init + [x], u[i]) == First(init, u[i])
    {
      FirstInPrefix(init, x, u[i]);
    }
  }

  // ---------------------------------------------------------------- one week

  /** `df_copy[df_copy["Week"] == w]`: the rows of week `w`, in row order. */
  function RowsOfWeek(bars: seq<Bar>, w: int): seq<Bar>
    decreases |bars|
  {
    if bars == [] then []
    else
      var init, b := bars[..|bars| - 1], bars[|bars| - 1];
      RowsOfWeek(init, w) + (if WeekOf(b.day) == w then [b] else [])
  }

  /** The rows of a week are exactly the rows of the table with that week key, and there
      are some exactly when the key occurs. */
  lemma {:induction false} RowsOfWeekMembers(bars: seq<Bar>, w: int)
    ensures forall b :: b in RowsOfWeek(bars, w) <==> b in bars && WeekOf(b.day) == w
    ensures RowsOfWeek(bars, w) == [] <==> w !in Weeks(bars)
    decreases |bars|
  {
    if bars != [] {
      var init, b := bars[..|bars| - 1], bars[|bars| - 1];
      RowsOfWeekMembers(init, w);
      assert bars == init + [b];
      assert Weeks(bars) == Weeks(init) + [WeekOf(b.day)];
    }
  }

  function Volumes(rows: seq<Bar>): (r: seq<real>)
    ensures |r| == |rows|
    ensures forall i :: 0 <= i < |rows| ==> r[i] == rows[i].volume
  {
    seq(|rows|, i requires 0 <= i < |rows| => rows[i].volume)
  }

  lemma VolumesAppend(a: seq<Bar>, b: Bar)
    ensures Volumes(a + [b]) == Volumes(a) + [b.volume]
  {
    var l, r := Volumes(a + [b]), Volumes(a) + [b.volume];
    forall i | 0 <= i < |l|
      ensures l[i] == r[i]
    {
      if i < |a| {
        assert (a + [b])[i] == a[i];
      }
    }
  }

  lemma VolumesPrefix(a: seq<Bar>, n: nat)
    requires n <= |a|
    ensures Volumes(a)[..n] == Volumes(a[..n])
  {
    var l, r := Volumes(a)[..n], Volumes(a[..n]);
    forall i | 0 <= i < n
      ensures l[i] == r[i]
    {
    }
  }

  /** `df_iw["High"].max()`. */
  function MaxHigh(rows: seq<Bar>): real
    requires rows != []
  {
    if |rows| == 1 then rows[0].high
    else
      var m := MaxHigh(rows[1..]);
      if rows[0].high >= m then rows[0].high else m
  }

  /** `df_iw["Low"].min()`. */
  function MinLow(rows: seq<Bar>): real
    requires rows != []
  {
    if |rows| == 1 then rows[0].low
    else
      var m := MinLow(rows[1..]);
      if rows[0].low <= m then rows[0].low else m
  }

  /** The highest high bounds every row and is some row's high. */
  lemma {:induction false} MaxHighIsMaximum(rows: seq<Bar>)
    requires rows != []
    ensures forall b :: b in rows ==> b.high <= MaxHigh(rows)
    ensures exists b :: b in rows && b.high == MaxHigh(rows)
  {
    if |rows| > 1 {
      MaxHighIsMaximum(rows[1..]);
      assert forall b :: b in rows ==> b == rows[0] || b in rows[1..];
      if rows[0].high < MaxHigh(rows[1..]) {
        var c :| c in rows[1..] && c.high == MaxHigh(rows[1..]);
        assert c in rows;
      }
    } else {
      assert rows[0] in rows;
    }
  }

  /** The lowest low bounds every row and is some row's low. */
  lemma {:induction false} MinLowIsMinimum(rows: seq<Bar>)
    requires rows != []
    ensures forall b :: b in rows ==> MinLow(rows) <= b.low
    ensures exists b :: b in rows && b.low == MinLow(rows)
  {
    if |rows| > 1 {
      MinLowIsMinimum(rows[1..]);
      assert forall b :: b in rows ==> b == rows[0] || b in rows[1..];
      if rows[0].low > MinLow(rows[1..]) {
        var c :| c in rows[1..] && c.low == MinLow(rows[1..]);
        assert c in rows;
      }
    } else {
      assert rows[0] in rows;
    }
  }

  /** The weekly bar of week `w` built from that week's rows (datahub.py:42-47). */
  function WeekBar(w: int, rows: seq<Bar>): Bar
    requires rows != []
  {
    Bar(w, rows[0].open, MaxHigh(rows), MinLow(rows), rows[|rows| - 1].close, Sum(Volumes(rows)))
  }

  /** The bar of a week that occurs in the daily table. */
  function BarOfWeek(bars: seq<Bar>, w: int): Bar
    requires w in Weeks(bars)
  {
    RowsOfWeekMembers(bars, w);
    WeekBar(w, RowsOfWeek(bars, w))
  }

  /** The weekly table: one bar per distinct week key, in order of first appearance. */
  function WeeklyView(bars: seq<Bar>): (r: seq<Bar>)
    ensures |r| == |Unique(Weeks(bars))|
  {
    var keys := Unique(Weeks(bars));
    seq(|keys|, i requires 0 <= i < |keys| => BarOfWeek(bars, keys[i]))
  }

  // ---------------------------------------------------------------- the loop

  /** `generate_weekly_quotes(df)`: each week's bar is written at index -1 and the index
      shifted and sorted, which prepends it; the table is reversed at the end. */
  method WeeklyQuotes(bars: seq<Bar>) returns (weekly: seq<Bar>)
    ensures weekly == WeeklyView(bars)
  {
    var keys := Unique(Weeks(bars));
    ghost var view := WeeklyView(bars);
    var table: seq<Bar> := [];
    var i := 0;
    while i < |keys|
      invariant 0 <= i <= |keys| == |view|
      invariant |table| == i
      invariant forall k :: 0 <= k < i ==> table[i - 1 - k] == view[k]
    {
      var bar := BarOfWeek(bars, keys[i]);
      assert bar == view[i];
      PrependKeepsReversedPrefix(table, bar, view, i);
      table := [bar] + table;
      i := i + 1;
    }
    weekly := Reversed(table);
    assert |weekly| == |view|;
    forall k | 0 <= k < |weekly|
      ensures weekly[k] == view[k]
    {
      assert weekly[k] == table[i - 1 - k];
    }
  }

  /** Prepending the next bar to a reversed prefix gives the reversed, longer prefix. */
  lemma PrependKeepsReversedPrefix(table: seq<Bar>, bar: Bar, view: seq<Bar>, i: nat)
    requires i < |view| && |table| == i && bar == view[i]
    requires forall k :: 0 <= k < i ==> table[i - 1 - k] == view[k]
    ensures forall k :: 0 <= k <= i ==> ([bar] + table)[i - k] == view[k]
  {
    forall k | 0 <= k <= i
      ensures ([bar] + table)[i - k] == view[k]
    {
      if k < i {
        assert ([bar] + table)[i - k] == table[i - 1 - k];
      }
    }
  }

  /** `iloc[::-1]`. */
  function Reversed(s: seq<Bar>): (r: seq<Bar>)
    ensures |r| == |s|
    ensures forall k :: 0 <= k < |s| ==> r[k] == s[|s| - 1 - k]
  {
    seq(|s|, k requires 0 <= k < |s| => s[|s| - 1 - k])
  }

  // ---------------------------------------------------------------- properties

  /** Every output row is keyed by a Monday, no week appears twice, and the week of
      every input row appears (hence exactly once). */
  lemma WeeklyKeys(bars: seq<Bar>)
    ensures forall i :: 0 <= i < |WeeklyView(bars)| ==> Weekday(WeeklyView(bars)[i].day) == 0
    ensures forall i, j :: 0 <= i < j < |WeeklyView(bars)| ==> WeeklyView(bars)[i].day != WeeklyView(bars)[j].day
    ensures forall b :: b in bars ==> exists i :: 0 <= i < |WeeklyView(bars)| && WeeklyView(bars)[i].day == WeekOf(b.day)
  {
    var keys := Unique(Weeks(bars));
    var v := WeeklyView(bars);
    assert forall i :: 0 <= i < |v| ==> v[i].day == keys[i];
    forall i | 0 <= i < |v|
      ensures Weekday(v[i].day) == 0
    {
      assert keys[i] in Weeks(bars);
      var n :| 0 <= n < |bars| && Weeks(bars)[n] == keys[i];
      WeekOfIsMonday(bars[n].day);
    }
    forall b | b in bars
      ensures exists i :: 0 <= i < |v| && v[i].day == WeekOf(b.day)
    {
      var n :| 0 <= n < |bars| && bars[n] == b;
      assert Weeks(bars)[n] == WeekOf(b.day);
      UniqueCovers(Weeks(bars), WeekOf(b.day));
      var i :| 0 <= i < |keys| && keys[i] == WeekOf(b.day);
      assert v[i].day == WeekOf(b.day);
    }
  }

  /** Each weekly bar's open is the first row of its week and its close the last; its
      high and low bound every row of the week and are attained by one of them; its volume
      is the week's total volume. */
  lemma WeeklyBarSummarisesWeek(bars: seq<Bar>, i: nat)
    requires i < |WeeklyView(bars)|
    ensures RowsOfWeek(bars, WeeklyView(bars)[i].day) != []
    ensures var v, rows := WeeklyView(bars)[i], RowsOfWeek(bars, WeeklyView(bars)[i].day);
            && v.open == rows[0].open
            && v.close == rows[|rows| - 1].close
            && (forall b :: b in rows ==> v.low <= b.low && b.high <= v.high)
            && (exists b :: b in rows && b.high == v.high)
            && (exists b :: b in rows && b.low == v.low)
            && v.volume == Sum(Volumes(rows))
  {
    var keys := Unique(Weeks(bars));
    var w := keys[i];
    var rows := RowsOfWeek(bars, w);
    assert w in Weeks(bars);
    RowsOfWeekMembers(bars, w);
    MaxHighIsMaximum(rows);
    MinLowIsMinimum(rows);
    var v := WeeklyView(bars)[i];
    assert v == WeekBar(w, rows);
    assert v.day == w;
    assert v.high == MaxHigh(rows);
    assert v.low == MinLow(rows);
    assert v.open == rows[0].open;
    assert v.close == rows[|rows| - 1].close;
  }

  /** Sum of the weekly volumes of the weeks `ks`. */
  function VolumeOfWeeks(bars: seq<Bar>, ks: seq<int>): real
    decreases |ks|
  {
    if ks == [] then 0.0
    else VolumeOfWeeks(bars, ks[..|ks| - 1]) + Sum(Volumes(RowsOfWeek(bars, ks[|ks| - 1])))
  }

  lemma WeekVolumeAppend(bars: seq<Bar>, b: Bar, w: int)
    ensures Sum(Volumes(RowsOfWeek(bars + [b], w)))
         == Sum(Volumes(RowsOfWeek(bars, w))) + (if WeekOf(b.day) == w then b.volume else 0.0)
  {
    var all := bars + [b];
    assert all[..|all| - 1] == bars;
    var rows := RowsOfWeek(bars, w);
    if WeekOf(b.day) == w {
      assert RowsOfWeek(all, w) == rows + [b];
      VolumesAppend(rows, b);
      SumAppend(Volumes(rows), [b.volume]);
    } else {
      assert RowsOfWeek(all, w) == rows + [];
      assert rows + [] == rows;
    }
  }

  lemma {:induction false} VolumeOfWeeksAppend(bars: seq<Bar>, b: Bar, ks: seq<int>)
    requires forall i, j :: 0 <= i < j < |ks| ==> ks[i] != ks[j]
    ensures VolumeOfWeeks(bars + [b], ks)
         == VolumeOfWeeks(bars, ks) + (if WeekOf(b.day) in ks then b.volume else 0.0)
    decreases |ks|
  {
    if ks != [] {
      var init, k := ks[..|ks| - 1], ks[|ks| - 1];
      assert ks == init + [k];
      VolumeOfWeeksAppend(bars, b, init);
      WeekVolumeAppend(bars, b, k);
      if k == WeekOf(b.day) {
        assert k !in init;
      }
    }
  }

  lemma {:induction false} VolumeOfAllWeeks(bars: seq<Bar>, ks: seq<int>)
    requires forall i, j :: 0 <= i < j < |ks| ==> ks[i] != ks[j]
    requires forall b :: b in bars ==> WeekOf(b.day) in ks
    ensures VolumeOfWeeks(bars, ks) == Sum(Volumes(bars))
    decreases |bars|
  {
    if bars == [] {
      VolumeOfNoRows(ks);
    } else {
      var init, b := bars[..|bars| - 1], bars[|bars| - 1];
      assert bars == init + [b];
      VolumeOfAllWeeks(init, ks);
      VolumeOfWeeksAppend(init, b, ks);
      VolumesAppend(init, b);
      SumAppend(Volumes(init), [b.volume]);
    }
  }

  lemma {:induction false} VolumeOfNoRows(ks: seq<int>)
    ensures VolumeOfWeeks([], ks) == 0.0
    decreases |ks|
  {
    if ks != [] {
      VolumeOfNoRows(ks[..|ks| - 1]);
      assert Volumes([]) == [];
    }
  }

  lemma {:induction false} VolumeOfWeeksIsSum(bars: seq<Bar>, v: seq<Bar>, ks: seq<int>)
    requires |v| == |ks|
    requires forall i :: 0 <= i < |ks| ==> v[i].volume == Sum(Volumes(RowsOfWeek(bars, ks[i])))
    ensures VolumeOfWeeks(bars, ks) == Sum(Volumes(v))
    decreases |ks|
  {
    if ks != [] {
      var n := |ks| - 1;
      VolumeOfWeeksIsSum(bars, v[..n], ks[..n]);
      assert VolumeOfWeeks(bars, ks) == VolumeOfWeeks(bars, ks[..n]) + v[n].volume;
      VolumesPrefix(v, n);
      assert Sum(Volumes(v)) == Sum(Volumes(v[..n])) + v[n].volume;
    }
  }

  /** The weekly table carries exactly the daily table's total volume. */
  lemma WeeklyVolumePreserved(bars: seq<Bar>)
    ensures Sum(Volumes(WeeklyView(bars))) == Sum(Volumes(bars))
  {
    var keys := Unique(Weeks(bars));
    var v := WeeklyView(bars);
    forall b | b in bars
      ensures WeekOf(b.day) in keys
    {
      var n :| 0 <= n < |bars| && bars[n] == b;
      assert Weeks(bars)[n] == WeekOf(b.day);
      UniqueCovers(Weeks(bars), WeekOf(b.day));
    }
    VolumeOfWeeksIsSum(bars, v, keys);
    VolumeOfAllWeeks(bars, keys);
  }
}
