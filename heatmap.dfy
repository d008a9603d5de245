/**
 * The calendar arithmetic of the contribution heatmap (components/CustomHeatmap.tsx):
 * the colour of a cell, the layout of a date range as Sunday-to-Saturday week columns,
 * and the month labels above the columns.
 *
 * A date is a day number, the count of days since 1970-01-01 (a Thursday), so its day
 * of the week is `(n + 4) % 7` with 0 for Sunday. A month is its number, 1 to 12.
 */
module Heatmap {
  import opened Optional

  /** One data point of the heatmap: a day and its count. */
  datatype DataItem = DataItem(day: int, count: int)

  /** A cell of the layout: a day with its data, or `None` for a placeholder. */
  type Cell = Option<DataItem>

  /** The day of the week, 0 for Sunday up to 6 for Saturday. */
  function Weekday(day: int): (w: nat)
    ensures w < 7
  {
    (day + 4) % 7
  }

  /** In a week starting on a Sunday the `r`-th day is weekday `r`. */
  lemma WeekdayInWeek(first: int, q: int, r: int)
    requires Weekday(first) == 0 && 0 <= r < 7
    ensures Weekday(first + 7 * q + r) == r
  {
    WeekdayShift(first, 7 * q + r);
  }

  /** Moving `k` days on moves the day of the week by `k`, modulo 7. */
  lemma WeekdayShift(day: int, k: int)
    ensures Weekday(day + k) == (Weekday(day) + k) % 7
  {
    var q := (day + 4) / 7;
    assert day + 4 == 7 * q + Weekday(day);
    assert day + k + 4 == 7 * q + (Weekday(day) + k);
  }

  // ---------------------------------------------------------------------------
  // getColor
  // ---------------------------------------------------------------------------

  const FewColor: string := "#9be9a8"
  const SomeColor: string := "#40c463"
  const ManyColor: string := "#30a14e"

  /** `emptyColor || currentTheme.backgroundPrimary`: a missing or empty colour falls back
      to the theme's background. */
  function ResolvedEmptyColor(emptyColor: Option<string>, themeBackground: string): (c: string)
    ensures emptyColor.Some? && emptyColor.value != "" ==> c == emptyColor.value
    ensures emptyColor.None? || emptyColor.value == "" ==> c == themeBackground
  {
    if emptyColor.Some? && emptyColor.value != "" then emptyColor.value else themeBackground
  }

  /** `Math.min(Math.max(count, 1), length - 1)`: the palette slot of a non-zero count. */
  function PaletteIndex(count: int, length: nat): (i: nat)
    requires length > 0
    ensures i < length
    ensures length >= 2 ==> i >= 1
    ensures 1 <= count < length ==> i == count
    ensures count >= length - 1 ==> i == length - 1
    ensures count <= 1 && length >= 2 ==> i == 1
  {
    var atLeastOne := if count > 1 then count else 1;
    if atLeastOne < length - 1 then atLeastOne else length - 1
  }

  /** A larger count never gets a lower palette slot. */
  lemma PaletteIndexMonotone(a: int, b: int, length: nat)
    requires length > 0 && a <= b
    ensures PaletteIndex(a, length) <= PaletteIndex(b, length)
  {
  }

  /** `getColor`: the empty colour for a zero count; with a palette, the clamped slot;
      without one, three fixed shades by count band. `emptyColor` is the colour already
      resolved against the theme, `ResolvedEmptyColor(props.emptyColor, background)`. */
  function GetColor(count: int, palette: seq<string>, emptyColor: string): (c: string)
    ensures count == 0 ==> c == emptyColor
    ensures count != 0 && |palette| > 0 ==> c == palette[PaletteIndex(count, |palette|)]
    ensures count != 0 && |palette| > 0 ==> c in palette
    ensures count != 0 && |palette| == 0 ==> c in {FewColor, SomeColor, ManyColor}
  {
    if |palette| > 0 then
      if count == 0 then emptyColor
      else palette[PaletteIndex(count, |palette|)]
    else
      if count == 0 then emptyColor
      else if 1 <= count <= 2 then FewColor
      else if 3 <= count <= 5 then SomeColor
      else ManyColor
  }

  /** Without a palette: 1 and 2 are light, 3 to 5 medium, and every other non-zero
      count (negatives and anything above 5) dark. */
  lemma DefaultShades(count: int)
    ensures 1 <= count <= 2 ==> GetColor(count, [], "") == FewColor
    ensures 3 <= count <= 5 ==> GetColor(count, [], "") == SomeColor
    ensures (count < 0 || count > 5) ==> GetColor(count, [], "") == ManyColor
  {
  }

  // ---------------------------------------------------------------------------
  // generateGithubHeatmapLayout
  // ---------------------------------------------------------------------------

  /** True when `data[i]` is the last point for its day. */
  predicate IsLastForDay(data: seq<DataItem>, i: int)
    requires 0 <= i < |data|
  {
    forall j | i < j < |data| :: data[j].day != data[i].day
  }

  /** `dataMap`: each data point filed under its day; of two points for one day the later
      one is kept (`Map.set` overwrites). */
  function DataMap(data: seq<DataItem>): (m: map<int, DataItem>)
    ensures forall d | d in m :: m[d].day == d
  {
    if data == [] then map[] else DataMap(data[..|data| - 1])[data[|data| - 1].day := data[|data| - 1]]
  }

  /** The map holds a point for every day that has one, only points of the data, and
      for each day the last point given for it. */
  lemma {:induction false} DataMapKeepsLastPoint(data: seq<DataItem>)
    ensures forall d | d in DataMap(data) :: DataMap(data)[d] in data
    ensures forall i | 0 <= i < |data| :: data[i].day in DataMap(data)
    ensures forall i | 0 <= i < |data| && IsLastForDay(data, i) :: DataMap(data)[data[i].day] == data[i]
  {
    if data != [] {
      var init := data[..|data| - 1];
      var last := data[|data| - 1];
      DataMapKeepsLastPoint(init);
      assert DataMap(data) == DataMap(init)[last.day := last];
      assert forall i | 0 <= i < |init| :: init[i] == data[i];
      assert forall i | 0 <= i < |data| - 1 && IsLastForDay(data, i) :: IsLastForDay(init, i);
    }
  }

  /** The cell the layout shows for a day: its data point, or a zero count. */
  function CellFor(dataMap: map<int, DataItem>, day: int): DataItem {
    if day in dataMap then dataMap[day] else DataItem(day, 0)
  }

  /** The Sunday on or before `start`. */
  function FirstSunday(start: int): (s: int)
    ensures s <= start < s + 7 && Weekday(s) == 0
  {
    var dayOfWeek := Weekday(start);
    var daysToSubtract := if dayOfWeek == 0 then 0 else dayOfWeek;
    WeekdayShift(start, -daysToSubtract);
    start - daysToSubtract
  }

  /** The Saturday on or after `end`. */
  function LastSaturday(end: int): (e: int)
    ensures end <= e < end + 7 && Weekday(e) == 6
  {
    var endDayOfWeek := Weekday(end);
    var daysToAdd := if endDayOfWeek == 6 then 0 else 6 - endDayOfWeek;
    WeekdayShift(end, daysToAdd);
    end + daysToAdd
  }

  /** From a Sunday to a Saturday is a whole number of weeks. */
  lemma WholeWeeks(first: int, last: int)
    requires Weekday(first) == 0 && Weekday(last) == 6 && first <= last
    ensures (last - first + 1) % 7 == 0
  {
    WeekdayShift(first, last + 1 - first);
    assert Weekday(last + 1) == 0 by {
      WeekdayShift(last, 1);
    }
  }

  /** The number of week columns the layout of `start..end` has. */
  function WeekCount(start: int, end: int): nat {
    var first := FirstSunday(start);
    var last := LastSaturday(end);
    if first <= last then (last - first + 1) / 7 else 0
  }

  /** Week `w`, cell `d` of `weeks` holds the day `first + 7 * w + d`, every week has seven
      cells and none is a placeholder. */
  ghost predicate WeeksFrom(weeks: seq<seq<Cell>>, dataMap: map<int, DataItem>, first: int) {
    forall w | 0 <= w < |weeks| ::
      |weeks[w]| == 7 && forall d | 0 <= d < 7 :: weeks[w][d] == Some(CellFor(dataMap, first + 7 * w + d))
  }

  /** `generateGithubHeatmapLayout`: the widened range `FirstSunday(start)` to
      `LastSaturday(end)` cut into week columns of seven cells, each day's cell its data
      point or a zero count. An empty start or end (`None`) gives no columns. */
  method GenerateGithubHeatmapLayout(allData: seq<DataItem>, start: Option<int>, end: Option<int>)
    returns (weeks: seq<seq<Cell>>)
    ensures start.None? || end.None? ==> weeks == []
    ensures start.Some? && end.Some? ==> |weeks| == WeekCount(start.value, end.value)
    ensures start.Some? && end.Some? ==> WeeksFrom(weeks, DataMap(allData), FirstSunday(start.value))
  {
    if start.None? || end.None? {
      return [];
    }
    weeks := [];
    var dataMap: map<int, DataItem> := map[];
    var i := 0;
    while i < |allData|
      invariant 0 <= i <= |allData|
      invariant dataMap == DataMap(allData[..i])
    {
      assert allData[..i + 1][..i] == allData[..i];
      dataMap := dataMap[allData[i].day := allData[i]];
      i := i + 1;
    }
    assert allData[..|allData|] == allData;

    var dayOfWeek := Weekday(start.value);
    var daysToSubtract := if dayOfWeek == 0 then 0 else dayOfWeek;
    var actualStartDate := start.value - daysToSubtract;
    var endDayOfWeek := Weekday(end.value);
    var daysToAdd := if endDayOfWeek == 6 then 0 else 6 - endDayOfWeek;
    var actualEndDate := end.value + daysToAdd;
    assert actualStartDate == FirstSunday(start.value) && actualEndDate == LastSaturday(end.value);

    // The source first pads the week with one placeholder per weekday before the
    // widened start; that start is a Sunday, so there are none.
    var currentDate := actualStartDate;
    var currentWeek: seq<Cell> := [];
    while currentDate <= actualEndDate
      invariant actualStartDate <= actualEndDate ==> currentDate <= actualEndDate + 1
      invariant actualStartDate > actualEndDate ==> weeks == [] && currentWeek == []
      invariant currentDate == actualStartDate + 7 * |weeks| + |currentWeek|
      invariant |currentWeek| < 7
      invariant WeeksFrom(weeks, dataMap, actualStartDate)
      invariant forall d | 0 <= d < |currentWeek| ::
        currentWeek[d] == Some(CellFor(dataMap, actualStartDate + 7 * |weeks| + d))
    {
      WeekdayInWeek(actualStartDate, |weeks|, |currentWeek|);
      currentWeek := currentWeek + [Some(CellFor(dataMap, currentDate))];
      if Weekday(currentDate) == 6 {
        assert |currentWeek| == 7;
        weeks := weeks + [currentWeek];
        currentWeek := [];
      }
      currentDate := currentDate + 1;
    }
    // The source then pads an unfinished last week with placeholders; the widened end is
    // a Saturday, so the last week is always finished.
    if actualStartDate <= actualEndDate {
      WholeWeeks(actualStartDate, actualEndDate);
      assert currentWeek == [];
    }
  }

  /** Flattening the columns gives the widened range day by day, in ascending order. */
  function Flatten(weeks: seq<seq<Cell>>): seq<Cell> {
    if weeks == [] then [] else Flatten(weeks[..|weeks| - 1]) + weeks[|weeks| - 1]
  }

  /** Read column by column, a layout lists each day of the widened range once, in order:
      the `k`-th cell is the day `first + k`, and it carries that day's data. */
  lemma {:induction false} LayoutListsEachDayOnce(weeks: seq<seq<Cell>>, allData: seq<DataItem>, first: int)
    requires WeeksFrom(weeks, DataMap(allData), first)
    ensures |Flatten(weeks)| == 7 * |weeks|
    ensures forall k | 0 <= k < 7 * |weeks| ::
      Flatten(weeks)[k] == Some(CellFor(DataMap(allData), first + k)) && Flatten(weeks)[k].value.day == first + k
  {
    if weeks != [] {
      var n := |weeks| - 1;
      var init := weeks[..n];
      assert WeeksFrom(init, DataMap(allData), first) by {
        forall w | 0 <= w < |init| ensures init[w] == weeks[w] { }
      }
      LayoutListsEachDayOnce(init, allData, first);
      var flat := Flatten(weeks);
      assert flat == Flatten(init) + weeks[n];
      forall k | 0 <= k < 7 * |weeks|
        ensures flat[k] == Some(CellFor(DataMap(allData), first + k)) && flat[k].value.day == first + k
      {
        if k >= 7 * n {
          assert flat[k] == weeks[n][k - 7 * n];
        }
      }
    }
  }

  /** Every column starts on a Sunday and ends on a Saturday; the first column holds
      `start` and the last holds `end`. */
  lemma LayoutWeeksAreSundayToSaturday(weeks: seq<seq<Cell>>, allData: seq<DataItem>, start: int, end: int)
    requires start <= end
    requires |weeks| == WeekCount(start, end) && WeeksFrom(weeks, DataMap(allData), FirstSunday(start))
    ensures |weeks| >= 1
    ensures forall w | 0 <= w < |weeks| :: Weekday(weeks[w][0].value.day) == 0 && Weekday(weeks[w][6].value.day) == 6
    ensures weeks[0][0].value.day <= start <= weeks[0][6].value.day
    ensures weeks[|weeks| - 1][0].value.day <= end <= weeks[|weeks| - 1][6].value.day
  {
    var first := FirstSunday(start);
    var last := LastSaturday(end);
    WholeWeeks(first, last);
    var n := (last - first + 1) / 7;
    assert last - first + 1 == 7 * n;
    forall w | 0 <= w < |weeks| ensures Weekday(weeks[w][0].value.day) == 0 && Weekday(weeks[w][6].value.day) == 6 {
      WeekdayShift(first, 7 * w);
      WeekdayShift(first, 7 * w + 6);
    }
    assert |weeks| == n;
  }

  // ---------------------------------------------------------------------------
  // getMonthLabels
  // ---------------------------------------------------------------------------

  datatype MonthLabel = MonthLabel(month: int, startColumn: nat)

  /** The month (1 to 12) a day falls in, by the proleptic Gregorian calendar. */
  function MonthOfDay(day: int): int {
    var z := day + 719468;
    var doe := z % 146097;
    var yoe := (doe - doe / 1460 + doe / 36524 - doe / 146096) / 365;
    var doy := doe - (365 * yoe + yoe / 4 - yoe / 100);
    var mp := (5 * doy + 2) / 153;
    if mp < 10 then mp + 3 else mp - 9
  }

  /** The position of the first cell of `week` that is not a placeholder (`|week|` if none). */
  function FirstPresentIndex(week: seq<Cell>): (i: nat)
    ensures i <= |week|
    ensures forall j | 0 <= j < i :: week[j].None?
    ensures i < |week| ==> week[i].Some?
  {
    if week == [] then 0
    else if week[0].Some? then 0
    else 1 + FirstPresentIndex(week[1..])
  }

  /** The month of a column's first real day, `None` for a column of placeholders. */
  function WeekMonth(week: seq<Cell>): Option<int> {
    var i := FirstPresentIndex(week);
    if i < |week| then Some(MonthOfDay(week[i].value.day)) else None
  }

  /** The labels for columns `w` onwards when the month last labelled is `current`: a
      column gets a label when its first real day's month differs from the month labelled
      last. */
  function LabelsFrom(weeks: seq<seq<Cell>>, w: nat, current: Option<int>): (labels: seq<MonthLabel>)
    requires w <= |weeks|
    decreases |weeks| - w
    ensures |labels| <= |weeks| - w
  {
    if w == |weeks| then []
    else
      var month := WeekMonth(weeks[w]);
      if month.Some? && month != current then
        [MonthLabel(month.value, w)] + LabelsFrom(weeks, w + 1, month)
      else
        LabelsFrom(weeks, w + 1, current)
  }

  /** No label at all exactly when no column from `w` on shows a month other than the
      current one. */
  lemma {:induction false} NoLabelsIffNoNewMonth(weeks: seq<seq<Cell>>, w: nat, current: Option<int>)
    requires w <= |weeks|
    decreases |weeks| - w
    ensures LabelsFrom(weeks, w, current) == [] <==>
      forall k | w <= k < |weeks| :: WeekMonth(weeks[k]).None? || WeekMonth(weeks[k]) == current
  {
    if w < |weeks| {
      var month := WeekMonth(weeks[w]);
      if !(month.Some? && month != current) {
        NoLabelsIffNoNewMonth(weeks, w + 1, current);
      }
    }
  }

  /** Each label names the month of the column it stands over; labels go left to right,
      and no two neighbouring labels name the same month. */
  lemma {:induction false} LabelsMarkMonthChanges(weeks: seq<seq<Cell>>, w: nat, current: Option<int>)
    requires w <= |weeks|
    decreases |weeks| - w
    ensures var labels := LabelsFrom(weeks, w, current);
      && (forall i | 0 <= i < |labels| ::
            w <= labels[i].startColumn < |weeks| && WeekMonth(weeks[labels[i].startColumn]) == Some(labels[i].month))
      && (forall i, j | 0 <= i < j < |labels| :: labels[i].startColumn < labels[j].startColumn)
      && (labels != [] ==> Some(labels[0].month) != current)
      && (forall i | 0 < i < |labels| :: labels[i].month != labels[i - 1].month)
  {
    if w < |weeks| {
      var month := WeekMonth(weeks[w]);
      if month.Some? && month != current {
        LabelsMarkMonthChanges(weeks, w + 1, month);
      } else {
        LabelsMarkMonthChanges(weeks, w + 1, current);
      }
    }
  }

  /** `getMonthLabels`. */
  method GetMonthLabels(heatmapWeeks: seq<seq<Cell>>) returns (labels: seq<MonthLabel>)
    ensures labels == LabelsFrom(heatmapWeeks, 0, None)
  {
    if |heatmapWeeks| == 0 {
      return [];
    }
    labels := [];
    var currentMonth: Option<int> := None;
    var weekIndex := 0;
    while weekIndex < |heatmapWeeks|
      invariant 0 <= weekIndex <= |heatmapWeeks|
      invariant labels + LabelsFrom(heatmapWeeks, weekIndex, currentMonth) == LabelsFrom(heatmapWeeks, 0, None)
    {
      var week := heatmapWeeks[weekIndex];
      var first := FirstPresentIndex(week);
      if first < |week| && Some(MonthOfDay(week[first].value.day)) != currentMonth {
        var month := MonthOfDay(week[first].value.day);
        assert LabelsFrom(heatmapWeeks, weekIndex, currentMonth)
            == [MonthLabel(month, weekIndex)] + LabelsFrom(heatmapWeeks, weekIndex + 1, Some(month));
        labels := labels + [MonthLabel(month, weekIndex)];
        currentMonth := Some(month);
      } else {
        assert LabelsFrom(heatmapWeeks, weekIndex, currentMonth) == LabelsFrom(heatmapWeeks, weekIndex + 1, currentMonth);
      }
      assert labels + LabelsFrom(heatmapWeeks, weekIndex + 1, currentMonth) == LabelsFrom(heatmapWeeks, 0, None);
      weekIndex := weekIndex + 1;
    }
  }

  /** The month in force at `column`: that of the last label starting at or before it,
      `current` if there is none. */
  function MonthInEffect(labels: seq<MonthLabel>, column: nat, current: Option<int>): Option<int> {
    if labels == [] || labels[0].startColumn > column then current
    else MonthInEffect(labels[1..], column, Some(labels[0].month))
  }

  /** The labels miss no month change: at every column with a real day, the month in force
      is that column's month. */
  lemma {:induction false} LabelsCoverEveryColumn(weeks: seq<seq<Cell>>, w: nat, current: Option<int>, v: nat)
    requires w <= v < |weeks| && WeekMonth(weeks[v]).Some?
    ensures MonthInEffect(LabelsFrom(weeks, w, current), v, current) == WeekMonth(weeks[v])
    decreases |weeks| - w
  {
    var month := WeekMonth(weeks[w]);
    if month.Some? && month != current {
      var rest := LabelsFrom(weeks, w + 1, month);
      assert LabelsFrom(weeks, w, current)[1..] == rest;
      LabelsMarkMonthChanges(weeks, w + 1, month);
      if v > w {
        LabelsCoverEveryColumn(weeks, w + 1, month, v);
      }
    } else {
      LabelsMarkMonthChanges(weeks, w + 1, current);
      if v > w {
        LabelsCoverEveryColumn(weeks, w + 1, current, v);
      }
    }
  }

  /** In a layout every column is full, so its label month is the month of its Sunday. */
  lemma LayoutColumnMonth(weeks: seq<seq<Cell>>, allData: seq<DataItem>, first: int, w: nat)
    requires WeeksFrom(weeks, DataMap(allData), first) && w < |weeks|
    ensures WeekMonth(weeks[w]) == Some(MonthOfDay(first + 7 * w))
  {
    assert weeks[w][0].Some?;
  }
}
