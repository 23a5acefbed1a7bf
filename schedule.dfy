/**
 * What the converters exchange: a spreadsheet row, the five weekday labels,
 * and one schedule entry of the JSON output (`{"room", "day", "period"}`).
 */
module ScheduleModel {
  import opened Wrappers

  /** One teaching period in one room on one day (day 0 is Monday, periods count from 0). */
  datatype Entry = Entry(room: string, day: int, period: int)

  /** A spreadsheet row: one optional text per column, `None` for an empty (NaN) cell. */
  type Row = seq<Option<string>>

  /** The weekday labels Monday to Friday; the label at index `d` is day `d`. */
  const DayLabels: seq<string> := ["Thứ 2", "Thứ 3", "Thứ 4", "Thứ 5", "Thứ 6"]

  /** The lookup in the converters' label-to-day dictionary `{"Thứ 2": 0, ..., "Thứ 6": 4}`. */
  function LookupDay(name: string): (day: Option<int>)
    ensures day.Some? ==> 0 <= day.value < 5
  {
    if name == "Thứ 2" then Some(0)
    else if name == "Thứ 3" then Some(1)
    else if name == "Thứ 4" then Some(2)
    else if name == "Thứ 5" then Some(3)
    else if name == "Thứ 6" then Some(4)
    else None
  }

  /** The dictionary knows exactly the five labels, and gives each the day of its position. */
  lemma {:induction false} LookupDayLabels(name: string)
    ensures LookupDay(name).Some? <==> name in DayLabels
    ensures LookupDay(name).Some? ==> DayLabels[LookupDay(name).value] == name
  {
  }

  /** Python's `list(range(lo, hi))`: the consecutive integers from `lo` up to but excluding `hi`. */
  function Range(lo: int, hi: int): (r: seq<int>)
    ensures |r| == if lo < hi then hi - lo else 0
  {
    seq(if lo < hi then hi - lo else 0, i => lo + i)
  }

  /** The entries `f` produces for each element of `xs`, one element after another. */
  function FlatMap<T>(xs: seq<T>, f: T -> seq<Entry>): (entries: seq<Entry>)
    ensures xs == [] ==> entries == []
    decreases |xs|
  {
    if xs == [] then [] else f(xs[0]) + FlatMap(xs[1..], f)
  }

  /** Producing the entries of two lists one after the other is producing those of the joined list. */
  lemma {:induction false} FlatMapAppend<T>(xs: seq<T>, ys: seq<T>, f: T -> seq<Entry>)
    ensures FlatMap(xs + ys, f) == FlatMap(xs, f) + FlatMap(ys, f)
    decreases |xs|
  {
    if xs != [] {
      assert (xs + ys)[0] == xs[0] && (xs + ys)[1..] == xs[1..] + ys;
      FlatMapAppend(xs[1..], ys, f);
    } else {
      assert xs + ys == ys;
    }
  }

  /** Every entry produced comes from the entries of one element. */
  lemma {:induction false} FlatMapSource<T>(xs: seq<T>, f: T -> seq<Entry>, e: Entry)
    requires e in FlatMap(xs, f)
    ensures exists i :: 0 <= i < |xs| && e in f(xs[i])
    decreases |xs|
  {
    assert xs != [];
    if e in f(xs[0]) {
      assert 0 <= 0 < |xs| && e in f(xs[0]);
    } else {
      FlatMapSource(xs[1..], f, e);
      var i :| 0 <= i < |xs[1..]| && e in f(xs[1..][i]);
      assert xs[1..][i] == xs[i + 1];
    }
  }

  /** One entry in `room` on `day` for each of `periods`, in order. */
  function DayEntries(room: string, day: int, periods: seq<int>): (entries: seq<Entry>)
    ensures |entries| == |periods|
    ensures forall k {:trigger entries[k]} :: 0 <= k < |periods| ==> entries[k] == Entry(room, day, periods[k])
  {
    if periods == [] then []
    else DayEntries(room, day, periods[..|periods| - 1]) + [Entry(room, day, periods[|periods| - 1])]
  }

  /** The loop over the periods of one column pair: it appends one entry per period, in order. */
  method DayEntriesLoop(room: string, day: int, periods: seq<int>) returns (entries: seq<Entry>)
    ensures entries == DayEntries(room, day, periods)
  {
    entries := [];
    for k := 0 to |periods|
      invariant entries == DayEntries(room, day, periods[..k])
    {
      assert periods[..k + 1][..k] == periods[..k];
      entries := entries + [Entry(room, day, periods[k])];
    }
    assert periods[..|periods|] == periods;
  }

  /** A (day cell, period cell) pair of columns. */
  type CellPair = (Option<string>, Option<string>)

  /**
   * The column pairs the loop visits among the cells after the first column:
   * cells 0 and 1, 2 and 3, ...; a last cell without a partner is skipped.
   */
  function ColumnPairs(cells: seq<Option<string>>): (pairs: seq<CellPair>)
    ensures 2 * |pairs| <= |cells| <= 2 * |pairs| + 1
    ensures forall i :: 0 <= i < |pairs| ==> pairs[i] == (cells[2 * i], cells[2 * i + 1])
    decreases |cells|
  {
    if |cells| < 2 then []
    else [(cells[0], cells[1])] + ColumnPairs(cells[2..])
  }

  /** Two more cells after an even number of cells make one more pair, at the end. */
  lemma {:induction false} ColumnPairsAppend(cells: seq<Option<string>>, dayCell: Option<string>, periodCell: Option<string>)
    requires |cells| % 2 == 0
    ensures ColumnPairs(cells + [dayCell, periodCell]) == ColumnPairs(cells) + [(dayCell, periodCell)]
    decreases |cells|
  {
    var longer := cells + [dayCell, periodCell];
    if |cells| >= 2 {
      assert longer[2..] == cells[2..] + [dayCell, periodCell];
      ColumnPairsAppend(cells[2..], dayCell, periodCell);
    } else {
      assert longer[2..] == [];
    }
  }

  /** One more cell after an even number of cells makes no new pair. */
  lemma {:induction false} ColumnPairsTrailing(cells: seq<Option<string>>, cell: Option<string>)
    requires |cells| % 2 == 0
    ensures ColumnPairs(cells + [cell]) == ColumnPairs(cells)
    decreases |cells|
  {
    if |cells| >= 2 {
      assert (cells + [cell])[2..] == cells[2..] + [cell];
      ColumnPairsTrailing(cells[2..], cell);
    }
  }

  /** The pairs from column `col` on: the pair at `col` and then those from `col + 2` on. */
  lemma {:induction false} ColumnPairsStep(row: Row, col: nat)
    requires col < |row| - 1
    ensures ColumnPairs(row[col..]) == [(row[col], row[col + 1])] + ColumnPairs(row[col + 2..])
  {
    assert row[col..][2..] == row[col + 2..];
  }

  /** The entries `f` gives the column pairs of a row, pair after pair, in column order. */
  function PairsSchedule(row: Row, f: CellPair -> seq<Entry>): seq<Entry>
    requires |row| >= 1
  {
    FlatMap(ColumnPairs(row[1..]), f)
  }

  /** A last column without a partner adds nothing to a row's schedule. */
  lemma {:induction false} TrailingColumnIgnored(row: Row, cell: Option<string>, f: CellPair -> seq<Entry>)
    requires |row| % 2 == 1
    ensures PairsSchedule(row + [cell], f) == PairsSchedule(row, f)
  {
    assert (row + [cell])[1..] == row[1..] + [cell];
    ColumnPairsTrailing(row[1..], cell);
  }

  /** Appending a (day, period) column pair to a row appends its entries at the end of the row's schedule. */
  lemma {:induction false} AppendPair(row: Row, dayCell: Option<string>, periodCell: Option<string>, f: CellPair -> seq<Entry>)
    requires |row| % 2 == 1
    ensures PairsSchedule(row + [dayCell, periodCell], f) == PairsSchedule(row, f) + f((dayCell, periodCell))
  {
    assert (row + [dayCell, periodCell])[1..] == row[1..] + [dayCell, periodCell];
    ColumnPairsAppend(row[1..], dayCell, periodCell);
    FlatMapAppend(ColumnPairs(row[1..]), [(dayCell, periodCell)], f);
    assert FlatMap([(dayCell, periodCell)], f) == f((dayCell, periodCell)) + [];
  }

  /** The entries from column `col` on: those of the pair at `col`, then those from `col + 2` on. */
  lemma {:induction false} ScheduleStep(row: Row, col: nat, f: CellPair -> seq<Entry>)
    requires col < |row| - 1
    ensures FlatMap(ColumnPairs(row[col..]), f) == f((row[col], row[col + 1])) + FlatMap(ColumnPairs(row[col + 2..]), f)
  {
    ColumnPairsStep(row, col);
  }

  /** One turn of the column-pair loop keeps "collected so far, then the rest of the pairs" equal to the row's schedule. */
  lemma {:induction false} ScheduleLoopStep(row: Row, col: nat, f: CellPair -> seq<Entry>, schedule: seq<Entry>, entries: seq<Entry>)
    requires |row| >= 1 && 1 <= col < |row| - 1
    requires schedule + FlatMap(ColumnPairs(row[col..]), f) == PairsSchedule(row, f)
    requires entries == f((row[col], row[col + 1]))
    ensures (schedule + entries) + FlatMap(ColumnPairs(row[col + 2..]), f) == PairsSchedule(row, f)
  {
    ScheduleStep(row, col, f);
    var rest := FlatMap(ColumnPairs(row[col + 2..]), f);
    assert (schedule + entries) + rest == schedule + (entries + rest);
  }

  /** Every entry of a row's schedule comes from one of its column pairs. */
  lemma {:induction false} ScheduleSource(row: Row, f: CellPair -> seq<Entry>, e: Entry)
    requires |row| >= 1 && e in PairsSchedule(row, f)
    ensures exists i :: 1 <= i < |row| - 1 && e in f((row[i], row[i + 1]))
  {
    var pairs := ColumnPairs(row[1..]);
    FlatMapSource(pairs, f, e);
    var i :| 0 <= i < |pairs| && e in f(pairs[i]);
    assert pairs[i] == (row[2 * i + 1], row[2 * i + 2]);
  }
}
