/**
 * How the pieces fit together: the two converters read day and period cells
 * alike except for decimal periods, and the texts `process_schedule.py`
 * writes for days 0 to 4 and for single periods are read back by the
 * converters as the same day and period.
 */
module ConverterAgreement {
  import opened Wrappers
  import opened Text
  import opened Numbers
  import opened ScheduleModel
  import V1 = ConverterV1
  import V2 = ConverterV2
  import Export = ScheduleExport

  /** Both converters read a day cell the same way; the second one's extra "nan" test changes nothing. */
  lemma {:induction false} DayParsersAgree(cell: Option<string>)
    ensures V1.ParseDayText(cell) == V2.ParseDayText(cell)
  {
    if cell.Some? && Strip(cell.value) == "nan" {
      LookupDayLabels("nan");
      assert "nan" != DayLabels[0];
    }
  }

  /** "nan" is neither an integer nor a range. */
  lemma {:induction false} NanIsNoPeriod()
    ensures ParseInt("nan") == None && !Contains("nan", "-")
  {
    ContainsChar("nan", '-');
    StripNoop("nan");
    assert !IsDigit("nan"[0]);
  }

  /** Whatever periods the first converter reads from a cell, the second reads the same. */
  lemma {:induction false} PeriodParsersAgree(cell: Option<string>)
    ensures V1.ParsePeriodText(cell) != [] ==> V2.ParsePeriodText(cell) == V1.ParsePeriodText(cell)
  {
    if cell.Some? && V1.ParsePeriodText(cell) != [] {
      var text := Strip(cell.value);
      NanIsNoPeriod();
      if !Contains(text, "-") {
        assert V1.IntPeriod(text) != [];
        FloatAcceptsIntText(text);
      }
    }
  }

  /** The cells the converters read differently: a single number written as a decimal, "n.0", which only the second accepts. */
  lemma {:induction false} DecimalPeriodDiffers(n: int)
    requires n >= 0
    ensures V1.ParsePeriodText(Some(IntToString(n) + ".0")) == []
    ensures V2.ParsePeriodText(Some(IntToString(n) + ".0")) == [n - 1]
  {
    V1.DecimalPeriodRejected(n);
    V2.DecimalSinglePeriod(n);
  }

  /** A day shown by `convert_day_to_text` is read back by both converters as that day when it is 0 to 4, and as no day otherwise. */
  lemma {:induction false} DayTextReadBack(day: int)
    ensures V2.ParseDayText(Some(Export.DayText(day))) == if 0 <= day < 5 then Some(day) else None
    ensures V1.ParseDayText(Some(Export.DayText(day))) == V2.ParseDayText(Some(Export.DayText(day)))
  {
    var text := Export.DayText(day);
    DayTextTrimmed(day);
    DayTextLookup(day);
    DayParsersAgree(Some(text));
  }

  /** A day's text has no white space at either end and is not "nan". */
  lemma {:induction false} DayTextTrimmed(day: int)
    ensures var text := Export.DayText(day);
      text != [] && Strip(text) == text && text != "nan"
  {
    var text := Export.DayText(day);
    Export.DayTextLabels(day);
    if !(0 <= day < 5) {
      Export.OtherDayText(day);
      IntToStringShape(day);
      assert text[|text| - 1] == IntToString(day)[|IntToString(day)| - 1];
    }
    StripNoop(text);
  }

  /** The label lookup finds exactly the days 0 to 4 in their texts. */
  lemma {:induction false} DayTextLookup(day: int)
    ensures LookupDay(Export.DayText(day)) == if 0 <= day < 5 then Some(day) else None
  {
    var text := Export.DayText(day);
    Export.DayTextLabels(day);
    LookupDayLabels(text);
    if 0 <= day < 5 {
      assert DayLabels[LookupDay(text).value] == DayLabels[day];
    }
  }

  /** The number after "Tiết " in the text of period p is read back by both converters as period p. */
  lemma {:induction false} PeriodTextReadBack(period: int)
    requires period >= 0
    ensures V1.ParsePeriodText(Some(Export.PeriodText(period)[5..])) == [period]
    ensures V2.ParsePeriodText(Some(Export.PeriodText(period)[5..])) == [period]
  {
    Export.PeriodTextNumber(period);
    assert Export.PeriodText(period)[5..] == IntToString(period + 1);
    V1.SingleNumberPeriod(period + 1);
    V2.SingleNumberPeriod(period + 1);
  }
}
