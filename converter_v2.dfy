/**
 * The second spreadsheet-to-JSON converter (excel_to_json_v2.py): it reads a
 * class name from the first column, normalises it to the "GDTC <name>" form,
 * and turns every (day, period) column pair after it into schedule entries
 * in the school yard.
 */
module ConverterV2 {
  import opened Wrappers
  import opened Text
  import opened Numbers
  import opened ScheduleModel

  /** The room every entry of this converter is placed in (the school yard). */
  const Yard: string := "Sân trường"

  /** A class of the JSON output. */
  datatype ClassRecord = ClassRecord(name: string, originalClassId: string, schedule: seq<Entry>)

  // ----- parse_day_text -----

  /** The day a cell names: the five weekday labels, after trimming, give 0 to 4; anything else gives none. */
  function ParseDayText(cell: Option<string>): (day: Option<int>)
    ensures day.Some? ==> 0 <= day.value < 5
  {
    match cell
    case None => None
    case Some(t) =>
      var text := Strip(t);
      if t == [] || text == "" || text == "nan" then None
      else LookupDay(text)
  }

  /** A cell names a day exactly when its trimmed text is one of the five labels, and the day is that label's position. */
  lemma {:induction false} DayTextMeaning(cell: Option<string>)
    ensures ParseDayText(cell).Some? <==> cell.Some? && Strip(cell.value) in DayLabels
    ensures ParseDayText(cell).Some? ==> DayLabels[ParseDayText(cell).value] == Strip(cell.value)
  {
    if cell.Some? {
      LookupDayLabels(Strip(cell.value));
    }
  }

  // ----- parse_period_text -----

  /** The periods of a range "a-b" once both bounds are read: `range(a - 1, b)`. */
  function RangeOfBounds(a: Option<int>, b: Option<int>): (periods: seq<int>)
    ensures forall i :: 0 <= i < |periods| ==> periods[i] == periods[0] + i
  {
    if a.Some? && b.Some? then
      var start, end := a.value - 1, b.value - 1;
      Range(start, end + 1)
    else []
  }

  /** A text with a '-': exactly two parts, both integers, make a range; anything else names no periods. */
  function RangePeriods(text: string): (periods: seq<int>)
    ensures forall i :: 0 <= i < |periods| ==> periods[i] == periods[0] + i
  {
    var parts := Split(text, "-");
    if |parts| == 2 then RangeOfBounds(ParseInt(parts[0]), ParseInt(parts[1])) else []
  }

  /** A text without '-': one number n, possibly written as a decimal, names period n-1. */
  function SinglePeriod(text: string): (periods: seq<int>)
    ensures |periods| <= 1
  {
    match ParseFloatTruncated(text)
    case Some(n) => [n - 1]
    case None => []
  }

  /** The periods of a trimmed, non-empty text: a range when it has a '-', one number otherwise. */
  function TextPeriods(text: string): (periods: seq<int>)
    ensures forall i :: 0 <= i < |periods| ==> periods[i] == periods[0] + i
    ensures |periods| > 1 ==> Contains(text, "-")
  {
    if Contains(text, "-") then RangePeriods(text) else SinglePeriod(text)
  }

  /**
   * The 0-based periods a cell names: "a-b" gives a-1 .. b-1, a single number
   * n (also written as a decimal such as "3.0") gives n-1, and an empty,
   * blank, "nan" or malformed cell gives no periods.
   */
  function ParsePeriodText(cell: Option<string>): (periods: seq<int>)
    ensures cell.None? || Strip(cell.value) == "" || Strip(cell.value) == "nan" ==> periods == []
    ensures forall i :: 0 <= i < |periods| ==> periods[i] == periods[0] + i
    ensures |periods| > 1 ==> cell.Some? && Contains(Strip(cell.value), "-")
  {
    match cell
    case None => []
    case Some(t) =>
      var text := Strip(t);
      if t == [] || text == "" || text == "nan" then []
      else TextPeriods(text)
  }

  /** A stripped cell that is neither empty nor "nan" is read as a range when it has a '-', as one number otherwise. */
  lemma {:induction false} PeriodTextOfTrimmed(s: string)
    requires s != [] && Strip(s) == s && s != "nan"
    ensures ParsePeriodText(Some(s)) == if Contains(s, "-") then RangePeriods(s) else SinglePeriod(s)
  {
  }

  /** The range text "a-b" of two integers, with no further '-', names a-1 .. b-1. */
  lemma {:induction false} RangeOfTwoNumbers(x: string, y: string, a: int, b: int)
    requires '-' !in x && '-' !in y
    requires ParseInt(x) == Some(a) && ParseInt(y) == Some(b)
    ensures RangePeriods(x + "-" + y) == Range(a - 1, b)
  {
    SplitOneDash(x, y);
    assert RangePeriods(x + "-" + y) == RangeOfBounds(ParseInt(x), ParseInt(y));
    assert RangeOfBounds(Some(a), Some(b)) == Range(a - 1, b);
  }

  /** A text with one '-' splits into the parts before and after it. */
  lemma {:induction false} SplitOneDash(x: string, y: string)
    requires '-' !in x && '-' !in y
    ensures Split(x + "-" + y, "-") == [x, y]
  {
    assert x + "-" + y == x + ['-'] + y;
    SplitAround(x, '-', y);
  }

  /** A range "a-b" of two integers gives the consecutive periods a-1 .. b-1: b-a+1 of them, none when b < a. */
  lemma {:induction false} PeriodRange(x: string, y: string, a: int, b: int)
    requires '-' !in x && '-' !in y
    requires x != [] && !IsSpace(x[0]) && y != [] && !IsSpace(y[|y| - 1])
    requires ParseInt(x) == Some(a) && ParseInt(y) == Some(b)
    ensures var periods := ParsePeriodText(Some(x + "-" + y));
      && |periods| == (if a <= b then b - a + 1 else 0)
      && forall i :: 0 <= i < |periods| ==> periods[i] == a - 1 + i
  {
    var s := x + "-" + y;
    assert s != [] && Strip(s) == s && s != "nan" && Contains(s, "-") by {
      assert s[|x|] == '-';
      StripNoop(s);
      ContainsChar(s, '-');
    }
    PeriodTextOfTrimmed(s);
    RangeOfTwoNumbers(x, y, a, b);
  }

  /** A leading '-' leaves an empty first part, which is not a number. */
  lemma {:induction false} LeadingDashRejected(y: string)
    ensures ParsePeriodText(Some("-" + y)) == []
  {
    var s := "-" + y;
    RStripKeepsHead(s);
    var text := Strip(s);
    assert text == RStrip(s);
    assert text[..1] == "-";
    ContainsChar(text, '-');
    assert Split(text, "-")[0] == "";
    assert ParseInt("") == None;
  }

  /** Splitting `x + "-" + t` on '-' yields at least one more piece than splitting `t`. */
  lemma {:induction false} SplitPieces(x: string, t: string)
    ensures |Split(x + ['-'] + t, "-")| >= 1 + |Split(t, "-")|
    decreases |x|
  {
    var s := x + ['-'] + t;
    if x == [] {
      assert s[..1] == "-" && s[1..] == t;
    } else {
      assert s[1..] == x[1..] + ['-'] + t;
      SplitPieces(x[1..], t);
    }
  }

  /** A text with two '-' splits into at least three parts, so it names no periods. */
  lemma {:induction false} ExtraDashRejected(x: string, y: string, z: string)
    requires x != [] && !IsSpace(x[0]) && z != [] && !IsSpace(z[|z| - 1])
    ensures ParsePeriodText(Some(x + "-" + y + "-" + z)) == []
  {
    var s := x + "-" + y + "-" + z;
    assert s != [] && Strip(s) == s && s != "nan" && Contains(s, "-") by {
      StripNoop(s);
      ContainsChar(s, '-');
      assert s[|x|] == '-';
    }
    PeriodTextOfTrimmed(s);
    SplitTwoDashes(x, y, z);
  }

  /** A text with two '-' splits into at least three parts. */
  lemma {:induction false} SplitTwoDashes(x: string, y: string, z: string)
    ensures |Split(x + "-" + y + "-" + z, "-")| >= 3
  {
    var t := y + ['-'] + z;
    assert x + "-" + y + "-" + z == x + ['-'] + t;
    SplitPieces(x, t);
    SplitPieces(y, z);
  }

  /** A single non-negative number n names period n-1. */
  lemma {:induction false} SingleNumberPeriod(n: int)
    requires n >= 0
    ensures ParsePeriodText(Some(IntToString(n))) == [n - 1]
  {
    var s := IntToString(n);
    IntToStringShape(n);
    assert s != [] && Strip(s) == s && s != "nan" && !Contains(s, "-") by {
      StripNoop(s);
      ContainsChar(s, '-');
    }
    ParseIntRoundTrip(n);
    FloatAcceptsIntText(s);
    TrimmedSinglePeriod(s, n);
  }

  /** The decimal form "n.0" of a single number also names period n-1. */
  lemma {:induction false} DecimalSinglePeriod(n: int)
    requires n >= 0
    ensures ParsePeriodText(Some(IntToString(n) + ".0")) == [n - 1]
  {
    var d := IntToString(n);
    var s := d + ".0";
    IntToStringShape(n);
    assert s != [] && Strip(s) == s && s != "nan" && !Contains(s, "-") by {
      assert s[0] == d[0];
      StripNoop(s);
      ContainsChar(s, '-');
    }
    DecimalTextValue(n);
    TrimmedSinglePeriod(s, n);
  }

  /** A stripped cell without '-' that `int(float())` reads as n names period n-1. */
  lemma {:induction false} TrimmedSinglePeriod(s: string, n: int)
    requires s != [] && Strip(s) == s && s != "nan" && !Contains(s, "-")
    requires ParseFloatTruncated(s) == Some(n)
    ensures ParsePeriodText(Some(s)) == [n - 1]
  {
    PeriodTextOfTrimmed(s);
  }

  // ----- parse_class_name -----

  /** Capitalises a word that has no lower-case letter and more than one character. */
  function CapitalizeIfUpper(w: string): (r: string)
    ensures |r| == |w| && Lower(r) == Lower(w)
  {
    CapitalizeCaseOnly(w);
    if Upper(w) == w && |w| > 1 then Capitalize(w) else w
  }

  /**
   * The formatting of every word after the first: an all-capitals word is
   * capitalised; in a word with a single "-LN", only the part before it is.
   * Only letter case ever changes, and only in such words.
   */
  function FormatWord(w: string): (r: string)
    ensures |r| == |w| && Lower(r) == Lower(w)
    ensures r != w ==>
      if Contains(w, "-LN") then
        var pieces := Split(w, "-LN");
        |pieces| == 2 && Upper(pieces[0]) == pieces[0] && |pieces[0]| > 1
      else Upper(w) == w && |w| > 1
  {
    if Contains(w, "-LN") then
      var pieces := Split(w, "-LN");
      if |pieces| == 2 then
        var before, after := pieces[0], pieces[1];
        SplitJoin(w, "-LN");
        assert w == before + "-LN" + after;
        LowerAppend(CapitalizeIfUpper(before), "-LN" + after);
        LowerAppend(before, "-LN" + after);
        assert CapitalizeIfUpper(before) + "-LN" + after == CapitalizeIfUpper(before) + ("-LN" + after);
        CapitalizeIfUpper(before) + "-LN" + after
      else w
    else CapitalizeIfUpper(w)
  }

  /** In a word with a single "-LN", the marker and everything after it are kept as they are. */
  lemma {:induction false} FormatWordAroundMarker(w: string)
    requires Contains(w, "-LN") && |Split(w, "-LN")| == 2
    ensures var pieces := Split(w, "-LN");
      && w == pieces[0] + "-LN" + pieces[1]
      && FormatWord(w) == CapitalizeIfUpper(pieces[0]) + "-LN" + pieces[1]
  {
    SplitJoin(w, "-LN");
  }

  /** The word list after formatting: the first word as it is, every later word through `FormatWord`. */
  function FormattedParts(parts: seq<string>): (r: seq<string>)
  {
    seq(|parts|, i requires 0 <= i < |parts| => if i == 0 then parts[0] else FormatWord(parts[i]))
  }

  /** The loop that builds `formatted_parts` word by word. */
  method FormatParts(parts: seq<string>) returns (formatted: seq<string>)
    ensures |formatted| == |parts|
    ensures |parts| > 0 ==> formatted[0] == parts[0]
    ensures forall i :: 1 <= i < |parts| ==> formatted[i] == FormatWord(parts[i])
  {
    formatted := [];
    for i := 0 to |parts|
      invariant |formatted| == i
      invariant i > 0 ==> formatted[0] == parts[0]
      invariant forall k :: 1 <= k < i ==> formatted[k] == FormatWord(parts[k])
    {
      var part := parts[i];
      if i == 0 {
        formatted := formatted + [part];
      } else {
        formatted := formatted + [FormatWord(part)];
      }
    }
  }

  /** A name of two or more words, re-joined after formatting; a single word is left alone. */
  function FormatName(name: string): string
  {
    var parts := Words(name);
    if |parts| >= 2 then Join(FormattedParts(parts), " ") else name
  }

  /** Drops one leading "GDTC " so that the prefix is not written twice. */
  function DropPrefix(name: string): string
  {
    if StartsWith(name, "GDTC ") then name[5..] else name
  }

  /** The first character of a non-blank text that is not white space survives `strip()`. */
  lemma {:induction false} NonBlankKeepsHead(s: string)
    requires s != [] && !IsSpace(s[0])
    ensures Strip(s) != []
  {
    RStripKeepsHead(s);
  }

  /** The first line of a stripped, non-blank text is not blank. */
  lemma {:induction false} FirstLineNotBlank(text: string)
    requires text != [] && Strip(text) == text
    ensures Strip(FirstLine(text)) != []
  {
    StripBounds(text);
    assert text[..1] != "\n";
    assert FirstLine(text)[0] == text[0];
    NonBlankKeepsHead(FirstLine(text));
  }

  /** The name made from the stripped first line: none when it is empty, else "GDTC " and the formatted line. */
  function NameFromLine(className: string): (name: Option<string>)
    ensures name.Some? <==> className != []
    ensures name.Some? ==> StartsWith(name.value, "GDTC ")
  {
    if className == [] then None
    else Some("GDTC " + FormatName(DropPrefix(className)))
  }

  /**
   * The class name `parse_class_name` returns for a cell: none for an empty,
   * blank or "nan" cell, otherwise "GDTC " and the formatted first line.
   */
  function NameOf(cell: Option<string>): (name: Option<string>)
    ensures name.Some? ==> StartsWith(name.value, "GDTC ")
    ensures name.None? <==> cell.None? || Strip(cell.value) == "" || Strip(cell.value) == "nan"
  {
    match cell
    case None => None
    case Some(t) =>
      var text := Strip(t);
      if t == [] || text == "" || text == "nan" then None
      else
        StripIdempotent(t);
        FirstLineNotBlank(text);
        NameFromLine(Strip(FirstLine(text)))
  }

  /** The formatting steps of `parse_class_name` once the first line is known to be non-empty. */
  method FormatClassName(className: string) returns (name: string)
    requires className != []
    ensures Some(name) == NameFromLine(className)
  {
    var rest := className;
    if StartsWith(rest, "GDTC ") {
      rest := rest[5..];
    }
    var parts := Words(rest);
    var formattedName;
    if |parts| >= 2 {
      var formattedParts := FormatParts(parts);
      assert formattedParts == FormattedParts(parts);
      formattedName := Join(formattedParts, " ");
    } else {
      formattedName := rest;
    }
    name := "GDTC " + formattedName;
  }

  /** The method: the guards of `parse_class_name`, then `FormatClassName` on the stripped first line. */
  method ParseClassName(cell: Option<string>) returns (name: Option<string>)
    ensures name == NameOf(cell)
  {
    if cell.None? || cell.value == [] {
      return None;
    }
    var text := Strip(cell.value);
    if text == "" || text == "nan" {
      return None;
    }
    var lines := Split(text, "\n");
    var className := Strip(lines[0]);
    if className == [] {
      return None;
    }
    var formatted := FormatClassName(className);
    name := Some(formatted);
  }

  /** A cell that strips to neither "" nor "nan" is named after its stripped first line. */
  lemma {:induction false} NameOfNonBlank(t: string)
    requires Strip(t) != "" && Strip(t) != "nan"
    ensures NameOf(Some(t)) == NameFromLine(Strip(FirstLine(Strip(t))))
  {
    assert t != [];
  }

  /** A cell whose stripped first line is neither "" nor "nan" does not strip to "" or "nan" either. */
  lemma {:induction false} NonBlankLine(t: string)
    requires Strip(FirstLine(Strip(t))) != "" && Strip(FirstLine(Strip(t))) != "nan"
    ensures Strip(t) != "" && Strip(t) != "nan"
  {
    BlankLines();
  }

  /** A line followed by a line break and more text: the stripped first line of the stripped whole is the stripped line. */
  lemma {:induction false} FirstLineAfterBreak(a: string, b: string)
    requires '\n' !in a && Strip(a) != ""
    ensures Strip(FirstLine(Strip(a + "\n" + b))) == Strip(a)
  {
    var t := a + "\n" + b;
    FirstLineOf(a, "\n" + b);
    assert t == a + ("\n" + b);
    FirstLineOfStripped(t);
  }

  /** A single line, stripped, is its own stripped first line. */
  lemma {:induction false} SingleLineStripped(a: string)
    requires '\n' !in a
    ensures Strip(FirstLine(Strip(a))) == Strip(a)
  {
    var core := Strip(a);
    assert '\n' !in core by {
      var r := RStrip(a);
      assert r == a[..|r|];
      assert core == r[|r| - |core|..];
    }
    NoBreakFirstLine(core);
    StripIdempotent(a);
  }

  /** Only the first line of the cell is used: whatever follows the first line break does not matter. */
  lemma {:induction false} NameUsesFirstLineOnly(a: string, b: string)
    requires '\n' !in a
    requires Strip(a) != "" && Strip(a) != "nan"
    ensures NameOf(Some(a + "\n" + b)) == NameOf(Some(a))
  {
    var t := a + "\n" + b;
    FirstLineAfterBreak(a, b);
    SingleLineStripped(a);
    NonBlankLine(t);
    NameOfNonBlank(t);
    NameOfNonBlank(a);
  }

  /** Neither "" nor "nan" has a first line that strips to anything else. */
  lemma BlankLines()
    ensures Strip(FirstLine("")) == "" && Strip(FirstLine("nan")) == "nan"
  {
    NoBreakFirstLine("");
    NoBreakFirstLine("nan");
    StripNoop("nan");
  }

  /** A one-line cell without surrounding white space is its own first line: its name is made from it whole. */
  lemma {:induction false} TrimmedLineName(s: string)
    requires s != [] && !IsSpace(s[0]) && !IsSpace(s[|s| - 1]) && '\n' !in s && s != "nan"
    ensures NameOf(Some(s)) == NameFromLine(s)
  {
    StripNoop(s);
    NoBreakFirstLine(s);
  }

  /** One leading "GDTC " in the cell is dropped before the prefix is added, so it is never doubled. */
  lemma {:induction false} NameNotDoubled(x: string)
    requires x != [] && !IsSpace(x[0]) && !IsSpace(x[|x| - 1]) && '\n' !in x
    requires x != "nan" && !StartsWith(x, "GDTC ")
    ensures NameOf(Some("GDTC " + x)) == NameOf(Some(x))
  {
    var g := "GDTC " + x;
    assert g != [] && !IsSpace(g[0]) && !IsSpace(g[|g| - 1]) && '\n' !in g && g != "nan" by {
      assert g[0] == 'G' && g[|g| - 1] == x[|x| - 1] && |g| > 3;
    }
    TrimmedLineName(x);
    TrimmedLineName(g);
    PrefixedLineName(x);
  }

  /** A line starting with "GDTC " and one without it give the same name. */
  lemma {:induction false} PrefixedLineName(x: string)
    requires x != [] && !StartsWith(x, "GDTC ")
    ensures NameFromLine("GDTC " + x) == NameFromLine(x)
  {
    var g := "GDTC " + x;
    assert g[..5] == "GDTC " && g[5..] == x;
  }

  /**
   * For a name of two or more words, formatting keeps the number of words
   * and the first word, and changes every later word at most in letter case.
   */
  lemma {:induction false} FormatNameWords(name: string)
    requires |Words(name)| >= 2
    ensures var ws, fs := Words(name), Words(FormatName(name));
      && |fs| == |ws| && fs[0] == ws[0]
      && forall i :: 1 <= i < |ws| ==> fs[i] == FormatWord(ws[i]) && Lower(fs[i]) == Lower(ws[i])
  {
    var ws := Words(name);
    var fp := FormattedParts(ws);
    assert Words(Join(fp, " ")) == fp by {
      WordsAreWords(name);
      FormattedPartsAreWords(ws);
      WordsOfJoin(fp);
    }
    assert FormatName(name) == Join(fp, " ");
    forall i | 1 <= i < |ws|
      ensures fp[i] == FormatWord(ws[i]) && Lower(fp[i]) == Lower(ws[i])
    {
      var w := ws[i];
      assert fp[i] == FormatWord(w);
    }
  }

  /** Formatting keeps every word a non-empty run of characters that are not white space. */
  lemma {:induction false} FormattedPartsAreWords(ws: seq<string>)
    requires forall i :: 0 <= i < |ws| ==> ws[i] != [] && NoSpace(ws[i])
    ensures forall i :: 0 <= i < |ws| ==> FormattedParts(ws)[i] != [] && NoSpace(FormattedParts(ws)[i])
  {
    var fp := FormattedParts(ws);
    forall i | 1 <= i < |ws|
      ensures fp[i] != [] && NoSpace(fp[i])
    {
      LowerKeepsSpaces(fp[i], ws[i]);
    }
  }

  // ----- the column-pair loop and the class filter of excel_to_json -----

  /** The entries one (day, period) column pair contributes: one per period, when the day is valid. */
  function PairEntries(dayCell: Option<string>, periodCell: Option<string>): (entries: seq<Entry>)
    ensures forall k :: 0 <= k < |entries| ==> entries[k].room == Yard && 0 <= entries[k].day < 5
  {
    var day := ParseDayText(dayCell);
    var periods := ParsePeriodText(periodCell);
    if day.Some? && periods != [] then DayEntries(Yard, day.value, periods) else []
  }

  /** `PairEntries` on a pair of cells. */
  function EntriesOfPair(pair: CellPair): seq<Entry>
  {
    PairEntries(pair.0, pair.1)
  }

  /** The schedule of a row: the entries of its column pairs (1, 2), (3, 4), ... in column order. */
  function RowSchedule(row: Row): seq<Entry>
    requires |row| >= 1
  {
    PairsSchedule(row, EntriesOfPair)
  }

  /** Every entry of a row's schedule is in the school yard on a weekday. */
  lemma {:induction false} RowScheduleInYard(row: Row)
    requires |row| >= 1
    ensures forall e :: e in RowSchedule(row) ==> e.room == Yard && 0 <= e.day < 5
  {
    forall e | e in RowSchedule(row)
      ensures e.room == Yard && 0 <= e.day < 5
    {
      ScheduleSource(row, EntriesOfPair, e);
      var i :| 1 <= i < |row| - 1 && e in EntriesOfPair((row[i], row[i + 1]));
      var entries := EntriesOfPair((row[i], row[i + 1]));
      var k :| 0 <= k < |entries| && entries[k] == e;
    }
  }

  /** The classes a row contributes: one, when its name is valid and its schedule is not empty. */
  function ClassOf(row: Row): (classes: seq<ClassRecord>)
    requires |row| >= 1
  {
    var name := NameOf(row[0]);
    var schedule := RowSchedule(row);
    if name.Some? && schedule != [] then [ClassRecord(name.value, "", schedule)] else []
  }

  /** The JSON classes of a sheet, in row order. */
  function Convert(sheet: seq<Row>): (classes: seq<ClassRecord>)
    requires forall row :: row in sheet ==> |row| >= 1
    ensures |classes| <= |sheet|
  {
    if sheet == [] then []
    else Convert(sheet[..|sheet| - 1]) + ClassOf(sheet[|sheet| - 1])
  }

  /** The classes of the first `index + 1` rows: those of the first `index`, then those of row `index`. */
  lemma {:induction false} ConvertStep(sheet: seq<Row>, index: nat)
    requires forall row :: row in sheet ==> |row| >= 1
    requires index < |sheet|
    ensures Convert(sheet[..index + 1]) == Convert(sheet[..index]) + ClassOf(sheet[index])
  {
    assert sheet[..index + 1][..index] == sheet[..index];
    assert sheet[..index + 1][index] == sheet[index];
  }

  /**
   * Every class of the output carries a "GDTC " name, an empty original id
   * and a non-empty schedule whose entries are all in the school yard on a weekday.
   */
  lemma {:induction false} ConvertClasses(sheet: seq<Row>)
    requires forall row :: row in sheet ==> |row| >= 1
    ensures forall c :: c in Convert(sheet) ==>
      && StartsWith(c.name, "GDTC ") && c.originalClassId == "" && c.schedule != []
      && forall e :: e in c.schedule ==> e.room == Yard && 0 <= e.day < 5
    decreases |sheet|
  {
    if sheet != [] {
      var last := sheet[|sheet| - 1];
      assert last in sheet;
      assert forall row :: row in sheet[..|sheet| - 1] ==> row in sheet;
      ConvertClasses(sheet[..|sheet| - 1]);
      RowScheduleInYard(last);
    }
  }

  /** The body of the column-pair loop: parse both cells, then one entry per period when the day is valid. */
  method CollectPair(dayCell: Option<string>, periodCell: Option<string>) returns (entries: seq<Entry>)
    ensures entries == EntriesOfPair((dayCell, periodCell))
  {
    var day := ParseDayText(dayCell);
    var periods := ParsePeriodText(periodCell);
    entries := [];
    if day.Some? && periods != [] {
      entries := DayEntriesLoop(Yard, day.value, periods);
    }
  }

  /** The column-pair loop of `excel_to_json` for one row: the entries of every pair, in column order. */
  method CollectSchedule(row: Row) returns (schedule: seq<Entry>)
    requires |row| >= 1
    ensures schedule == RowSchedule(row)
  {
    schedule := [];
    var col := 1;
    while col < |row| - 1
      invariant 1 <= col <= |row|
      invariant schedule + FlatMap(ColumnPairs(row[col..]), EntriesOfPair) == RowSchedule(row)
    {
      var entries := CollectPair(row[col], row[col + 1]);
      ScheduleLoopStep(row, col, EntriesOfPair, schedule, entries);
      schedule := schedule + entries;
      col := col + 2;
    }
  }

  /** The main loop of `excel_to_json`: every row with a valid name and a non-empty schedule becomes a class. */
  method ExcelToJson(sheet: seq<Row>) returns (classes: seq<ClassRecord>)
    requires forall row :: row in sheet ==> |row| >= 1
    ensures classes == Convert(sheet)
  {
    classes := [];
    for index := 0 to |sheet|
      invariant classes == Convert(sheet[..index])
    {
      ConvertStep(sheet, index);
      var row := sheet[index];
      var className := ParseClassName(row[0]);
      if className.None? {
        continue;
      }
      var schedule := CollectSchedule(row);
      if schedule != [] {
        classes := classes + [ClassRecord(className.value, "", schedule)];
      }
    }
    assert sheet[..|sheet|] == sheet;
  }
}
