/**
 * The first spreadsheet-to-JSON converter (excel_to_json.py): it reads a
 * class name and a room from the first column, either on two lines or as a
 * name followed by a room code such as "A703", and turns every (day, period)
 * column pair after it into schedule entries in that room.
 */
module ConverterV1 {
  import opened Wrappers
  import opened Text
  import opened Numbers
  import opened ScheduleModel
  import ConverterV2

  /** A class of the JSON output: only a name and a schedule. */
  datatype ClassEntry = ClassEntry(name: string, schedule: seq<Entry>)

  // ----- parse_day_text -----

  /** The day a cell names: the five weekday labels, after trimming, give 0 to 4; anything else gives none. */
  function ParseDayText(cell: Option<string>): (day: Option<int>)
    ensures day.Some? ==> 0 <= day.value < 5
  {
    match cell
    case None => None
    case Some(t) =>
      if t == [] || Strip(t) == "" then None
      else LookupDay(Strip(t))
  }

  /** A cell names a day exactly when its trimmed text is one of the five labels, and the day is that label's position. */
  lemma {:induction false} DayTextMeaning(cell: Option<string>)
    ensures ParseDayText(cell).Some? <==> cell.Some? && Strip(cell.value) in DayLabels
    ensures ParseDayText(cell).Some? ==> DayLabels[ParseDayText(cell).value] == Strip(cell.value)
  {
    if cell.Some? {
      LookupDayLabels(Strip(cell.value));
    }
  }

  // ----- parse_period_text -----

  /** A text without '-': only an integer n is accepted, and it names period n-1. */
  function IntPeriod(text: string): (periods: seq<int>)
    ensures |periods| <= 1
    ensures |periods| == 1 <==> ParseInt(text).Some?
  {
    match ParseInt(text)
    case Some(n) => [n - 1]
    case None => []
  }

  /**
   * The 0-based periods a cell names: "a-b" gives a-1 .. b-1 exactly as the
   * second converter reads it, an integer n gives n-1, and an empty, blank
   * or malformed cell gives no periods.
   */
  function ParsePeriodText(cell: Option<string>): (periods: seq<int>)
    ensures cell.None? || Strip(cell.value) == "" ==> periods == []
    ensures forall i :: 0 <= i < |periods| ==> periods[i] == periods[0] + i
    ensures |periods| > 1 ==> cell.Some? && Contains(Strip(cell.value), "-")
  {
    match cell
    case None => []
    case Some(t) =>
      var text := Strip(t);
      if t == [] || text == "" then []
      else if Contains(text, "-") then ConverterV2.RangePeriods(text)
      else IntPeriod(text)
  }

  /** A single non-negative number n names period n-1. */
  lemma {:induction false} SingleNumberPeriod(n: int)
    requires n >= 0
    ensures ParsePeriodText(Some(IntToString(n))) == [n - 1]
  {
    var s := IntToString(n);
    IntToStringShape(n);
    StripNoop(s);
    ContainsChar(s, '-');
    ParseIntRoundTrip(n);
  }

  /** The decimal form "n.0" of a number is not an integer, so it names no period. */
  lemma {:induction false} DecimalPeriodRejected(n: int)
    requires n >= 0
    ensures ParsePeriodText(Some(IntToString(n) + ".0")) == []
  {
    var d := IntToString(n);
    var s := d + ".0";
    IntToStringShape(n);
    StripNoop(s);
    ContainsChar(s, '-');
    assert s[|d|] == '.' && !IsDigit(s[|d|]);
    assert s[0] == d[0];
  }

  // ----- parse_class_name_and_room -----

  /** What `parse_class_name_and_room` returns: a class name and a room, each possibly missing. */
  datatype NameAndRoom = NameAndRoom(name: Option<string>, room: Option<string>)

  /** The regular-expression class `[A-Z]`. */
  predicate IsUpperLetter(c: char)
  {
    'A' <= c <= 'Z'
  }

  /** `[A-Z]\d+` matching the whole of `s`: a capital letter, then one or more digits. */
  predicate IsRoomCode(s: string)
  {
    |s| >= 2 && IsUpperLetter(s[0]) && AllDigits(s[1..])
  }

  /** `\s*[A-Z]\d+$` matching the whole of `s` with the white space taken as its first `w` characters. */
  predicate TailMatchesAt(s: string, w: nat)
  {
    w <= |s| && AllSpace(s[..w]) && IsRoomCode(s[w..])
  }

  /** A match of the tail with `w` characters of white space leaves exactly the room code after `lstrip()`. */
  lemma {:induction false} TailMatchLeavesCode(s: string, w: nat)
    requires TailMatchesAt(s, w)
    ensures LStrip(s) == s[w..]
  {
    var code := s[w..];
    assert s == s[..w] + code;
    LStripLeadingSpace(s[..w], code);
    assert !IsSpace(code[0]);
  }

  /**
   * The white space before a room code can only be the whole leading run of
   * white space, so the tail of the pattern matches exactly when the text
   * without its leading white space is a room code.
   */
  lemma {:induction false} TailMatchesLStrip(s: string, w: nat)
    ensures TailMatchesAt(s, w) <==> w == |s| - |LStrip(s)| && IsRoomCode(LStrip(s))
  {
    if TailMatchesAt(s, w) {
      TailMatchLeavesCode(s, w);
    }
    var c := LStrip(s);
    if w == |s| - |c| && IsRoomCode(c) {
      LStripDropsSpace(s);
      assert s[w..] == c;
    }
  }

  /** The length of the longest run of digits at the end of `s`. */
  function TrailingDigits(s: string): (n: nat)
    ensures n <= |s|
    ensures forall i :: |s| - n <= i < |s| ==> IsDigit(s[i])
    ensures n < |s| ==> !IsDigit(s[|s| - n - 1])
    decreases |s|
  {
    if s != [] && IsDigit(s[|s| - 1]) then TrailingDigits(s[..|s| - 1]) + 1 else 0
  }

  /** A digit run that cannot be extended to the left is the longest one. */
  lemma {:induction false} TrailingDigitsOf(s: string, n: nat)
    requires n < |s| && !IsDigit(s[|s| - n - 1])
    requires forall i :: |s| - n <= i < |s| ==> IsDigit(s[i])
    ensures TrailingDigits(s) == n
  {
  }

  /** Where a room code has to start: right before the longest run of digits at the end. */
  function RoomStart(t: string): int
  {
    |t| - 1 - TrailingDigits(t)
  }

  /**
   * The text has a room code at its end after a non-empty prefix: a capital
   * letter right before its longest run of trailing digits, and at least one
   * digit and one character before the letter.
   */
  predicate HasRoomCode(t: string)
  {
    TrailingDigits(t) >= 1 && RoomStart(t) >= 1 && IsUpperLetter(t[RoomStart(t)])
  }

  /** A match of the tail of the pattern from position `m` starts its room code at `RoomStart`, after white space only. */
  lemma {:induction false} TailMatchPosition(t: string, m: nat)
    requires m <= |t| && IsRoomCode(LStrip(t[m..]))
    ensures TrailingDigits(t) >= 1 && m <= RoomStart(t) && IsUpperLetter(t[RoomStart(t)]) && AllSpace(t[m..RoomStart(t)])
  {
    var p := LStripGap(t, m);
    CodeAtEnd(t, p);
  }

  /** `lstrip()` of the text from `m` on is the text from some later position `p` on, with white space only in between. */
  lemma {:induction false} LStripGap(t: string, m: nat) returns (p: nat)
    requires m <= |t|
    ensures m <= p <= |t| && t[p..] == LStrip(t[m..]) && AllSpace(t[m..p])
  {
    var s := t[m..];
    var c := LStrip(s);
    LStripDropsSpace(s);
    p := |t| - |c|;
    assert c == t[p..];
    assert t[m..p] == s[..|s| - |c|];
  }

  /** A room code that ends the text starts at `RoomStart`. */
  lemma {:induction false} CodeAtEnd(t: string, p: nat)
    requires p <= |t| && IsRoomCode(t[p..])
    ensures TrailingDigits(t) >= 1 && RoomStart(t) == p
  {
    var c := t[p..];
    forall i | p + 1 <= i < |t|
      ensures IsDigit(t[i])
    {
      assert c[1..][i - p - 1] == t[i];
    }
    assert !IsDigit(t[p]) by {
      assert c[0] == t[p];
    }
    TrailingDigitsOf(t, |t| - p - 1);
  }

  /** A capital letter at `RoomStart` makes the rest of the text a room code. */
  lemma {:induction false} RoomCodeAtStart(t: string)
    requires TrailingDigits(t) >= 1 && RoomStart(t) >= 0 && IsUpperLetter(t[RoomStart(t)])
    ensures IsRoomCode(t[RoomStart(t)..])
  {
    var j := RoomStart(t);
    var code := t[j..];
    forall i | 0 <= i < |code[1..]|
      ensures IsDigit(code[1..][i])
    {
      assert code[1..][i] == t[j + 1 + i];
    }
  }

  /** White space before a room code is dropped by `lstrip()`, and nothing more. */
  lemma {:induction false} LStripBeforeCode(w: string, code: string)
    requires AllSpace(w) && IsRoomCode(code)
    ensures LStrip(w + code) == code
  {
    LStripLeadingSpace(w, code);
    assert !IsSpace(code[0]);
  }

  /** The tail of the pattern matches from any position followed by white space only up to `RoomStart`. */
  lemma {:induction false} TailMatchFrom(t: string, m: nat)
    requires m <= |t|
    requires TrailingDigits(t) >= 1 && m <= RoomStart(t) && IsUpperLetter(t[RoomStart(t)]) && AllSpace(t[m..RoomStart(t)])
    ensures LStrip(t[m..]) == t[RoomStart(t)..]
    ensures IsRoomCode(t[RoomStart(t)..])
  {
    var j := RoomStart(t);
    RoomCodeAtStart(t);
    assert t[m..] == t[m..j] + t[j..];
    LStripBeforeCode(t[m..j], t[j..]);
  }

  /** `\s*[A-Z]\d+$` matching the text from position `m` on, the white space being its leading run. */
  predicate TailMatches(t: string, m: nat)
    requires m <= |t|
  {
    IsRoomCode(LStrip(t[m..]))
  }

  /** The first position from `k` on, below `n`, where `found` holds: how a lazy quantifier tries the shortest match first. */
  function FirstFrom(found: nat -> bool, k: nat, n: nat): (first: Option<nat>)
    ensures first.Some? ==> k <= first.value < n && found(first.value)
    decreases n - k
  {
    if k >= n then None
    else if found(k) then Some(k)
    else FirstFrom(found, k + 1, n)
  }

  /** Nothing before the first position found holds, and nothing at all when none is found. */
  lemma {:induction false} FirstFromMinimal(found: nat -> bool, k: nat, n: nat)
    ensures FirstFrom(found, k, n).Some? ==> forall m :: k <= m < FirstFrom(found, k, n).value ==> !found(m)
    ensures FirstFrom(found, k, n).None? ==> forall m :: k <= m < n ==> !found(m)
    decreases n - k
  {
    if k < n && !found(k) {
      FirstFromMinimal(found, k + 1, n);
    }
  }

  /** Whether `\s*[A-Z]\d+$` matches `t` from position `m` on, for any position. */
  function TailMatchesIn(t: string): nat -> bool
  {
    (m: nat) => m <= |t| && TailMatches(t, m)
  }

  /**
   * The lazy group `(.+?)`: the shortest prefix of at least `k` characters,
   * and not the whole text, after which `\s*[A-Z]\d+$` matches; its length.
   */
  function LazySplit(t: string, k: nat): (split: Option<nat>)
    requires k >= 1
    ensures split.Some? ==> k <= split.value < |t| && TailMatches(t, split.value)
  {
    FirstFrom(TailMatchesIn(t), k, |t|)
  }

  /** The lazy group is the shortest: the tail matches at no earlier position, and nowhere when the search fails. */
  lemma {:induction false} LazySplitMinimal(t: string, k: nat)
    requires k >= 1
    ensures LazySplit(t, k).Some? ==> forall m :: k <= m < LazySplit(t, k).value ==> !TailMatches(t, m)
    ensures LazySplit(t, k).None? ==> forall m :: k <= m < |t| ==> !TailMatches(t, m)
  {
    var found := TailMatchesIn(t);
    FirstFromMinimal(found, k, |t|);
    var split := LazySplit(t, k);
    var bound := if split.Some? then split.value else |t|;
    forall m | k <= m < bound
      ensures !TailMatches(t, m)
    {
      assert !found(m);
    }
  }

  /** `re.match(r'^(.+?)\s*([A-Z]\d+)$', t)` on a single line: both groups, each stripped, or no match. */
  function MatchNameAndRoom(t: string): Option<(string, string)>
  {
    match LazySplit(t, 1)
    case Some(k) => Some((Strip(t[..k]), Strip(LStrip(t[k..]))))
    case None => None
  }

  /** A room code is its own `strip()`. */
  lemma {:induction false} RoomCodeStripped(code: string)
    requires IsRoomCode(code)
    ensures Strip(code) == code
  {
    assert code[|code| - 1] == code[1..][|code| - 2];
    StripNoop(code);
  }

  /** The name before a position where the tail matches strips to the text before the room code. */
  lemma {:induction false} NameBeforeTail(t: string, k: nat)
    requires k <= |t| && TailMatches(t, k)
    ensures k <= RoomStart(t) && Strip(t[..k]) == Strip(t[..RoomStart(t)])
  {
    TailMatchPosition(t, k);
    StripBeforeSpace(t, k, RoomStart(t));
  }

  /** The room found where the tail matches is the room code at `RoomStart`. */
  lemma {:induction false} RoomOfTail(t: string, k: nat)
    requires k <= |t| && TailMatches(t, k)
    ensures Strip(LStrip(t[k..])) == t[RoomStart(t)..]
  {
    TailMatchPosition(t, k);
    TailMatchFrom(t, k);
    RoomCodeStripped(t[RoomStart(t)..]);
  }

  /** Where the lazy search stops, the name before it strips to the text before the room code, which is the room. */
  lemma {:induction false} LazySplitFound(t: string, k: nat)
    requires LazySplit(t, 1) == Some(k)
    ensures HasRoomCode(t)
    ensures Strip(t[..k]) == Strip(t[..RoomStart(t)]) && Strip(LStrip(t[k..])) == t[RoomStart(t)..]
  {
    TailMatchPosition(t, k);
    NameBeforeTail(t, k);
    RoomOfTail(t, k);
  }

  /** When the text has a room code after a non-empty prefix, the lazy search does not fail. */
  lemma {:induction false} LazySplitNotMissed(t: string)
    requires HasRoomCode(t)
    ensures LazySplit(t, 1).Some?
  {
    var j := RoomStart(t);
    TailMatchFrom(t, j);
    assert TailMatches(t, j);
    LazySplitMinimal(t, 1);
  }

  /**
   * The pattern matches a single line exactly when it has a room code at its
   * end after a non-empty prefix; the room is that code and the name is the
   * stripped text before it.
   */
  lemma {:induction false} MatchCharacterised(t: string)
    ensures MatchNameAndRoom(t).Some? <==> HasRoomCode(t)
    ensures HasRoomCode(t) ==> MatchNameAndRoom(t) == Some((Strip(t[..RoomStart(t)]), t[RoomStart(t)..]))
  {
    if HasRoomCode(t) {
      LazySplitNotMissed(t);
    }
    if LazySplit(t, 1).Some? {
      LazySplitFound(t, LazySplit(t, 1).value);
    }
  }

  /**
   * The class name and room of a cell: nothing for an empty cell; the first
   * two lines, stripped, when there are two or more; otherwise the name and
   * room code the pattern finds, or the whole stripped text with no room.
   */
  function ParseClassNameAndRoom(cell: Option<string>): (parsed: NameAndRoom)
    ensures parsed.name.None? <==> cell.None? || cell.value == []
    ensures parsed.room.Some? ==> parsed.name.Some?
  {
    match cell
    case None => NameAndRoom(None, None)
    case Some(raw) =>
      if raw == [] then NameAndRoom(None, None)
      else
        var t := Strip(raw);
        var lines := Split(t, "\n");
        if |lines| >= 2 then NameAndRoom(Some(Strip(lines[0])), Some(Strip(lines[1])))
        else
          match MatchNameAndRoom(t)
          case Some((name, room)) => NameAndRoom(Some(name), Some(room))
          case None => NameAndRoom(Some(t), None)
  }

  /**
   * A cell with a line break once stripped gives its first line, stripped,
   * as the name and its second line, stripped, as the room; any further
   * lines are ignored.
   */
  lemma {:induction false} TwoLineCell(raw: string, first: string, rest: string)
    requires raw != [] && '\n' !in first && Strip(raw) == first + "\n" + rest
    ensures ParseClassNameAndRoom(Some(raw)) == NameAndRoom(Some(Strip(first)), Some(Strip(FirstLine(rest))))
  {
    assert first + "\n" + rest == first + ['\n'] + rest;
    SplitAtFirst(first, '\n', rest);
    var lines := Split(Strip(raw), "\n");
    assert lines[0] == first && lines[1] == Split(rest, "\n")[0];
  }

  /**
   * A cell of one line: a room code at the end after a non-empty prefix
   * gives that prefix, stripped, as the name and the code as the room;
   * otherwise the whole stripped text is the name and there is no room.
   */
  lemma {:induction false} OneLineCell(raw: string)
    requires raw != [] && '\n' !in Strip(raw)
    ensures var t := Strip(raw);
      ParseClassNameAndRoom(Some(raw)) ==
        if HasRoomCode(t) then NameAndRoom(Some(Strip(t[..RoomStart(t)])), Some(t[RoomStart(t)..]))
        else NameAndRoom(Some(t), None)
  {
    var t := Strip(raw);
    ContainsChar(t, '\n');
    SplitCount(t, "\n");
    MatchCharacterised(t);
  }

  /** An illustration, the facts `ClassCodeReadAsRoom` needs: "10A1" ends in one digit after the capital letter at position 2. */
  lemma ClassCodeShape()
    ensures Strip("10A1") == "10A1" && '\n' !in "10A1"
    ensures RoomStart("10A1") == 2 && HasRoomCode("10A1")
    ensures Strip("10A1"[..2]) == "10" && "10A1"[2..] == "A1"
  {
    var t := "10A1";
    StripNoop(t);
    assert !IsDigit(t[2]) && IsDigit(t[3]);
    TrailingDigitsOf(t, 1);
    assert t[..2] == "10" && t[2..] == "A1";
    StripNoop("10");
  }

  /** A class code written alone, such as "10A1", is itself read as a name followed by a room code. */
  lemma ClassCodeReadAsRoom()
    ensures ParseClassNameAndRoom(Some("10A1")) == NameAndRoom(Some("10"), Some("A1"))
  {
    ClassCodeShape();
    OneLineCell("10A1");
  }

  // ----- the column-pair loop and the class filter of excel_to_json -----

  /** The entries one (day, period) column pair contributes: one per period, when the day is valid and there is a room. */
  function PairEntries(room: Option<string>, dayCell: Option<string>, periodCell: Option<string>): (entries: seq<Entry>)
    ensures entries != [] ==> room.Some? && room.value != []
    ensures forall k :: 0 <= k < |entries| ==> entries[k].room == room.value && 0 <= entries[k].day < 5
  {
    var day := ParseDayText(dayCell);
    var periods := ParsePeriodText(periodCell);
    if day.Some? && periods != [] && room.Some? && room.value != [] then DayEntries(room.value, day.value, periods)
    else []
  }

  /** `PairEntries` for the room of a row, on a pair of cells. */
  function EntriesIn(room: Option<string>): CellPair -> seq<Entry>
  {
    (pair: CellPair) => PairEntries(room, pair.0, pair.1)
  }

  /** The schedule of a row in `room`: the entries of its column pairs (1, 2), (3, 4), ... in column order. */
  function RowSchedule(row: Row, room: Option<string>): seq<Entry>
    requires |row| >= 1
  {
    PairsSchedule(row, EntriesIn(room))
  }

  /** Every entry of a row's schedule is in the row's room, which is a non-empty text, on a weekday. */
  lemma {:induction false} RowScheduleInRoom(row: Row, room: Option<string>)
    requires |row| >= 1
    ensures forall e :: e in RowSchedule(row, room) ==> room.Some? && room.value != [] && e.room == room.value && 0 <= e.day < 5
  {
    forall e | e in RowSchedule(row, room)
      ensures room.Some? && room.value != [] && e.room == room.value && 0 <= e.day < 5
    {
      ScheduleSource(row, EntriesIn(room), e);
      var i :| 1 <= i < |row| - 1 && e in EntriesIn(room)((row[i], row[i + 1]));
      var entries := PairEntries(room, row[i], row[i + 1]);
      var k :| 0 <= k < |entries| && entries[k] == e;
    }
  }

  /** The classes a row contributes: one, when it has a non-empty name and its schedule is not empty. */
  function ClassOf(row: Row): seq<ClassEntry>
    requires |row| >= 1
  {
    var parsed := ParseClassNameAndRoom(row[0]);
    if parsed.name.None? || parsed.name.value == [] then []
    else
      var schedule := RowSchedule(row, parsed.room);
      if schedule != [] then [ClassEntry(parsed.name.value, schedule)] else []
  }

  /** The JSON classes of a sheet, in row order. */
  function Convert(sheet: seq<Row>): (classes: seq<ClassEntry>)
    requires forall row :: row in sheet ==> |row| >= 1
    ensures |classes| <= |sheet|
  {
    if sheet == [] then []
    else Convert(sheet[..|sheet| - 1]) + ClassOf(sheet[|sheet| - 1])
  }

  /** The classes of the first `index + 1` rows: those of the first `index`, then those of row `index`. */
  lemma {:induction false} ConvertStep(sheet: seq<Row>, index: nat)
    requires forall row :: row in sheet ==> |row| >= 1
    requires index < |sheet|
    ensures Convert(sheet[..index + 1]) == Convert(sheet[..index]) + ClassOf(sheet[index])
  {
    assert sheet[..index + 1][..index] == sheet[..index];
    assert sheet[..index + 1][index] == sheet[index];
  }

  /**
   * Every class of the output has a non-empty name and a non-empty schedule
   * whose entries are all in one room, a non-empty text, on a weekday.
   */
  lemma {:induction false} ConvertClasses(sheet: seq<Row>)
    requires forall row :: row in sheet ==> |row| >= 1
    ensures forall c :: c in Convert(sheet) ==>
      && c.name != [] && c.schedule != []
      && forall e :: e in c.schedule ==> e.room == c.schedule[0].room && e.room != [] && 0 <= e.day < 5
    decreases |sheet|
  {
    if sheet != [] {
      var last := sheet[|sheet| - 1];
      assert last in sheet;
      assert forall row :: row in sheet[..|sheet| - 1] ==> row in sheet;
      ConvertClasses(sheet[..|sheet| - 1]);
      RowScheduleInRoom(last, ParseClassNameAndRoom(last[0]).room);
    }
  }

  /** The body of the column-pair loop: parse both cells, then one entry per period when the day is valid and there is a room. */
  method CollectPair(room: Option<string>, dayCell: Option<string>, periodCell: Option<string>) returns (entries: seq<Entry>)
    ensures entries == EntriesIn(room)((dayCell, periodCell))
  {
    var day := ParseDayText(dayCell);
    var periods := ParsePeriodText(periodCell);
    entries := [];
    if day.Some? && periods != [] && room.Some? && room.value != [] {
      entries := DayEntriesLoop(room.value, day.value, periods);
    }
  }

  /** The column-pair loop of `excel_to_json` for one row: the entries of every pair, in column order. */
  method CollectSchedule(row: Row, room: Option<string>) returns (schedule: seq<Entry>)
    requires |row| >= 1
    ensures schedule == RowSchedule(row, room)
  {
    schedule := [];
    var col := 1;
    while col < |row| - 1
      invariant 1 <= col <= |row|
      invariant schedule + FlatMap(ColumnPairs(row[col..]), EntriesIn(room)) == RowSchedule(row, room)
    {
      var entries := CollectPair(room, row[col], row[col + 1]);
      ScheduleLoopStep(row, col, EntriesIn(room), schedule, entries);
      schedule := schedule + entries;
      col := col + 2;
    }
  }

  /** The body of the row loop: the class a row makes, or none when its name is empty or its schedule is. */
  method RowClasses(row: Row) returns (classes: seq<ClassEntry>)
    requires |row| >= 1
    ensures classes == ClassOf(row)
  {
    var parsed := ParseClassNameAndRoom(row[0]);
    if parsed.name.None? || parsed.name.value == [] {
      return [];
    }
    var schedule := CollectSchedule(row, parsed.room);
    classes := [];
    if schedule != [] {
      classes := [ClassEntry(parsed.name.value, schedule)];
    }
  }

  /** The main loop of `excel_to_json`: every row with a non-empty name and a non-empty schedule becomes a class. */
  method ExcelToJson(sheet: seq<Row>) returns (classes: seq<ClassEntry>)
    requires forall row :: row in sheet ==> |row| >= 1
    ensures classes == Convert(sheet)
  {
    classes := [];
    for index := 0 to |sheet|
      invariant classes == Convert(sheet[..index])
    {
      ConvertStep(sheet, index);
      var rowClasses := RowClasses(sheet[index]);
      classes := classes + rowClasses;
    }
    assert sheet[..|sheet|] == sheet;
  }
}
