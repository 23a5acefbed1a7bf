# Class-schedule converter, modelled in Dafny

The repository converts class-schedule spreadsheets into JSON and back.

- `excel_to_json.py` and `excel_to_json_v2.py` are two converters. Both read one spreadsheet row per class. The first column names the class. It is followed by (day, period) column pairs such as ("Thứ 4", "3-5"). Every period becomes one `{room, day, period}` entry. The first converter also reads the room from the first column. The second puts every class in the school yard, "Sân trường", and rewrites the name into the "GDTC <name>" form.
- `process_schedule.py` goes the other way. It groups a class's entries by day, merges consecutive periods into one item ("Tiết 3 - Tiết 5"), and lays the classes out as rows of a table padded to the widest class.

The project is split into these modules:

| file | module | what it holds |
|---|---|---|
| `wrappers.dfy` | `Wrappers` | `Option`, which stands for Python's `None` |
| `text.dfy` | `Text` | the `str` operations the code relies on: `strip`, `split`, `split()`, `join`, and ASCII `upper`/`lower`/`capitalize` |
| `numbers.dfy` | `Numbers` | `int(text)`, `int(float(text))` and `str(n)`, with the round trip between them |
| `schedule.dfy` | `ScheduleModel` | schedule entries, spreadsheet rows (`seq<Option<string>>`, `None` for an empty cell), the weekday labels, and the column-pair walk both converters share |
| `converter_v2.dfy` | `ConverterV2` | `excel_to_json_v2.py` |
| `converter_v1.dfy` | `ConverterV1` | `excel_to_json.py`, including the regular expression `^(.+?)\s*([A-Z]\d+)$` |
| `export.dfy` | `ScheduleExport` | `process_schedule.py` |
| `agreement.dfy` | `ConverterAgreement` | how the two converters relate to each other and to the export |

Pure code is written as functions, and lemmas state what the functions mean. Some code works by loops, appends and dictionary updates:
- the column-pair loops and the class filter of both converters;
- the word loop of `parse_class_name`;
- the grouping, sorting and merging in `process_schedule`;
- the maximum, header and row loops of `process_json_file`.

Each of these is a method with loop invariants. The method is proved equal to a function, and the lemmas are proved about that function. The dictionaries `day_groups` and `room_info` are `map`s. Python's `sorted` is an insertion sort written as a function, and it is proved to return a sorted permutation.

Two behaviours of the code are worth knowing:
- **Decimal periods.** Only the second converter accepts decimal period numerals; the first rejects "3.0" (`ConverterAgreement.DecimalPeriodDiffers`).
- **Class codes read as rooms.** The first converter's pattern also matches a class code written alone: "10A1" becomes class "10" in room "A1" (`ConverterV1.ClassCodeReadAsRoom`).

## Model

| member | source | states |
|---|---|---|
| Text.LStrip | excel_to_json.py:20 | `lstrip` gives a suffix of the text that does not start with white space |
| Text.RStrip | excel_to_json.py:20 | `rstrip` gives a prefix of the text that does not end with white space |
| Text.LStripDropsSpace | excel_to_json.py:20 | everything `lstrip` drops is white space |
| Text.RStripDropsSpace | excel_to_json.py:20 | everything `rstrip` drops is white space |
| Text.StripBeforeSpace | excel_to_json.py:70 | white space between a prefix and a longer prefix is gone once either is stripped |
| Text.Strip | excel_to_json.py:20 | `strip()`: `lstrip` after `rstrip`; its meaning is stated by `LStrip`, `RStrip`, `StripIdempotent` and `StripCommutes` |
| Text.StripIdempotent | excel_to_json_v2.py:61-69 | stripping an already stripped text changes nothing |
| Text.StripCommutes | excel_to_json.py:20 | stripping the left and the right side can be done in either order |
| Text.Split | excel_to_json.py:33 | `split(sep)`: always at least one piece; `SplitJoin` and `SplitCount` state the rest |
| Text.SplitJoin | excel_to_json.py:33 | `split(sep)` loses nothing: joining the pieces with the separator gives the text back |
| Text.SplitCount | excel_to_json.py:32-34 | the separator occurs in the text exactly when `split` yields more than one piece, and otherwise the one piece is the text |
| Text.SplitAround | excel_to_json.py:33-34 | splitting `x + "-" + y` on '-', when neither part has a '-', gives exactly the two parts |
| Text.SplitAtFirst | excel_to_json.py:58-64 | splitting on a character cuts the text at its first occurrence: the part before it is the first piece, and the pieces of the rest follow |
| Text.FirstLineSplit | excel_to_json_v2.py:66-69 | every text is its first line, which has no line break, followed by nothing or by a line break and the rest |
| Text.FirstLineOfStripped | excel_to_json_v2.py:61-69 | when the first line is not blank, stripping the whole cell first does not change the stripped first line |
| Text.Words | excel_to_json_v2.py:90 | `split()` with no argument: the white-space-separated words; `WordsAreWords`, `FirstWord` and `WordsOfJoin` state what they are |
| Text.WordsAreWords | excel_to_json_v2.py:90 | `split()` yields non-empty words without white space |
| Text.FirstWord | excel_to_json_v2.py:90 | a text with a non-space character splits into a first non-empty word without white space, then the words of a shorter rest |
| Text.WordsOfJoin | excel_to_json_v2.py:119 | joining non-empty words with single spaces and splitting again gives the same words |
| Text.Capitalize | excel_to_json_v2.py:107 | `capitalize()`: first letter upper case, the rest lower case; `CapitalizeCaseOnly` states that only case changes |
| Text.CapitalizeCaseOnly | excel_to_json_v2.py:115 | `capitalize` keeps the length and changes only letter case |
| Numbers.ParseInt | excel_to_json.py:43-44 | `int(text)`, `None` where Python raises `ValueError`; `ParseIntRoundTrip` and `FloatAcceptsIntText` state what it accepts |
| Numbers.ParseFloatTruncated | excel_to_json_v2.py:49 | `int(float(text))` for plain decimal notation, `None` where Python raises; `FloatAcceptsIntText` and `DecimalTextValue` state what it accepts |
| Numbers.TruncatedMantissa | excel_to_json_v2.py:49 | the unsigned part of `float(text)` truncated toward zero: digits with at most one '.' and at least one digit |
| Numbers.IntToString | process_schedule.py:17 | `str(n)` for integers; `IntToStringShape`, `ParseIntRoundTrip` and `IntToStringInjective` state what it gives |
| Numbers.FloatAcceptsIntText | excel_to_json_v2.py:49 | every text `int()` accepts, `int(float())` accepts with the same value |
| Numbers.IntToStringShape | process_schedule.py:17 | `str(n)` is non-empty, starts with no white space, ends in a digit, has no '.', and for n >= 0 is all digits |
| Numbers.ParseIntRoundTrip | process_schedule.py:22 | `int(str(n)) == n` |
| Numbers.IntToStringInjective | process_schedule.py:22 | distinct numbers have distinct decimal forms |
| Numbers.DecimalTextValue | excel_to_json_v2.py:49 | `int(float("n.0"))` is n |
| ScheduleModel.LookupDay | excel_to_json.py:12-21 | the day dictionary's `get`: a day that is found lies in 0..4 |
| ScheduleModel.LookupDayLabels | excel_to_json.py:12-21 | the day dictionary knows exactly the five labels "Thứ 2".."Thứ 6" and maps each to its position 0..4 |
| ScheduleModel.Range | excel_to_json.py:38 | `range(lo, hi)` has hi - lo elements, none when hi <= lo |
| ScheduleModel.DayEntries | excel_to_json.py:114-119 | one entry per period, in order, each with the room and the day |
| ScheduleModel.DayEntriesLoop | excel_to_json.py:114-119 | the append loop over the periods builds exactly `DayEntries` |
| ScheduleModel.ColumnPairs | excel_to_json.py:103-122 | the loop visits the cells after the first column in pairs (0,1), (2,3), …; pair i is cells 2i and 2i+1, and at most one last cell is left over |
| ScheduleModel.ColumnPairsStep | excel_to_json.py:104-122 | the pairs from column `col` on are the pair at `col`, then the pairs from `col + 2` on |
| ScheduleModel.TrailingColumnIgnored | excel_to_json.py:104 | a last column without a partner adds nothing to a row's schedule |
| ScheduleModel.AppendPair | excel_to_json.py:104-122 | a (day, period) pair appended to a row appends its entries at the end of the schedule |
| ScheduleModel.ScheduleStep | excel_to_json.py:104-122 | the entries from column `col` on are those of the pair at `col`, then those from `col + 2` on |
| ScheduleModel.ScheduleLoopStep | excel_to_json.py:104-122 | appending the entries of the pair at `col` keeps "entries so far, then those from the current column on" equal to the row's schedule |
| ScheduleModel.ScheduleSource | excel_to_json.py:104-122 | every entry of a row's schedule comes from one of its column pairs |
| ConverterV2.ParseDayText | excel_to_json_v2.py:7-24 | a day that is found lies in 0..4 |
| ConverterV2.DayTextMeaning | excel_to_json_v2.py:9-24 | a cell names a day exactly when its stripped text is one of the five labels, and that day is the label's position; empty, blank, "nan" and other texts name none |
| ConverterV2.RangeOfBounds | excel_to_json_v2.py:41-43 | `range(a - 1, b)` is a run of consecutive periods |
| ConverterV2.RangePeriods | excel_to_json_v2.py:37-45 | a text with '-' gives a run of consecutive periods, or none |
| ConverterV2.SinglePeriod | excel_to_json_v2.py:47-51 | a text without '-' gives at most one period |
| ConverterV2.TextPeriods | excel_to_json_v2.py:37-51 | a stripped cell gives consecutive periods, and more than one only when it has a '-' |
| ConverterV2.ParsePeriodText | excel_to_json_v2.py:27-53 | a missing, blank or "nan" cell gives no periods; the periods are always consecutive; more than one period needs a '-' |
| ConverterV2.PeriodTextOfTrimmed | excel_to_json_v2.py:32-51 | a stripped cell that is neither empty nor "nan" is read as a range when it has a '-' and as a single number otherwise |
| ConverterV2.RangeOfTwoNumbers | excel_to_json_v2.py:38-43 | "a-b" with two integer parts gives `range(a - 1, b)` |
| ConverterV2.SplitOneDash | excel_to_json_v2.py:38-39 | "a-b" with no '-' in either part splits into exactly the two parts |
| ConverterV2.PeriodRange | excel_to_json_v2.py:37-43 | "a-b" gives b-a+1 consecutive periods starting at a-1, or none when b < a |
| ConverterV2.LeadingDashRejected | excel_to_json_v2.py:38-45 | a leading '-' leaves an empty first part, so no periods |
| ConverterV2.SplitPieces | excel_to_json_v2.py:38-39 | every further '-' adds at least one piece to the split |
| ConverterV2.SplitTwoDashes | excel_to_json_v2.py:38-39 | a text with two '-' splits into at least three parts |
| ConverterV2.ExtraDashRejected | excel_to_json_v2.py:38-53 | a text with two '-' has more than two parts and gives no periods |
| ConverterV2.SingleNumberPeriod | excel_to_json_v2.py:47-49 | the single number n gives exactly [n-1] |
| ConverterV2.DecimalSinglePeriod | excel_to_json_v2.py:49 | the decimal "n.0" also gives exactly [n-1] |
| ConverterV2.TrimmedSinglePeriod | excel_to_json_v2.py:32-49 | a trimmed cell without '-' that `int(float())` reads as n gives exactly [n-1] |
| ConverterV2.CapitalizeIfUpper | excel_to_json_v2.py:106-107 | the result differs from the word only in letter case |
| ConverterV2.FormatWord | excel_to_json_v2.py:97-117 | a later word changes only in letter case. It changes only in two cases: it has a single "-LN" whose part before it is upper case and longer than one character, or it has no "-LN" and is itself upper case and longer than one character |
| ConverterV2.FormatWordAroundMarker | excel_to_json_v2.py:99-109 | in a word with a single "-LN", only the part before the marker is formatted; the marker and the rest are kept |
| ConverterV2.FormatParts | excel_to_json_v2.py:93-117 | the loop keeps the number of words and the first word, and formats every later word with `FormatWord` |
| ConverterV2.NameFromLine | excel_to_json_v2.py:81-124 | an empty line gives no name; any other line gives a name starting with "GDTC " |
| ConverterV2.NameOf | excel_to_json_v2.py:56-124 | there is no name exactly for a missing, blank or "nan" cell; every name starts with "GDTC " |
| ConverterV2.FormatClassName | excel_to_json_v2.py:86-124 | the prefix removal, word formatting and re-prefixing give `NameFromLine` of the line |
| ConverterV2.ParseClassName | excel_to_json_v2.py:56-124 | the method returns `NameOf` the cell |
| ConverterV2.NonBlankKeepsHead | excel_to_json_v2.py:61-62 | a text starting with a non-space character does not strip to nothing |
| ConverterV2.FirstLineNotBlank | excel_to_json_v2.py:66-69 | the first line of a stripped, non-empty cell is not blank |
| ConverterV2.NameOfNonBlank | excel_to_json_v2.py:61-69 | a cell that strips to neither "" nor "nan" is named after its stripped first line |
| ConverterV2.NonBlankLine | excel_to_json_v2.py:61-69 | a cell whose stripped first line is neither "" nor "nan" does not strip to either |
| ConverterV2.FirstLineAfterBreak | excel_to_json_v2.py:66-69 | for a line, a break and more text, the stripped first line is the stripped line |
| ConverterV2.SingleLineStripped | excel_to_json_v2.py:66-69 | a cell of one line is its own first line once stripped |
| ConverterV2.NameUsesFirstLineOnly | excel_to_json_v2.py:65-69 | only the first line counts: what follows the first line break does not change the name |
| ConverterV2.BlankLines | excel_to_json_v2.py:62 | "" and "nan" are their own stripped first lines |
| ConverterV2.TrimmedLineName | excel_to_json_v2.py:61-69 | a trimmed one-line cell is named after itself whole |
| ConverterV2.NameNotDoubled | excel_to_json_v2.py:86-87 | one leading "GDTC " in the cell is dropped, so the name equals that of the cell without it |
| ConverterV2.PrefixedLineName | excel_to_json_v2.py:86-87 | a line "GDTC " + x, where x does not itself start with "GDTC ", is named as x is |
| ConverterV2.FormatNameWords | excel_to_json_v2.py:90-121 | a name of two or more words keeps its word count and first word, and every later word is `FormatWord` of the original, equal to it up to case |
| ConverterV2.FormattedPartsAreWords | excel_to_json_v2.py:90-119 | formatted words stay non-empty and free of white space |
| ConverterV2.PairEntries | excel_to_json_v2.py:157-167 | every entry of a column pair is in "Sân trường" on a day in 0..4 |
| ConverterV2.RowScheduleInYard | excel_to_json_v2.py:150-170 | every entry of a row is in "Sân trường" on a day in 0..4 |
| ConverterV2.Convert | excel_to_json_v2.py:137-178 | a sheet gives at most one class per row |
| ConverterV2.ConvertStep | excel_to_json_v2.py:140-178 | the classes of the first index+1 rows are those of the first index rows, then those of row index |
| ConverterV2.ConvertClasses | excel_to_json_v2.py:172-178 | every class has a "GDTC " name, an empty `originalClassId` and a non-empty schedule in "Sân trường" on weekdays |
| ConverterV2.CollectPair | excel_to_json_v2.py:153-167 | the loop body gives the entries of its column pair |
| ConverterV2.CollectSchedule | excel_to_json_v2.py:148-170 | the `while col_index` loop builds exactly the row's schedule |
| ConverterV2.ExcelToJson | excel_to_json_v2.py:137-178 | the row loop builds exactly `Convert` of the sheet |
| ConverterV1.ParseDayText | excel_to_json.py:7-21 | a day that is found lies in 0..4 |
| ConverterV1.DayTextMeaning | excel_to_json.py:7-21 | a cell names a day exactly when its stripped text is one of the five labels, and that day is the label's position |
| ConverterV1.IntPeriod | excel_to_json.py:42-46 | a text without '-' gives one period exactly when `int()` accepts it |
| ConverterV1.ParsePeriodText | excel_to_json.py:24-48 | a missing or blank cell gives no periods; the periods are always consecutive; more than one period needs a '-' |
| ConverterV1.SingleNumberPeriod | excel_to_json.py:43-44 | the single number n gives exactly [n-1] |
| ConverterV1.DecimalPeriodRejected | excel_to_json.py:43-46 | the decimal "n.0" is no integer and gives no periods |
| ConverterV1.TailMatchesLStrip | excel_to_json.py:68 | `\s*[A-Z]\d+$` matches from a position exactly when the white space is the whole leading run and a room code follows |
| ConverterV1.TrailingDigits | excel_to_json.py:68 | the count is the longest run of digits at the end |
| ConverterV1.TrailingDigitsOf | excel_to_json.py:68 | a digit run that cannot grow to the left is that longest run |
| ConverterV1.TailMatchPosition | excel_to_json.py:68 | a match of the tail puts the room code's letter right before the trailing digit run, after white space only |
| ConverterV1.LStripGap | excel_to_json.py:68 | what `\s*` consumes from a position on is white space only, and the rest is what `lstrip()` leaves |
| ConverterV1.CodeAtEnd | excel_to_json.py:68 | a room code that ends the text starts right before the longest trailing digit run |
| ConverterV1.TailMatchLeavesCode | excel_to_json.py:68-71 | where `\s*[A-Z]\d+$` matches right at the room code, `lstrip` of the tail is the code |
| ConverterV1.RoomCodeAtStart | excel_to_json.py:68 | a capital letter before the trailing digits makes a room code |
| ConverterV1.LStripBeforeCode | excel_to_json.py:68-71 | white space before a room code is dropped by `lstrip` and nothing more |
| ConverterV1.TailMatchFrom | excel_to_json.py:68 | the tail matches from any position followed by white space only up to the room code |
| ConverterV1.LazySplit | excel_to_json.py:68 | the lazy group `(.+?)`, when found, is at least one character long and not the whole text, and the tail of the pattern matches right after it |
| ConverterV1.LazySplitMinimal | excel_to_json.py:68 | the lazy group is the shortest: the tail matches at no earlier position, and at no position at all when the search fails |
| ConverterV1.FirstFrom | excel_to_json.py:68 | the leftmost-first search returns, when it finds one, a position in the searched range where the test holds |
| ConverterV1.FirstFromMinimal | excel_to_json.py:68 | the search returns the first such position, and finds none only when no position in the range qualifies |
| ConverterV1.RoomCodeStripped | excel_to_json.py:71 | a room code is its own `strip()` |
| ConverterV1.NameBeforeTail | excel_to_json.py:70 | the name group, stripped, is the stripped text before the room code |
| ConverterV1.RoomOfTail | excel_to_json.py:71 | the room group, stripped, is the room code |
| ConverterV1.LazySplitFound | excel_to_json.py:68-72 | where the lazy search stops, the text has a room code, and the groups are the text before it and the code |
| ConverterV1.LazySplitNotMissed | excel_to_json.py:68-69 | a text with a room code after a non-empty prefix always matches |
| ConverterV1.MatchCharacterised | excel_to_json.py:68-74 | the pattern matches exactly when a capital letter precedes the longest trailing digit run after a non-empty prefix; the room is letter and digits, and the name is the stripped prefix |
| ConverterV1.MatchNameAndRoom | excel_to_json.py:68-74 | `re.match(r'^(.+?)\s*([A-Z]\d+)$')` with both groups stripped; `MatchCharacterised` states when it matches and what the groups are |
| ConverterV1.ParseClassNameAndRoom | excel_to_json.py:51-76 | there is no name exactly for an empty cell, and there is never a room without a name |
| ConverterV1.TwoLineCell | excel_to_json.py:56-64 | any cell whose stripped text has a line break gives its first line, stripped, as the name and its second line, stripped, as the room; later lines are ignored |
| ConverterV1.OneLineCell | excel_to_json.py:65-74 | one line gives the stripped prefix and the room code when the pattern applies, else the whole stripped text and no room |
| ConverterV1.ClassCodeShape | excel_to_json.py:68 | an illustration: "10A1" is one trimmed line whose room code starts at position 2 |
| ConverterV1.ClassCodeReadAsRoom | excel_to_json.py:65-72 | a class code alone, "10A1", is read as class "10" in room "A1" |
| ConverterV1.PairEntries | excel_to_json.py:109-119 | a column pair gives entries only when there is a non-empty room, and each entry is in that room on a day in 0..4 |
| ConverterV1.RowScheduleInRoom | excel_to_json.py:100-122 | every entry of a row is in the row's room, a non-empty text, on a day in 0..4 |
| ConverterV1.Convert | excel_to_json.py:89-129 | a sheet gives at most one class per row |
| ConverterV1.ConvertStep | excel_to_json.py:92-129 | the classes of the first index+1 rows are those of the first index rows, then those of row index |
| ConverterV1.ConvertClasses | excel_to_json.py:125-129 | every class has a non-empty name and a non-empty schedule whose entries share one non-empty room and fall on weekdays |
| ConverterV1.CollectPair | excel_to_json.py:105-119 | the loop body gives the entries of its column pair |
| ConverterV1.CollectSchedule | excel_to_json.py:100-122 | the `while col_index` loop builds exactly the row's schedule |
| ConverterV1.RowClasses | excel_to_json.py:94-129 | a row gives its class, or none when its name or its schedule is empty |
| ConverterV1.ExcelToJson | excel_to_json.py:89-129 | the row loop builds exactly `Convert` of the sheet |
| ScheduleExport.DayText | process_schedule.py:8-17 | `convert_day_to_text`; `DayTextLabels`, `OtherDayText` and `DayTextInjective` state what it shows |
| ScheduleExport.DayTextLabels | process_schedule.py:8-17 | days 0..4 are shown as the labels "Thứ 2".."Thứ 6", and no other day is shown as one of them |
| ScheduleExport.OtherDayText | process_schedule.py:17 | any other day d is shown as "Ngày " and the decimal form of d |
| ScheduleExport.DayTextInjective | process_schedule.py:8-17 | distinct days are shown by distinct texts |
| ScheduleExport.PeriodText | process_schedule.py:20-22 | `convert_period_to_text`; `PeriodTextNumber` and `PeriodTextInjective` state what it shows |
| ScheduleExport.PeriodTextNumber | process_schedule.py:20-22 | the text of period p is "Tiết " followed by a number that `int()` reads as p+1 |
| ScheduleExport.PeriodTextInjective | process_schedule.py:20-22 | distinct periods are shown by distinct texts |
| ScheduleExport.Insert | process_schedule.py:47 | inserting adds one element, and the new head is the inserted element or the old head |
| ScheduleExport.InsertPermutes | process_schedule.py:47 | inserting adds exactly the one element |
| ScheduleExport.InsertSorted | process_schedule.py:47 | inserting into a sorted list keeps it sorted |
| ScheduleExport.InsertStrict | process_schedule.py:46 | inserting a new element into a strictly ascending list keeps it strictly ascending |
| ScheduleExport.SortInts | process_schedule.py:47 | `sorted` keeps the length |
| ScheduleExport.SortIntsSorts | process_schedule.py:47 | `sorted` returns an ascending permutation of its input |
| ScheduleExport.SortIntsMembers | process_schedule.py:46 | sorting keeps exactly the same elements |
| ScheduleExport.SortIntsElements | process_schedule.py:46-48 | every element of the sorted list comes from the input |
| ScheduleExport.SortDistinct | process_schedule.py:46 | sorting distinct keys gives a strictly ascending list |
| ScheduleExport.AddPeriod | process_schedule.py:56-60 | a period one past the last joins the current group; any other starts a new one |
| ScheduleExport.Runs | process_schedule.py:51-62 | there are groups exactly when there are periods, and never more groups than periods |
| ScheduleExport.AddPeriodFlatten | process_schedule.py:56-60 | one step of the merge appends the period to the groups' concatenation |
| ScheduleExport.AddPeriodRuns | process_schedule.py:56-60 | one step keeps every group a run of consecutive periods and keeps adjacent groups apart |
| ScheduleExport.RunsFlatten | process_schedule.py:51-62 | concatenating the groups gives the periods back: nothing is lost or invented |
| ScheduleExport.RunsAreMaximalRuns | process_schedule.py:51-62 | every group is a run of consecutive integers, no group starts one past the end of the group before it, and the last group ends at the last period |
| ScheduleExport.RunsExample | process_schedule.py:51-62 | an illustration: periods [0,1,2,4,5] give the two groups [0,1,2] and [4,5] |
| ScheduleExport.GroupRuns | process_schedule.py:51-62 | the `current_group` loop builds exactly `Runs` of the periods |
| ScheduleExport.RunText | process_schedule.py:67-73 | the text of one merged group; `RunTextOfRun` states it from the group's first and last period |
| ScheduleExport.RunTextOfRun | process_schedule.py:67-73 | a group shows as "Tiết a", or as "Tiết a - Tiết b" from its first and its last period |
| ScheduleExport.RunsNonEmpty | process_schedule.py:52-62 | no group is empty |
| ScheduleExport.PeriodsOn | process_schedule.py:35-40 | a day never has more periods than there are items |
| ScheduleExport.GroupStep | process_schedule.py:35-41 | one more item adds its day to the days if it is new, appends its period to that day's periods, and makes its room that day's room |
| ScheduleExport.DaysOf | process_schedule.py:32-40 | the keys of `day_groups` in insertion order; `DaysHavePeriods` and `DaysDistinct` state which they are |
| ScheduleExport.DaysHavePeriods | process_schedule.py:35-46 | a day is a key of `day_groups` exactly when it has periods |
| ScheduleExport.DaysDistinct | process_schedule.py:32-46 | the keys are distinct |
| ScheduleExport.DayGroupsStep | process_schedule.py:40 | the `day_groups` update keeps every day's list equal to its periods so far |
| ScheduleExport.RoomInfoStep | process_schedule.py:41 | the `room_info` update keeps every day's room equal to that of its last item so far |
| ScheduleExport.GroupedStep | process_schedule.py:35-41 | one loop step keeps the keys, period lists and rooms equal to those of the items so far |
| ScheduleExport.GroupByDay | process_schedule.py:32-41 | the loop gives every day of the schedule, and only those, its periods in input order and the room of its last item |
| ScheduleExport.GroupSlots | process_schedule.py:65-79 | one item per group, in order, each with the day's text, the group's text and the day's room |
| ScheduleExport.DaySlots | process_schedule.py:47-79 | one day's items: its periods sorted, merged into runs and rendered; `DaySlotsLength` and `DayRunsCoverPeriods` state what they are |
| ScheduleExport.DayItems | process_schedule.py:47-79 | one day's sorting, merging and rendering give the items `DaySlots` describes |
| ScheduleExport.ProcessSchedule | process_schedule.py:25-81 | `process_schedule` returns the items of the days in ascending order, each day's merged groups in turn |
| ScheduleExport.SlotsOfDays | process_schedule.py:46-79 | the items of a list of days, one day's block after another; `SlotsOfDaysLast`, `SlotDayAt` and `SlotsOfDaysLength` state what they are |
| ScheduleExport.Processed | process_schedule.py:25-81 | the return value of `process_schedule`; `ProcessedDayAt`, `DaysContiguous`, `DaysAscending` and `ProcessedLength` state what it is |
| ScheduleExport.SlotsOfDaysStep | process_schedule.py:46-79 | visiting one more day appends that day's block of items |
| ScheduleExport.DaySlotsLength | process_schedule.py:47-79 | a day gives no more items than periods, and at least one when it has periods |
| ScheduleExport.DayBlockLength | process_schedule.py:35-79 | a day of the schedule gives between one item and as many items as it has periods |
| ScheduleExport.PeriodsOnItems | process_schedule.py:35-40 | a period is in a day's list exactly when some item has that day and that period |
| ScheduleExport.RoomOnLastItem | process_schedule.py:41-48 | the room of a day is that of an item on that day after which no item has that day |
| ScheduleExport.DayRunsCoverPeriods | process_schedule.py:47-62 | a day's groups, concatenated, are its periods sorted: same periods, ascending; every group is a maximal run |
| ScheduleExport.SlotDays | process_schedule.py:65-79 | there is one day per output item |
| ScheduleExport.SlotsOfDaysLast | process_schedule.py:46-79 | the output for a list of days is the output for all but the last, then the last day's block, whose items all carry that day's text and room |
| ScheduleExport.SlotDaysLast | process_schedule.py:65-79 | the days of the items for all but the last day come first, and every later item has the last day |
| ScheduleExport.SlotDayAt | process_schedule.py:65-79 | every item shows the text and the room of the day it belongs to, and that day was visited |
| ScheduleExport.SlotDaysSorted | process_schedule.py:46-79 | when days are visited in ascending order, the days of the items never go down |
| ScheduleExport.OutputDays | process_schedule.py:65-79 | there is one day per item of `process_schedule` |
| ScheduleExport.ProcessedDayAt | process_schedule.py:46-79 | every item belongs to a day of the input and shows that day's text and room; later items never have earlier days |
| ScheduleExport.SortedDaysAscending | process_schedule.py:46 | `sorted(day_groups.keys())` is strictly ascending and holds exactly the days of the input |
| ScheduleExport.DaysContiguous | process_schedule.py:46-79 | all items of a day are contiguous: an item between two of the same day has that day |
| ScheduleExport.DaysAscending | process_schedule.py:46-79 | items of different days appear in strictly ascending day order |
| ScheduleExport.PeriodCountAppend | process_schedule.py:35-40 | the periods of two lists of days add up |
| ScheduleExport.PeriodCountInsert | process_schedule.py:35-47 | inserting a day adds its periods |
| ScheduleExport.PeriodCountSorted | process_schedule.py:46-47 | sorting the days keeps the number of periods |
| ScheduleExport.PeriodCountStep | process_schedule.py:35-40 | one more item adds one period to the days it belongs to |
| ScheduleExport.DistinctTail | process_schedule.py:46 | after the first of distinct keys, the rest are distinct and do not contain it |
| ScheduleExport.PeriodCountLast | process_schedule.py:35-40 | the periods of a list of days are those of all but the last plus those of the last |
| ScheduleExport.PeriodCountAll | process_schedule.py:35-40 | the days' periods together are as many as the items |
| ScheduleExport.SlotsOfDaysLength | process_schedule.py:46-79 | there are no more items than periods, and at least one item when there is a day |
| ScheduleExport.SlotsOfLastDay | process_schedule.py:46-79 | the last day of the schedule adds at least one item and no more items than its periods |
| ScheduleExport.ProcessedLength | process_schedule.py:25-81 | the output is never longer than the input, and it is empty exactly when the input is |
| ScheduleExport.MaxOfIsMaximum | process_schedule.py:93-96 | no count exceeds the maximum, and some count equals it |
| ScheduleExport.CountsByAt | process_schedule.py:93-96 | the count at position k is that of class k |
| ScheduleExport.MaxSlotsIsMaximum | process_schedule.py:93-96 | no class has more merged items than `max_schedule_items`, and some class has exactly that many |
| ScheduleExport.MaxScheduleItems | process_schedule.py:89-96 | the first loop computes `MaxSlots` |
| ScheduleExport.ItemsColumns | process_schedule.py:102-106 | there are three column names per merged item |
| ScheduleExport.ScheduleCells | process_schedule.py:123-133 | there are three cells per merged item |
| ScheduleExport.ItemColumns | process_schedule.py:102-106 | the three column names of item i: unnumbered for the first item, numbered i+1 after it; `HeaderAt` places them |
| ScheduleExport.Header | process_schedule.py:99-108 | the DataFrame columns; `HeaderAt` states its layout |
| ScheduleExport.HeaderAt | process_schedule.py:99-108 | the header has 2 + 3·max names: "Tên lớp", the names of item i at positions 3i+1..3i+3, then "Sỉ số" |
| ScheduleExport.ItemsColumnsAt | process_schedule.py:102-106 | the names of item i sit at positions 3i..3i+2 |
| ScheduleExport.ScheduleCellsAt | process_schedule.py:123-133 | item i's cells sit at positions 3i..3i+2, or three empty cells once the items run out |
| ScheduleExport.TripleOfAppend | process_schedule.py:102-133 | appending a block of three cells keeps every earlier triple of cells and makes the block the next one |
| ScheduleExport.ClassRow | process_schedule.py:120-135 | one class's row; `ClassRowAt` and `EveryItemShown` state its layout |
| ScheduleExport.ClassRowAt | process_schedule.py:120-135 | a row is as long as the header: the name, at positions 3i+1..3i+3 item i or ('', '', ''), then the size |
| ScheduleExport.EveryItemShown | process_schedule.py:93-136 | no merged item is cut off: each one fits under the header and sits in its class's row |
| ScheduleExport.BuildHeader | process_schedule.py:99-108 | the column loop builds exactly `Header(max)` |
| ScheduleExport.BuildRow | process_schedule.py:120-135 | the cell loop builds exactly `ClassRow` |
| ScheduleExport.ProcessJsonFile | process_schedule.py:84-140 | the header is `Header` of the largest class, with one row per class, in order; each row is that class's `ClassRow` padded to that width |
| ConverterAgreement.NanIsNoPeriod | excel_to_json.py:41-46 | "nan" is neither an integer nor a range |
| ConverterAgreement.DayParsersAgree | excel_to_json.py:7-21 | both converters read every day cell alike; the second one's "nan" test changes nothing |
| ConverterAgreement.PeriodParsersAgree | excel_to_json.py:24-48 | whatever periods the first converter reads, the second reads the same |
| ConverterAgreement.DecimalPeriodDiffers | excel_to_json.py:43-46 | for "n.0" the first converter gives no period and the second gives [n-1] |
| ConverterAgreement.DayTextReadBack | process_schedule.py:8-17 | both converters read the text of days 0..4 back as that day, and the text of any other day as no day |
| ConverterAgreement.DayTextTrimmed | process_schedule.py:8-17 | a day's text is non-empty, has no white space at either end and is not "nan" |
| ConverterAgreement.DayTextLookup | excel_to_json_v2.py:9-24 | the day dictionary finds exactly days 0..4 in their texts, each as itself |
| ConverterAgreement.PeriodTextReadBack | process_schedule.py:20-22 | the number after "Tiết " in the text of period p is read back by both converters as period p |

## Left out

- File and spreadsheet I/O are not modelled. This covers `pd.read_excel`, `iterrows`, `json.load`/`json.dump`, building the DataFrame, `pd.ExcelWriter`, console messages and the per-file error handling. A sheet is a sequence of rows, and the JSON is a sequence of class values.
- `convert_all_excel_files` in both converters and `create_excel_from_json_files` are not modelled: they only iterate over files. The openpyxl column auto-sizing is left out because it is formatting only.
- `pd.isna` is modelled by `None` for an empty cell. The literal text "nan" is tested as the code tests it.
- Every cell is modelled by its text, or by `None` when it is empty. A non-zero numeric cell is its decimal text. A numeric zero cell (0 or 0.0) is falsy, so the code reads it as an empty cell (`not period_text` at excel_to_json_v2.py:29, `not class_text` at :58, `not day_text` at :9, and excel_to_json.py:26 and :52); the model has no separate numeric cell, so such a cell must be given as `None`. Given as the text "0", it would be read as that text, for example as period -1 by the second converter. `.strip()` on a non-text cell raises in the first converter, and that error is not modelled.
- `int()` is modelled for ASCII digits with an optional sign and surrounding white space. Underscores and non-ASCII digits are not modelled, and neither is the regular expression's `\d` beyond ASCII.
- `int(float())` is modelled for plain decimal notation only. Exponents, "inf" and "nan" as numbers, and rounding of very long numerals are not modelled.
- `upper`, `lower` and `capitalize` are modelled for ASCII letters only. Unicode case mapping is not modelled.
- The branch of `parse_class_name` at excel_to_json_v2.py:70-79 and the final return of `parse_class_name_and_room` at excel_to_json.py:76 are not modelled. `split('\n')` always yields at least one line, so neither can run.
- Items in `process_schedule.py` are modelled as entries with the three fields present. The `KeyError` that a missing `day`, `period`, `room`, `name` or `schedule` key would raise is not modelled. Days and periods are integers, as the converters write them.
- ScheduleExport.RoomOn: it answers "" for a day without items. `process_schedule` never asks for such a day; `GroupByDay` proves that `room_info` has exactly the days with items.
- ScheduleExport.StudentsCell: the class size is modelled as the length of the optional `students` list. It is written into the row as decimal text, where the DataFrame cell holds the integer.
- The whole-file round trip, spreadsheet to JSON and back, is not stated as one theorem. The export writes a merged group as "Tiết a - Tiết b", which neither converter reads as a period range. What is proved is that the exported day texts and single period numbers read back (`ConverterAgreement.DayTextReadBack`, `ConverterAgreement.PeriodTextReadBack`), and that the export keeps every period of every day (`ScheduleExport.DayRunsCoverPeriods`, `ScheduleExport.PeriodCountAll`).
