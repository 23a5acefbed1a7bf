/**
 * The export step: it reads the classes of a converted JSON schedule, merges
 * each class's periods on the same day into runs of consecutive periods
 * ("Tiết 1 - Tiết 3"), and lays the classes out as the rows of a table whose
 * width is set by the longest merged schedule.
 */
module ScheduleExport {
  import opened Wrappers
  import opened Text
  import opened Numbers
  import opened ScheduleModel

  /** One merged item of a class's schedule: the texts of its day, its periods and its room. */
  datatype Slot = Slot(day: string, period: string, room: string)

  // ----- convert_day_to_text and convert_period_to_text -----

  /** `convert_day_to_text`: the weekday label of days 0 to 4, "Ngày d" for any other day d. */
  function DayText(day: int): string
  {
    if day == 0 then "Thứ 2"
    else if day == 1 then "Thứ 3"
    else if day == 2 then "Thứ 4"
    else if day == 3 then "Thứ 5"
    else if day == 4 then "Thứ 6"
    else "Ngày " + IntToString(day)
  }

  /** Days 0 to 4 are shown by the labels the converters read, and no other day is shown as one of them. */
  lemma {:induction false} DayTextLabels(day: int)
    ensures 0 <= day < 5 ==> DayText(day) == DayLabels[day]
    ensures DayText(day) in DayLabels <==> 0 <= day < 5
  {
    if !(0 <= day < 5) {
      assert DayText(day)[0] == 'N';
      assert forall i :: 0 <= i < |DayLabels| ==> DayLabels[i][0] == 'T';
    }
  }

  /** The text of a day other than 0 to 4 is "Ngày " followed by the day's decimal form. */
  lemma {:induction false} OtherDayText(day: int)
    requires !(0 <= day < 5)
    ensures |DayText(day)| > 5 && DayText(day)[..5] == "Ngày "
    ensures DayText(day)[5..] == IntToString(day)
  {
    IntToStringShape(day);
  }

  /** Distinct days are shown by distinct texts. */
  lemma {:induction false} DayTextInjective(a: int, b: int)
    requires DayText(a) == DayText(b)
    ensures a == b
  {
    DayTextLabels(a);
    DayTextLabels(b);
    if !(0 <= a < 5) && !(0 <= b < 5) {
      OtherDayText(a);
      OtherDayText(b);
      IntToStringInjective(a, b);
    }
  }

  /** `convert_period_to_text`: "Tiết " and the 1-based number of a 0-based period. */
  function PeriodText(period: int): string
  {
    "Tiết " + IntToString(period + 1)
  }

  /** The number after "Tiết " reads back, with `int()`, as the 1-based period. */
  lemma {:induction false} PeriodTextNumber(period: int)
    ensures |PeriodText(period)| > 5 && PeriodText(period)[..5] == "Tiết "
    ensures ParseInt(PeriodText(period)[5..]) == Some(period + 1)
  {
    var digits := IntToString(period + 1);
    assert PeriodText(period)[..5] == "Tiết " && PeriodText(period)[5..] == digits;
    IntToStringShape(period + 1);
    ParseIntRoundTrip(period + 1);
  }

  /** Distinct periods are shown by distinct texts. */
  lemma {:induction false} PeriodTextInjective(a: int, b: int)
    requires PeriodText(a) == PeriodText(b)
    ensures a == b
  {
    PeriodTextNumber(a);
    PeriodTextNumber(b);
  }

  // ----- sorted() -----

  predicate Sorted(xs: seq<int>)
  {
    forall i, j :: 0 <= i < j < |xs| ==> xs[i] <= xs[j]
  }

  predicate StrictlySorted(xs: seq<int>)
  {
    forall i, j :: 0 <= i < j < |xs| ==> xs[i] < xs[j]
  }

  predicate Distinct(xs: seq<int>)
  {
    forall i, j :: 0 <= i < j < |xs| ==> xs[i] != xs[j]
  }

  /** `x` put in front of the first element of `xs` that is not smaller than it. */
  function Insert(x: int, xs: seq<int>): (r: seq<int>)
    ensures |r| == |xs| + 1
    ensures r[0] == x || (xs != [] && r[0] == xs[0])
    decreases |xs|
  {
    if xs == [] || x <= xs[0] then [x] + xs else [xs[0]] + Insert(x, xs[1..])
  }

  /** Inserting adds the one element and keeps all the others. */
  lemma {:induction false} InsertPermutes(x: int, xs: seq<int>)
    ensures multiset(Insert(x, xs)) == multiset(xs) + multiset{x}
    decreases |xs|
  {
    if xs != [] && x > xs[0] {
      InsertPermutes(x, xs[1..]);
      assert xs == [xs[0]] + xs[1..];
    }
  }

  /** Inserting into an ascending list gives an ascending list. */
  lemma {:induction false} InsertSorted(x: int, xs: seq<int>)
    requires Sorted(xs)
    ensures Sorted(Insert(x, xs))
    decreases |xs|
  {
    if xs != [] && x > xs[0] {
      var rest := Insert(x, xs[1..]);
      InsertSorted(x, xs[1..]);
      var r := [xs[0]] + rest;
      forall i, j | 0 <= i < j < |r|
        ensures r[i] <= r[j]
      {
        if i == 0 {
          assert xs[0] <= rest[0];
          assert rest[0] <= rest[j - 1] || j - 1 == 0;
        } else {
          assert r[i] == rest[i - 1] && r[j] == rest[j - 1];
        }
      }
    }
  }

  /** Inserting a new element into a strictly ascending list gives a strictly ascending list. */
  lemma {:induction false} InsertStrict(x: int, xs: seq<int>)
    requires StrictlySorted(xs) && x !in xs
    ensures StrictlySorted(Insert(x, xs))
    decreases |xs|
  {
    if xs != [] && x > xs[0] {
      var rest := Insert(x, xs[1..]);
      InsertStrict(x, xs[1..]);
      var r := [xs[0]] + rest;
      forall i, j | 0 <= i < j < |r|
        ensures r[i] < r[j]
      {
        if i == 0 {
          assert xs[0] < rest[0];
          assert rest[0] < rest[j - 1] || j - 1 == 0;
        } else {
          assert r[i] == rest[i - 1] && r[j] == rest[j - 1];
        }
      }
    }
  }

  /**
   * Python's `sorted()` on a list of integers. Any stable sort gives the same
   * list, the unique ascending arrangement of the elements; this one inserts
   * the elements one by one.
   */
  function SortInts(xs: seq<int>): (r: seq<int>)
    ensures |r| == |xs|
    decreases |xs|
  {
    if xs == [] then [] else Insert(xs[|xs| - 1], SortInts(xs[..|xs| - 1]))
  }

  /** Sorting arranges the same elements, as often as they occur, in ascending order. */
  lemma {:induction false} SortIntsSorts(xs: seq<int>)
    ensures multiset(SortInts(xs)) == multiset(xs)
    ensures Sorted(SortInts(xs))
    decreases |xs|
  {
    if xs != [] {
      var init := xs[..|xs| - 1];
      SortIntsSorts(init);
      InsertPermutes(xs[|xs| - 1], SortInts(init));
      InsertSorted(xs[|xs| - 1], SortInts(init));
      assert xs == init + [xs[|xs| - 1]];
    }
  }

  /** Sorting keeps exactly the elements of the list. */
  lemma {:induction false} SortIntsMembers(xs: seq<int>, x: int)
    ensures x in SortInts(xs) <==> x in xs
  {
    SortIntsSorts(xs);
    assert x in SortInts(xs) <==> x in multiset(SortInts(xs));
    assert x in xs <==> x in multiset(xs);
  }

  /** Every element of the sorted list is an element of the list. */
  lemma {:induction false} SortIntsElements(xs: seq<int>)
    ensures forall i :: 0 <= i < |SortInts(xs)| ==> SortInts(xs)[i] in xs
  {
    forall i | 0 <= i < |SortInts(xs)| ensures SortInts(xs)[i] in xs {
      SortIntsMembers(xs, SortInts(xs)[i]);
    }
  }

  /** A list without repeated elements sorts into a strictly ascending one. */
  lemma {:induction false} SortDistinct(xs: seq<int>)
    requires Distinct(xs)
    ensures StrictlySorted(SortInts(xs))
    decreases |xs|
  {
    if xs != [] {
      var init := xs[..|xs| - 1];
      var x := xs[|xs| - 1];
      assert Distinct(init) by {
        forall i, j | 0 <= i < j < |init| ensures init[i] != init[j] { assert init[i] == xs[i] && init[j] == xs[j]; }
      }
      SortDistinct(init);
      assert x !in init by {
        forall i | 0 <= i < |init| ensures init[i] != x { assert init[i] == xs[i]; }
      }
      SortIntsMembers(init, x);
      InsertStrict(x, SortInts(init));
    }
  }

  // ----- merging consecutive periods -----

  /** A run: a non-empty list of consecutive integers, each one more than the one before. */
  predicate IsRun(g: seq<int>)
  {
    g != [] && forall k :: 0 <= k < |g| ==> g[k] == g[0] + k
  }

  /** The lists of `groups` one after the other. */
  function Flatten(groups: seq<seq<int>>): seq<int>
    decreases |groups|
  {
    if groups == [] then [] else Flatten(groups[..|groups| - 1]) + groups[|groups| - 1]
  }

  /**
   * One step of the merging loop: period `p` after period `last` joins the
   * last group when it is one more than `last`, and starts a new group otherwise.
   */
  function AddPeriod(groups: seq<seq<int>>, last: int, p: int): (r: seq<seq<int>>)
    requires groups != []
    ensures |r| == if p == last + 1 then |groups| else |groups| + 1
  {
    var m := |groups| - 1;
    if p == last + 1 then groups[..m] + [groups[m] + [p]] else groups + [[p]]
  }

  /** The groups the merging loop cuts a list of periods into, one `AddPeriod` step per period after the first. */
  function Runs(periods: seq<int>): (groups: seq<seq<int>>)
    ensures periods == [] <==> groups == []
    ensures |groups| <= |periods|
    decreases |periods|
  {
    if periods == [] then []
    else if |periods| == 1 then [[periods[0]]]
    else
      var n := |periods| - 1;
      AddPeriod(Runs(periods[..n]), periods[n - 1], periods[n])
  }

  /** The last period of the last group. */
  function LastOf(groups: seq<seq<int>>): int
    requires groups != [] && groups[|groups| - 1] != []
  {
    var g := groups[|groups| - 1]; g[|g| - 1]
  }

  /** Every group is a run. */
  predicate AllRuns(groups: seq<seq<int>>)
  {
    forall i :: 0 <= i < |groups| ==> IsRun(groups[i])
  }

  /** No group starts with the period one more than the last period of the group before it. */
  predicate Maximal(groups: seq<seq<int>>)
    requires AllRuns(groups)
  {
    forall i :: 0 < i < |groups| ==> groups[i][0] != groups[i - 1][|groups[i - 1]| - 1] + 1
  }

  lemma {:induction false} AddPeriodFlatten(groups: seq<seq<int>>, last: int, p: int)
    requires groups != []
    ensures Flatten(AddPeriod(groups, last, p)) == Flatten(groups) + [p]
  {
    var m := |groups| - 1;
    var r := AddPeriod(groups, last, p);
    if p == last + 1 {
      assert r[..m] == groups[..m];
      assert Flatten(groups) == Flatten(groups[..m]) + groups[m];
    } else {
      assert r[..m + 1] == groups;
    }
  }

  lemma {:induction false} AddPeriodRuns(groups: seq<seq<int>>, last: int, p: int)
    requires groups != [] && AllRuns(groups) && LastOf(groups) == last
    ensures var r := AddPeriod(groups, last, p);
      AllRuns(r) && LastOf(r) == p && (Maximal(groups) ==> Maximal(r))
  {
    var m := |groups| - 1;
    var r := AddPeriod(groups, last, p);
    if p == last + 1 {
      var g := groups[m] + [p];
      assert IsRun(g);
      assert forall i :: 0 <= i < m ==> r[i] == groups[i];
      assert r[m][0] == groups[m][0];
    } else {
      assert forall i :: 0 <= i <= m ==> r[i] == groups[i];
    }
  }

  /** Cutting a list into groups loses and reorders nothing: the groups one after the other are the list. */
  lemma {:induction false} RunsFlatten(periods: seq<int>)
    ensures Flatten(Runs(periods)) == periods
    decreases |periods|
  {
    if |periods| == 1 {
      assert Flatten([[periods[0]]]) == Flatten([]) + [periods[0]];
    } else if |periods| > 1 {
      var n := |periods| - 1;
      RunsFlatten(periods[..n]);
      AddPeriodFlatten(Runs(periods[..n]), periods[n - 1], periods[n]);
      assert periods[..n] + [periods[n]] == periods;
    }
  }

  /**
   * Every group is a run of consecutive periods, the groups are maximal runs,
   * and the last group ends with the last period.
   */
  lemma {:induction false} RunsAreMaximalRuns(periods: seq<int>)
    requires periods != []
    ensures AllRuns(Runs(periods)) && Maximal(Runs(periods))
    ensures LastOf(Runs(periods)) == periods[|periods| - 1]
    decreases |periods|
  {
    if |periods| > 1 {
      var n := |periods| - 1;
      RunsAreMaximalRuns(periods[..n]);
      AddPeriodRuns(Runs(periods[..n]), periods[n - 1], periods[n]);
    }
  }

  /** An illustration of `RunsAreMaximalRuns`: the periods 0, 1, 2, 4, 5 merge into the runs 0 to 2 and 4 to 5. */
  lemma {:induction false} RunsExample()
    ensures Runs([0, 1, 2, 4, 5]) == [[0, 1, 2], [4, 5]]
  {
    var p := [0, 1, 2, 4, 5];
    assert Runs(p[..1]) == [[0]] by { assert p[..1] == [0]; }
    assert Runs(p[..2]) == [[0, 1]] by {
      assert p[..2][..1] == p[..1];
      var g := [[0]];
      assert g[0] + [1] == [0, 1];
      assert g[..0] + [g[0] + [1]] == [g[0] + [1]];
    }
    assert Runs(p[..3]) == [[0, 1, 2]] by {
      assert p[..3][..2] == p[..2];
      var g := [[0, 1]];
      assert g[0] + [2] == [0, 1, 2];
      assert g[..0] + [g[0] + [2]] == [g[0] + [2]];
    }
    assert Runs(p[..4]) == [[0, 1, 2], [4]] by { assert p[..4][..3] == p[..3]; }
    assert Runs(p[..5]) == [[0, 1, 2], [4, 5]] by {
      assert p[..5][..4] == p[..4];
      var g := [[0, 1, 2], [4]];
      assert g[1] + [5] == [4, 5];
      assert g[..1] == [[0, 1, 2]];
      assert g[..1] + [g[1] + [5]] == [[0, 1, 2], g[1] + [5]];
    }
    assert p[..5] == p;
  }

  /** The merging loop of `process_schedule` over one day's sorted periods. */
  method GroupRuns(periods: seq<int>) returns (groups: seq<seq<int>>)
    ensures groups == Runs(periods)
  {
    groups := [];
    if periods != [] {
      var current := [periods[0]];
      assert periods[..1] == [periods[0]];
      for i := 1 to |periods|
        invariant groups + [current] == Runs(periods[..i])
      {
        assert periods[..i + 1][..i] == periods[..i];
        if periods[i] == periods[i - 1] + 1 {
          assert (groups + [current])[..|groups|] == groups;
          current := current + [periods[i]];
        } else {
          groups := groups + [current];
          current := [periods[i]];
        }
      }
      groups := groups + [current];
      assert periods[..|periods|] == periods;
    }
  }

  /** The text of a group: "Tiết n" for a single period, "Tiết a - Tiết b" for its first and last otherwise. */
  function RunText(group: seq<int>): string
    requires group != []
  {
    if |group| == 1 then PeriodText(group[0])
    else PeriodText(group[0]) + " - " + PeriodText(group[|group| - 1])
  }

  /** The group's text for a run: its first period alone, or its first and last period, which is its first plus its length less one. */
  lemma {:induction false} RunTextOfRun(group: seq<int>)
    requires IsRun(group)
    ensures |group| == 1 ==> RunText(group) == PeriodText(group[0])
    ensures |group| > 1 ==> RunText(group) == PeriodText(group[0]) + " - " + PeriodText(group[0] + |group| - 1)
  {
  }

  /** No group of `Runs` is empty. */
  lemma {:induction false} RunsNonEmpty(periods: seq<int>)
    ensures forall k :: 0 <= k < |Runs(periods)| ==> Runs(periods)[k] != []
  {
    if periods != [] {
      RunsAreMaximalRuns(periods);
    }
  }

  // ----- process_schedule -----

  /** The periods of the items on `day`, in input order: the list `day_groups[day]`. */
  function PeriodsOn(schedule: seq<Entry>, day: int): (periods: seq<int>)
    ensures |periods| <= |schedule|
    decreases |schedule|
  {
    if schedule == [] then []
    else
      var item := schedule[|schedule| - 1];
      PeriodsOn(schedule[..|schedule| - 1], day) + (if item.day == day then [item.period] else [])
  }

  /** The days of the items, each once, in order of first appearance: the keys of `day_groups`. */
  function DaysOf(schedule: seq<Entry>): (days: seq<int>)
    decreases |schedule|
  {
    if schedule == [] then []
    else
      var days := DaysOf(schedule[..|schedule| - 1]);
      var day := schedule[|schedule| - 1].day;
      if day in days then days else days + [day]
  }

  /**
   * The room of the last item on `day`: `room_info[day]`, which each item on
   * the day overwrites. It is empty for a day without items, which the
   * export never asks for.
   */
  function RoomOn(schedule: seq<Entry>, day: int): string
    decreases |schedule|
  {
    if schedule == [] then ""
    else
      var item := schedule[|schedule| - 1];
      if item.day == day then item.room else RoomOn(schedule[..|schedule| - 1], day)
  }

  /** What one more item changes in the dictionaries: its day's periods and room, and the list of days if the day is new. */
  lemma {:induction false} GroupStep(schedule: seq<Entry>, i: nat)
    requires i < |schedule|
    ensures var item := schedule[i];
      DaysOf(schedule[..i + 1]) == if item.day in DaysOf(schedule[..i]) then DaysOf(schedule[..i]) else DaysOf(schedule[..i]) + [item.day]
    ensures var item := schedule[i];
      forall d :: PeriodsOn(schedule[..i + 1], d) == PeriodsOn(schedule[..i], d) + (if d == item.day then [item.period] else [])
    ensures var item := schedule[i];
      forall d :: RoomOn(schedule[..i + 1], d) == if d == item.day then item.room else RoomOn(schedule[..i], d)
  {
    var s := schedule[..i + 1];
    assert s[..i] == schedule[..i];
    forall d
      ensures RoomOn(s, d) == if d == schedule[i].day then schedule[i].room else RoomOn(schedule[..i], d)
    {
    }
  }

  /** A day is a key of the dictionaries exactly when some item is on it, that is when it has periods. */
  lemma {:induction false} DaysHavePeriods(schedule: seq<Entry>, day: int)
    ensures day in DaysOf(schedule) <==> PeriodsOn(schedule, day) != []
    decreases |schedule|
  {
    if schedule != [] {
      DaysHavePeriods(schedule[..|schedule| - 1], day);
    }
  }

  /** Every day is listed once. */
  lemma {:induction false} DaysDistinct(schedule: seq<Entry>)
    ensures Distinct(DaysOf(schedule))
    decreases |schedule|
  {
    if schedule != [] {
      var days := DaysOf(schedule[..|schedule| - 1]);
      DaysDistinct(schedule[..|schedule| - 1]);
      var day := schedule[|schedule| - 1].day;
      if day !in days {
        var r := days + [day];
        forall i, j | 0 <= i < j < |r| ensures r[i] != r[j] {
          if j == |days| { assert r[i] == days[i]; }
        }
      }
    }
  }

  /** The dictionaries after the first `i` items: `days` lists their keys in the order they were added. */
  ghost predicate GroupedUpTo(schedule: seq<Entry>, i: nat, days: seq<int>, dayGroups: map<int, seq<int>>, roomInfo: map<int, string>)
    requires i <= |schedule|
  {
    && days == DaysOf(schedule[..i])
    && (forall d :: d in dayGroups <==> d in days)
    && (forall d :: d in roomInfo <==> d in days)
    && (forall d :: d in dayGroups ==> dayGroups[d] == PeriodsOn(schedule[..i], d))
    && (forall d :: d in roomInfo ==> roomInfo[d] == RoomOn(schedule[..i], d))
  }

  /** One turn of the first loop keeps `day_groups` in step with the items read. */
  lemma {:induction false} DayGroupsStep(schedule: seq<Entry>, i: nat, days: seq<int>, dayGroups: map<int, seq<int>>, after: map<int, seq<int>>)
    requires i < |schedule| && days == DaysOf(schedule[..i])
    requires forall d :: d in dayGroups <==> d in days
    requires forall d :: d in dayGroups ==> dayGroups[d] == PeriodsOn(schedule[..i], d)
    requires var item := schedule[i];
      var current := if item.day in dayGroups then dayGroups[item.day] else [];
      after == dayGroups[item.day := current + [item.period]]
    ensures forall d :: d in after ==> after[d] == PeriodsOn(schedule[..i + 1], d)
  {
    var item := schedule[i];
    GroupStep(schedule, i);
    DaysHavePeriods(schedule[..i], item.day);
  }

  /** One turn of the first loop keeps `room_info` in step with the items read. */
  lemma {:induction false} RoomInfoStep(schedule: seq<Entry>, i: nat, roomInfo: map<int, string>, after: map<int, string>)
    requires i < |schedule|
    requires forall d :: d in roomInfo ==> roomInfo[d] == RoomOn(schedule[..i], d)
    requires after == roomInfo[schedule[i].day := schedule[i].room]
    ensures forall d :: d in after ==> after[d] == RoomOn(schedule[..i + 1], d)
  {
    GroupStep(schedule, i);
  }

  /** One turn of the first loop keeps the dictionaries in step with the items read. */
  lemma {:induction false} GroupedStep(schedule: seq<Entry>, i: nat, days: seq<int>, dayGroups: map<int, seq<int>>, roomInfo: map<int, string>)
    requires i < |schedule| && GroupedUpTo(schedule, i, days, dayGroups, roomInfo)
    ensures var item := schedule[i];
      var current := if item.day in dayGroups then dayGroups[item.day] else [];
      GroupedUpTo(schedule, i + 1,
        if item.day in days then days else days + [item.day],
        dayGroups[item.day := current + [item.period]],
        roomInfo[item.day := item.room])
  {
    var item := schedule[i];
    var current := if item.day in dayGroups then dayGroups[item.day] else [];
    DayGroupsStep(schedule, i, days, dayGroups, dayGroups[item.day := current + [item.period]]);
    RoomInfoStep(schedule, i, roomInfo, roomInfo[item.day := item.room]);
    assert DaysOf(schedule[..i + 1]) == if schedule[i].day in days then days else days + [schedule[i].day] by {
      GroupStep(schedule, i);
    }
  }

  /**
   * The first loop of `process_schedule`: it appends each item's period to
   * the list of its day and records the item's room as the room of its day.
   * `days` lists the keys of `day_groups` in the order they were added.
   */
  method GroupByDay(schedule: seq<Entry>) returns (days: seq<int>, dayGroups: map<int, seq<int>>, roomInfo: map<int, string>)
    ensures days == DaysOf(schedule)
    ensures forall d :: d in dayGroups <==> d in days
    ensures forall d :: d in roomInfo <==> d in days
    ensures forall d :: d in dayGroups ==> dayGroups[d] == PeriodsOn(schedule, d)
    ensures forall d :: d in roomInfo ==> roomInfo[d] == RoomOn(schedule, d)
  {
    days, dayGroups, roomInfo := [], map[], map[];
    for i := 0 to |schedule|
      invariant GroupedUpTo(schedule, i, days, dayGroups, roomInfo)
    {
      var item := schedule[i];
      GroupedStep(schedule, i, days, dayGroups, roomInfo);
      var current := if item.day in dayGroups then dayGroups[item.day] else [];
      dayGroups := dayGroups[item.day := current + [item.period]];
      roomInfo := roomInfo[item.day := item.room];
      if item.day !in days {
        days := days + [item.day];
      }
    }
    assert schedule[..|schedule|] == schedule;
  }

  /** The merged items of a list of groups, in order, each with the given day text and room. */
  function GroupSlots(dayText: string, groups: seq<seq<int>>, room: string): (slots: seq<Slot>)
    requires forall k :: 0 <= k < |groups| ==> groups[k] != []
    ensures |slots| == |groups|
    ensures forall k :: 0 <= k < |groups| ==> slots[k] == Slot(dayText, RunText(groups[k]), room)
    decreases |groups|
  {
    if groups == [] then []
    else GroupSlots(dayText, groups[..|groups| - 1], room) + [Slot(dayText, RunText(groups[|groups| - 1]), room)]
  }

  /** The merged items of one day: one per run of its sorted periods, with the day's text and its room. */
  function DaySlots(day: int, periods: seq<int>, room: string): seq<Slot>
  {
    var groups := Runs(SortInts(periods));
    RunsNonEmpty(SortInts(periods));
    GroupSlots(DayText(day), groups, room)
  }

  /** A day gives at most one merged item per period, and at least one when it has a period. */
  lemma {:induction false} DaySlotsLength(day: int, periods: seq<int>, room: string)
    ensures |DaySlots(day, periods, room)| <= |periods|
    ensures periods != [] ==> DaySlots(day, periods, room) != []
  {
    var sorted := SortInts(periods);
    assert |Runs(sorted)| <= |sorted| && (sorted != [] ==> Runs(sorted) != []);
  }

  /** The merged items of the given days one after the other, each day with its own periods and room. */
  function SlotsOfDays(schedule: seq<Entry>, days: seq<int>): seq<Slot>
    decreases |days|
  {
    if days == [] then []
    else
      var day := days[|days| - 1];
      SlotsOfDays(schedule, days[..|days| - 1]) + DaySlots(day, PeriodsOn(schedule, day), RoomOn(schedule, day))
  }

  /** Visiting one more day appends that day's merged items. */
  lemma {:induction false} SlotsOfDaysStep(schedule: seq<Entry>, days: seq<int>, k: nat)
    requires k < |days|
    ensures var day := days[k];
      SlotsOfDays(schedule, days[..k + 1]) == SlotsOfDays(schedule, days[..k]) + DaySlots(day, PeriodsOn(schedule, day), RoomOn(schedule, day))
  {
    assert days[..k + 1][..k] == days[..k];
  }

  /** The days in ascending order, as `sorted(day_groups.keys())` visits them. */
  function SortedDays(schedule: seq<Entry>): seq<int>
  {
    SortInts(DaysOf(schedule))
  }

  /** `process_schedule`'s result: the merged items of each day, the days in ascending order. */
  function Processed(schedule: seq<Entry>): seq<Slot>
  {
    SlotsOfDays(schedule, SortedDays(schedule))
  }

  /** The body of the day loop of `process_schedule`: sort the day's periods, merge them, and emit one item per group. */
  method DayItems(day: int, periods: seq<int>, room: string) returns (slots: seq<Slot>)
    ensures slots == DaySlots(day, periods, room)
  {
    var sortedPeriods := SortInts(periods);
    var groups := GroupRuns(sortedPeriods);
    RunsNonEmpty(sortedPeriods);
    var dayText := DayText(day);
    slots := [];
    for k := 0 to |groups|
      invariant slots == GroupSlots(dayText, groups[..k], room)
    {
      assert groups[..k + 1][..k] == groups[..k];
      slots := slots + [Slot(dayText, RunText(groups[k]), room)];
    }
    assert groups[..|groups|] == groups;
  }

  /**
   * `process_schedule`: group the items by day, then for each day in
   * ascending order emit one item per run of its sorted periods, in the room
   * of the day's last item.
   */
  method ProcessSchedule(schedule: seq<Entry>) returns (processed: seq<Slot>)
    ensures processed == Processed(schedule)
  {
    var days, dayGroups, roomInfo := GroupByDay(schedule);
    var sortedDays := SortInts(days);
    assert sortedDays == SortedDays(schedule);
    SortIntsElements(days);
    processed := [];
    for k := 0 to |sortedDays|
      invariant processed == SlotsOfDays(schedule, sortedDays[..k])
    {
      var day := sortedDays[k];
      assert day in days;
      var items := DayItems(day, dayGroups[day], roomInfo[day]);
      SlotsOfDaysStep(schedule, sortedDays, k);
      processed := processed + items;
    }
    assert sortedDays[..|sortedDays|] == sortedDays;
  }

  // ----- what process_schedule promises -----

  /** The periods of a day are the periods of exactly the items on that day. */
  lemma {:induction false} PeriodsOnItems(schedule: seq<Entry>, day: int, p: int)
    ensures p in PeriodsOn(schedule, day) <==> exists i :: 0 <= i < |schedule| && schedule[i].day == day && schedule[i].period == p
    decreases |schedule|
  {
    if schedule != [] {
      var n := |schedule| - 1;
      PeriodsOnItems(schedule[..n], day, p);
      if exists i :: 0 <= i < n && schedule[..n][i].day == day && schedule[..n][i].period == p {
        var i :| 0 <= i < n && schedule[..n][i].day == day && schedule[..n][i].period == p;
        assert schedule[i] == schedule[..n][i];
      }
      if exists i :: 0 <= i < |schedule| && schedule[i].day == day && schedule[i].period == p {
        var i :| 0 <= i < |schedule| && schedule[i].day == day && schedule[i].period == p;
        if i < n {
          assert schedule[..n][i] == schedule[i];
        }
      }
    }
  }

  /** The room of a day is the room of the last item on that day. */
  lemma {:induction false} RoomOnLastItem(schedule: seq<Entry>, day: int)
    requires day in DaysOf(schedule)
    ensures exists i ::
      && 0 <= i < |schedule| && schedule[i].day == day && schedule[i].room == RoomOn(schedule, day)
      && (forall j :: i < j < |schedule| ==> schedule[j].day != day)
    decreases |schedule|
  {
    var n := |schedule| - 1;
    if schedule[n].day != day {
      RoomOnLastItem(schedule[..n], day);
      var i :| 0 <= i < n && schedule[..n][i].day == day && schedule[..n][i].room == RoomOn(schedule[..n], day)
        && (forall j :: i < j < n ==> schedule[..n][j].day != day);
      assert schedule[i] == schedule[..n][i];
      forall j | i < j < |schedule| ensures schedule[j].day != day {
        if j < n { assert schedule[j] == schedule[..n][j]; }
      }
    }
  }

  /**
   * The groups of a day, one after the other, are its periods sorted: no
   * period is lost or invented. Each group is a run and the runs are maximal.
   */
  lemma {:induction false} DayRunsCoverPeriods(periods: seq<int>)
    ensures var groups := Runs(SortInts(periods));
      && multiset(Flatten(groups)) == multiset(periods)
      && Sorted(Flatten(groups))
      && AllRuns(groups) && Maximal(groups)
  {
    SortIntsSorts(periods);
    RunsFlatten(SortInts(periods));
    if periods != [] {
      RunsAreMaximalRuns(SortInts(periods));
    }
  }

  /** `count` copies of `x`. */
  function Repeat(x: int, count: nat): (r: seq<int>)
    ensures |r| == count && forall k :: 0 <= k < count ==> r[k] == x
  {
    if count == 0 then [] else Repeat(x, count - 1) + [x]
  }

  /** The day of each merged item of `SlotsOfDays(schedule, days)`. */
  function SlotDays(schedule: seq<Entry>, days: seq<int>): (itemDays: seq<int>)
    ensures |itemDays| == |SlotsOfDays(schedule, days)|
    decreases |days|
  {
    if days == [] then []
    else
      var day := days[|days| - 1];
      var block := DaySlots(day, PeriodsOn(schedule, day), RoomOn(schedule, day));
      SlotDays(schedule, days[..|days| - 1]) + Repeat(day, |block|)
  }

  /** The merged items of the given days and their days: those of all but the last day, then the last day's. */
  lemma {:induction false} SlotsOfDaysLast(schedule: seq<Entry>, days: seq<int>)
    requires days != []
    ensures var n := |days| - 1; var day := days[n];
      var block := DaySlots(day, PeriodsOn(schedule, day), RoomOn(schedule, day));
      && SlotsOfDays(schedule, days) == SlotsOfDays(schedule, days[..n]) + block
      && SlotDays(schedule, days) == SlotDays(schedule, days[..n]) + Repeat(day, |block|)
      && (forall k :: 0 <= k < |block| ==> block[k].day == DayText(day) && block[k].room == RoomOn(schedule, day))
  {
  }

  /** Each merged item shows the text and the room of the day it belongs to. */
  lemma {:induction false} SlotDayAt(schedule: seq<Entry>, days: seq<int>, i: nat)
    requires i < |SlotsOfDays(schedule, days)|
    ensures var day := SlotDays(schedule, days)[i]; var slot := SlotsOfDays(schedule, days)[i];
      day in days && slot.day == DayText(day) && slot.room == RoomOn(schedule, day)
    decreases |days|
  {
    var n := |days| - 1;
    var before, all := SlotsOfDays(schedule, days[..n]), SlotsOfDays(schedule, days);
    var beforeDays, allDays := SlotDays(schedule, days[..n]), SlotDays(schedule, days);
    SlotsOfDaysLast(schedule, days);
    SlotDaysLast(schedule, days);
    if i < |before| {
      SlotDayAt(schedule, days[..n], i);
      assert all[i] == before[i] && allDays[i] == beforeDays[i];
      var k :| 0 <= k < n && days[..n][k] == beforeDays[i];
      assert days[k] == beforeDays[i];
    } else {
      var day := days[n];
      var block := DaySlots(day, PeriodsOn(schedule, day), RoomOn(schedule, day));
      assert all[i] == block[i - |before|] && allDays[i] == day;
    }
  }

  /** When the days are visited in ascending order, the days of the merged items never go down. */
  lemma {:induction false} SlotDaysSorted(schedule: seq<Entry>, days: seq<int>, i: nat, j: nat)
    requires Sorted(days) && i < j < |SlotsOfDays(schedule, days)|
    ensures SlotDays(schedule, days)[i] <= SlotDays(schedule, days)[j]
    decreases |days|
  {
    var n := |days| - 1;
    var prev := SlotDays(schedule, days[..n]);
    var all := SlotDays(schedule, days);
    SlotDaysLast(schedule, days);
    if j < |prev| {
      assert Sorted(days[..n]);
      SlotDaysSorted(schedule, days[..n], i, j);
      assert all[i] == prev[i] && all[j] == prev[j];
    } else if i < |prev| {
      SlotDayAt(schedule, days[..n], i);
      var k :| 0 <= k < n && days[..n][k] == prev[i];
      assert days[k] == prev[i] && all[i] == prev[i];
    }
  }

  /** The days of the merged items of some days: those of all but the last day, then the last day repeated. */
  lemma {:induction false} SlotDaysLast(schedule: seq<Entry>, days: seq<int>)
    requires days != []
    ensures var n := |days| - 1; var prev, all := SlotDays(schedule, days[..n]), SlotDays(schedule, days);
      && |prev| <= |all| && all[..|prev|] == prev
      && forall k :: |prev| <= k < |all| ==> all[k] == days[n]
  {
  }

  /** The days of the items of the output, in output order. */
  function OutputDays(schedule: seq<Entry>): (itemDays: seq<int>)
    ensures |itemDays| == |Processed(schedule)|
  {
    SlotDays(schedule, SortedDays(schedule))
  }

  /**
   * Each output item carries the text of its day and the room of that day's
   * last input item, and the days of the output items never go down.
   */
  lemma {:induction false} ProcessedDayAt(schedule: seq<Entry>, i: nat, j: nat)
    requires i <= j < |Processed(schedule)|
    ensures var day := OutputDays(schedule)[i]; var slot := Processed(schedule)[i];
      day in DaysOf(schedule) && slot.day == DayText(day) && slot.room == RoomOn(schedule, day)
    ensures OutputDays(schedule)[i] <= OutputDays(schedule)[j]
  {
    var days := SortedDays(schedule);
    SortIntsSorts(DaysOf(schedule));
    SortIntsMembers(DaysOf(schedule), OutputDays(schedule)[i]);
    SlotDayAt(schedule, days, i);
    if i < j {
      SlotDaysSorted(schedule, days, i, j);
    }
  }

  /** `process_schedule` visits each day once, in strictly ascending order. */
  lemma {:induction false} SortedDaysAscending(schedule: seq<Entry>)
    ensures StrictlySorted(SortedDays(schedule))
    ensures forall d :: d in SortedDays(schedule) <==> d in DaysOf(schedule)
  {
    DaysDistinct(schedule);
    SortDistinct(DaysOf(schedule));
    forall d ensures d in SortedDays(schedule) <==> d in DaysOf(schedule) {
      SortIntsMembers(DaysOf(schedule), d);
    }
  }

  /** The items of one day are contiguous in the output: between two items of a day there is no item of another day. */
  lemma {:induction false} DaysContiguous(schedule: seq<Entry>, i: nat, j: nat, k: nat)
    requires i < j < k < |Processed(schedule)|
    requires Processed(schedule)[i].day == Processed(schedule)[k].day
    ensures Processed(schedule)[j].day == Processed(schedule)[i].day
  {
    var slots := Processed(schedule);
    var itemDays := OutputDays(schedule);
    ProcessedDayAt(schedule, i, j);
    ProcessedDayAt(schedule, j, k);
    ProcessedDayAt(schedule, k, k);
    assert slots[i].day == DayText(itemDays[i]);
    assert slots[k].day == DayText(itemDays[k]);
    DayTextInjective(itemDays[i], itemDays[k]);
    assert itemDays[i] == itemDays[j];
    assert slots[j].day == DayText(itemDays[j]);
  }

  /** Of two items of different days, the earlier one is on the earlier day. */
  lemma {:induction false} DaysAscending(schedule: seq<Entry>, i: nat, j: nat)
    requires i < j < |Processed(schedule)|
    requires Processed(schedule)[i].day != Processed(schedule)[j].day
    ensures OutputDays(schedule)[i] < OutputDays(schedule)[j]
  {
    ProcessedDayAt(schedule, i, j);
    ProcessedDayAt(schedule, j, j);
  }

  /** The number of periods of the given days, counting each listed day. */
  function PeriodCount(schedule: seq<Entry>, days: seq<int>): nat
    decreases |days|
  {
    if days == [] then 0 else |PeriodsOn(schedule, days[0])| + PeriodCount(schedule, days[1..])
  }

  lemma {:induction false} PeriodCountAppend(schedule: seq<Entry>, xs: seq<int>, ys: seq<int>)
    ensures PeriodCount(schedule, xs + ys) == PeriodCount(schedule, xs) + PeriodCount(schedule, ys)
    decreases |xs|
  {
    if xs != [] {
      assert (xs + ys)[1..] == xs[1..] + ys;
      PeriodCountAppend(schedule, xs[1..], ys);
    } else {
      assert xs + ys == ys;
    }
  }

  lemma {:induction false} PeriodCountInsert(schedule: seq<Entry>, x: int, ys: seq<int>)
    ensures PeriodCount(schedule, Insert(x, ys)) == |PeriodsOn(schedule, x)| + PeriodCount(schedule, ys)
    decreases |ys|
  {
    if ys != [] && x > ys[0] {
      PeriodCountInsert(schedule, x, ys[1..]);
    }
  }

  /** Counting over the sorted days counts the same as over the days. */
  lemma {:induction false} PeriodCountSorted(schedule: seq<Entry>, days: seq<int>)
    ensures PeriodCount(schedule, SortInts(days)) == PeriodCount(schedule, days)
    decreases |days|
  {
    if days != [] {
      var n := |days| - 1;
      PeriodCountSorted(schedule, days[..n]);
      PeriodCountInsert(schedule, days[n], SortInts(days[..n]));
      PeriodCountAppend(schedule, days[..n], [days[n]]);
      assert days[..n] + [days[n]] == days;
    }
  }

  /** One more item adds one period to the count over distinct days when its day is among them. */
  lemma {:induction false} PeriodCountStep(schedule: seq<Entry>, i: nat, days: seq<int>)
    requires i < |schedule| && Distinct(days)
    ensures PeriodCount(schedule[..i + 1], days) == PeriodCount(schedule[..i], days) + (if schedule[i].day in days then 1 else 0)
    decreases |days|
  {
    if days != [] {
      GroupStep(schedule, i);
      DistinctTail(days);
      PeriodCountStep(schedule, i, days[1..]);
      assert days == [days[0]] + days[1..];
    }
  }

  /** Without its first element, a list of distinct days is still distinct and no longer holds that element. */
  lemma {:induction false} DistinctTail(days: seq<int>)
    requires days != [] && Distinct(days)
    ensures Distinct(days[1..]) && days[0] !in days[1..]
  {
    forall a, b | 0 <= a < b < |days[1..]| ensures days[1..][a] != days[1..][b] {
      assert days[1..][a] == days[a + 1] && days[1..][b] == days[b + 1];
    }
    forall a | 0 <= a < |days[1..]| ensures days[1..][a] != days[0] {
      assert days[1..][a] == days[a + 1];
    }
  }

  /** Over all the days of a schedule, the periods number as many as the items. */
  lemma {:induction false} PeriodCountAll(schedule: seq<Entry>)
    ensures PeriodCount(schedule, DaysOf(schedule)) == |schedule|
    decreases |schedule|
  {
    if schedule != [] {
      var n := |schedule| - 1;
      var day := schedule[n];
      PeriodCountAll(schedule[..n]);
      DaysDistinct(schedule[..n]);
      PeriodCountStep(schedule, n, DaysOf(schedule[..n]));
      GroupStep(schedule, n);
      assert schedule[..n + 1] == schedule;
      if schedule[n].day !in DaysOf(schedule[..n]) {
        DaysHavePeriods(schedule[..n], schedule[n].day);
        PeriodCountAppend(schedule, DaysOf(schedule[..n]), [schedule[n].day]);
      }
    }
  }

  /** Each day gives at most as many items as it has periods, and at least one. */
  lemma {:induction false} SlotsOfDaysLength(schedule: seq<Entry>, days: seq<int>)
    requires forall i :: 0 <= i < |days| ==> days[i] in DaysOf(schedule)
    ensures |SlotsOfDays(schedule, days)| <= PeriodCount(schedule, days)
    ensures days != [] ==> SlotsOfDays(schedule, days) != []
    decreases |days|
  {
    if days != [] {
      var prev := days[..|days| - 1];
      assert forall i :: 0 <= i < |prev| ==> prev[i] == days[i];
      SlotsOfDaysLength(schedule, prev);
      SlotsOfLastDay(schedule, days);
    }
  }

  /** The last of some days adds at least one merged item and at most as many as its periods. */
  lemma {:induction false} SlotsOfLastDay(schedule: seq<Entry>, days: seq<int>)
    requires days != [] && days[|days| - 1] in DaysOf(schedule)
    ensures var prev := days[..|days| - 1];
      && |SlotsOfDays(schedule, prev)| < |SlotsOfDays(schedule, days)|
      && |SlotsOfDays(schedule, days)| - |SlotsOfDays(schedule, prev)| <= PeriodCount(schedule, days) - PeriodCount(schedule, prev)
  {
    var n := |days| - 1;
    assert SlotsOfDays(schedule, days) == SlotsOfDays(schedule, days[..n]) + DaySlots(days[n], PeriodsOn(schedule, days[n]), RoomOn(schedule, days[n]));
    PeriodCountLast(schedule, days);
    DayBlockLength(schedule, days[n]);
  }

  /** The periods of some days number those of all but the last day plus those of the last. */
  lemma {:induction false} PeriodCountLast(schedule: seq<Entry>, days: seq<int>)
    requires days != []
    ensures var n := |days| - 1;
      PeriodCount(schedule, days) == PeriodCount(schedule, days[..n]) + |PeriodsOn(schedule, days[n])|
  {
    var n := |days| - 1;
    PeriodCountAppend(schedule, days[..n], [days[n]]);
    assert days[..n] + [days[n]] == days;
    assert PeriodCount(schedule, [days[n]]) == |PeriodsOn(schedule, days[n])|;
  }

  /** A day of the schedule gives at least one merged item and at most one per period. */
  lemma {:induction false} DayBlockLength(schedule: seq<Entry>, day: int)
    requires day in DaysOf(schedule)
    ensures var periods := PeriodsOn(schedule, day);
      1 <= |DaySlots(day, periods, RoomOn(schedule, day))| <= |periods|
  {
    DaysHavePeriods(schedule, day);
    DaySlotsLength(day, PeriodsOn(schedule, day), RoomOn(schedule, day));
  }

  /** The output is never longer than the input, and it is empty exactly when the input is. */
  lemma {:induction false} ProcessedLength(schedule: seq<Entry>)
    ensures |Processed(schedule)| <= |schedule|
    ensures Processed(schedule) == [] <==> schedule == []
  {
    var days := SortedDays(schedule);
    SortIntsElements(DaysOf(schedule));
    SlotsOfDaysLength(schedule, days);
    PeriodCountSorted(schedule, DaysOf(schedule));
    PeriodCountAll(schedule);
    if schedule != [] {
      assert schedule[0].day in DaysOf(schedule) by { DaysHavePeriods(schedule, schedule[0].day); PeriodsOnItems(schedule, schedule[0].day, schedule[0].period); }
    }
  }

  // ----- process_json_file -----

  /**
   * A class as the export reads it from the JSON file: its name, its
   * schedule, and the length of its student list when it has one.
   */
  datatype JsonClass = JsonClass(name: string, schedule: seq<Entry>, students: Option<nat>)

  /** The largest of some counts, 0 for none. */
  function MaxOf(counts: seq<nat>): nat
    decreases |counts|
  {
    if counts == [] then 0
    else
      var before := MaxOf(counts[..|counts| - 1]);
      var here := counts[|counts| - 1];
      if here > before then here else before
  }

  /** No count is larger than the maximum, and some count equals it. */
  lemma {:induction false} MaxOfIsMaximum(counts: seq<nat>)
    ensures forall k :: 0 <= k < |counts| ==> counts[k] <= MaxOf(counts)
    ensures counts != [] ==> exists k :: 0 <= k < |counts| && counts[k] == MaxOf(counts)
    decreases |counts|
  {
    if counts != [] {
      var n := |counts| - 1;
      MaxOfIsMaximum(counts[..n]);
      forall k | 0 <= k < n ensures counts[k] <= MaxOf(counts) {
        assert counts[k] == counts[..n][k];
      }
      if n > 0 && MaxOf(counts) != counts[n] {
        var k :| 0 <= k < n && counts[..n][k] == MaxOf(counts[..n]);
        assert counts[k] == counts[..n][k];
      }
    }
  }

  /** The number of merged items of one class. */
  function SlotCount(c: JsonClass): nat
  {
    |Processed(c.schedule)|
  }

  /** `count` of each class, in order. */
  function CountsBy(classes: seq<JsonClass>, count: JsonClass -> nat): (counts: seq<nat>)
    ensures |counts| == |classes|
    decreases |classes|
  {
    if classes == [] then []
    else CountsBy(classes[..|classes| - 1], count) + [count(classes[|classes| - 1])]
  }

  lemma {:induction false} CountsByAt(classes: seq<JsonClass>, count: JsonClass -> nat, k: nat)
    requires k < |classes|
    ensures CountsBy(classes, count)[k] == count(classes[k])
    decreases |classes|
  {
    var n := |classes| - 1;
    if k < n {
      CountsByAt(classes[..n], count, k);
      assert classes[..n][k] == classes[k];
    }
  }

  /** The number of merged items of each class. */
  function SlotCounts(classes: seq<JsonClass>): seq<nat>
  {
    CountsBy(classes, SlotCount)
  }

  /** `max_schedule_items` after the first loop: the most merged items of any class, 0 for no classes. */
  function MaxSlots(classes: seq<JsonClass>): nat
  {
    MaxOf(SlotCounts(classes))
  }

  /** No class has more merged items than the maximum, and some class has exactly that many. */
  lemma {:induction false} MaxSlotsIsMaximum(classes: seq<JsonClass>)
    ensures forall k :: 0 <= k < |classes| ==> |Processed(classes[k].schedule)| <= MaxSlots(classes)
    ensures classes != [] ==> exists k :: 0 <= k < |classes| && |Processed(classes[k].schedule)| == MaxSlots(classes)
  {
    var counts := SlotCounts(classes);
    MaxOfIsMaximum(counts);
    forall k | 0 <= k < |classes| ensures |Processed(classes[k].schedule)| <= MaxSlots(classes) {
      CountsByAt(classes, SlotCount, k);
    }
    if classes != [] {
      var k :| 0 <= k < |counts| && counts[k] == MaxOf(counts);
      CountsByAt(classes, SlotCount, k);
    }
  }

  /** The first loop of `process_json_file`: the most merged items of any class. */
  method MaxScheduleItems(classes: seq<JsonClass>) returns (maxItems: nat)
    ensures maxItems == MaxSlots(classes)
  {
    maxItems := 0;
    for k := 0 to |classes|
      invariant maxItems == MaxOf(SlotCounts(classes[..k]))
    {
      assert classes[..k + 1][..k] == classes[..k];
      var processed := ProcessSchedule(classes[k].schedule);
      if |processed| > maxItems {
        maxItems := |processed|;
      }
    }
    assert classes[..|classes|] == classes;
  }

  /** The three column names of merged item `i`: unnumbered for the first item, numbered from 2 for the others. */
  function ItemColumns(i: nat): seq<string>
  {
    if i == 0 then ["Thứ", "Tiết", "Phòng"]
    else ["Thứ " + IntToString(i + 1), "Tiết " + IntToString(i + 1), "Phòng " + IntToString(i + 1)]
  }

  /** The column names of the first `count` merged items. */
  function ItemsColumns(count: nat): (names: seq<string>)
    ensures |names| == 3 * count
  {
    if count == 0 then [] else ItemsColumns(count - 1) + ItemColumns(count - 1)
  }

  /** The header: the class name column, three columns per merged item, and the class size column. */
  function Header(maxItems: nat): seq<string>
  {
    ["Tên lớp"] + ItemsColumns(maxItems) + ["Sỉ số"]
  }

  /** The three cells of a merged item: its day, its periods and its room. */
  function ItemCells(slot: Slot): seq<string>
  {
    [slot.day, slot.period, slot.room]
  }

  /** The cells of the first `count` merged items, three empty cells for each item the class does not have. */
  function ScheduleCells(slots: seq<Slot>, count: nat): (cells: seq<string>)
    ensures |cells| == 3 * count
  {
    if count == 0 then []
    else ScheduleCells(slots, count - 1) + (if count - 1 < |slots| then ItemCells(slots[count - 1]) else ["", "", ""])
  }

  /** The class size cell: the length of the student list, "N/A" for a class without one. */
  function StudentsCell(c: JsonClass): string
  {
    match c.students
    case Some(n) => IntToString(n)
    case None => "N/A"
  }

  /** A class's row: its name, the cells of `maxItems` of its merged items `slots`, and its size. */
  function ClassRow(c: JsonClass, slots: seq<Slot>, maxItems: nat): seq<string>
  {
    [c.name] + ScheduleCells(slots, maxItems) + [StudentsCell(c)]
  }

  /** The column names of merged item `i` sit at positions 3i+1 to 3i+3 of the header. */
  lemma {:induction false} HeaderAt(maxItems: nat, i: nat)
    requires i < maxItems
    ensures |Header(maxItems)| == 2 + 3 * maxItems
    ensures Header(maxItems)[0] == "Tên lớp" && Header(maxItems)[1 + 3 * maxItems] == "Sỉ số"
    ensures Header(maxItems)[1 + 3 * i..4 + 3 * i] == ItemColumns(i)
  {
    ItemsColumnsAt(maxItems, i);
    var h := Header(maxItems);
    assert h[1 + 3 * i..4 + 3 * i] == ItemsColumns(maxItems)[3 * i..3 * i + 3];
  }

  lemma {:induction false} ItemsColumnsAt(count: nat, i: nat)
    requires i < count
    ensures ItemsColumns(count)[3 * i..3 * i + 3] == ItemColumns(i)
    decreases count
  {
    TripleOfAppend(ItemsColumns(count - 1), ItemColumns(count - 1), i);
    if i < count - 1 {
      ItemsColumnsAt(count - 1, i);
    }
  }

  /** Cells 3i to 3i+2 of a list of cells with a block of three appended: still those of the list, or the block itself. */
  lemma {:induction false} TripleOfAppend(cells: seq<string>, block: seq<string>, i: nat)
    requires |block| == 3 && |cells| % 3 == 0 && 3 * i <= |cells|
    ensures 3 * i < |cells| ==> (cells + block)[3 * i..3 * i + 3] == cells[3 * i..3 * i + 3]
    ensures 3 * i == |cells| ==> (cells + block)[3 * i..3 * i + 3] == block
  {
    if 3 * i < |cells| {
      assert 3 * i + 3 <= |cells|;
    }
  }

  /**
   * The cells of merged item `i` sit at positions 3i to 3i+2: the item's
   * day, periods and room when the class has it, three empty cells otherwise.
   */
  lemma {:induction false} ScheduleCellsAt(slots: seq<Slot>, count: nat, i: nat)
    requires i < count
    ensures ScheduleCells(slots, count)[3 * i..3 * i + 3] == if i < |slots| then ItemCells(slots[i]) else ["", "", ""]
    decreases count
  {
    var n := count - 1;
    TripleOfAppend(ScheduleCells(slots, n), if n < |slots| then ItemCells(slots[n]) else ["", "", ""], i);
    if i < n {
      ScheduleCellsAt(slots, n, i);
    }
  }

  /**
   * A row is as long as the header, 2 + 3 * maxItems: the class name, then
   * at positions 3i+1 to 3i+3 merged item `i` or three empty cells, then the size.
   */
  lemma {:induction false} ClassRowAt(c: JsonClass, slots: seq<Slot>, maxItems: nat, i: nat)
    requires i < maxItems
    ensures var row := ClassRow(c, slots, maxItems);
      && |row| == |Header(maxItems)| == 2 + 3 * maxItems
      && row[0] == c.name && row[1 + 3 * maxItems] == StudentsCell(c)
      && row[1 + 3 * i..4 + 3 * i] == if i < |slots| then ItemCells(slots[i]) else ["", "", ""]
  {
    ScheduleCellsAt(slots, maxItems, i);
    var row := ClassRow(c, slots, maxItems);
    assert row[1 + 3 * i..4 + 3 * i] == ScheduleCells(slots, maxItems)[3 * i..3 * i + 3];
  }

  /** No merged item of any class is cut off: each sits in its class's row under its own columns. */
  lemma {:induction false} EveryItemShown(classes: seq<JsonClass>, k: nat, i: nat)
    requires k < |classes| && i < |Processed(classes[k].schedule)|
    ensures var maxItems := MaxSlots(classes); var slots := Processed(classes[k].schedule);
      && i < maxItems
      && ClassRow(classes[k], slots, maxItems)[1 + 3 * i..4 + 3 * i] == ItemCells(slots[i])
  {
    MaxSlotsIsMaximum(classes);
    ClassRowAt(classes[k], Processed(classes[k].schedule), MaxSlots(classes), i);
  }

  /** The loop building the header in `process_json_file`. */
  method BuildHeader(maxItems: nat) returns (columns: seq<string>)
    ensures columns == Header(maxItems)
  {
    columns := ["Tên lớp"];
    for i := 0 to maxItems
      invariant columns == ["Tên lớp"] + ItemsColumns(i)
    {
      if i == 0 {
        columns := columns + ["Thứ", "Tiết", "Phòng"];
      } else {
        columns := columns + ["Thứ " + IntToString(i + 1), "Tiết " + IntToString(i + 1), "Phòng " + IntToString(i + 1)];
      }
    }
    columns := columns + ["Sỉ số"];
  }

  /** The loop building one class's row in `process_json_file`, from the class's merged items. */
  method BuildRow(c: JsonClass, processed: seq<Slot>, maxItems: nat) returns (row: seq<string>)
    ensures row == ClassRow(c, processed, maxItems)
  {
    row := [c.name];
    for i := 0 to maxItems
      invariant row == [c.name] + ScheduleCells(processed, i)
    {
      if i < |processed| {
        var item := processed[i];
        row := row + [item.day, item.period, item.room];
      } else {
        row := row + ["", "", ""];
      }
    }
    row := row + [StudentsCell(c)];
  }

  /**
   * `process_json_file` without the file reading and the DataFrame: the
   * header, and one row per class, each padded to the widest merged schedule.
   */
  method ProcessJsonFile(classes: seq<JsonClass>) returns (columns: seq<string>, rows: seq<seq<string>>)
    ensures columns == Header(MaxSlots(classes))
    ensures |rows| == |classes|
    ensures forall k :: 0 <= k < |classes| ==> rows[k] == ClassRow(classes[k], Processed(classes[k].schedule), MaxSlots(classes))
  {
    var maxItems := MaxScheduleItems(classes);
    columns := BuildHeader(maxItems);
    rows := [];
    for k := 0 to |classes|
      invariant |rows| == k
      invariant forall j :: 0 <= j < k ==> rows[j] == ClassRow(classes[j], Processed(classes[j].schedule), maxItems)
    {
      var processed := ProcessSchedule(classes[k].schedule);
      var row := BuildRow(classes[k], processed, maxItems);
      rows := rows + [row];
    }
  }
}
