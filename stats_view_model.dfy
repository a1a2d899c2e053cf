/**
 * StatsViewModel: the statistics screen's state (the selected month and the injected entries)
 * and the figures it derives from them. The current time is passed in where the view model
 * reads the clock.
 */
module StatsViewModel {
  import opened Wrappers
  import opened Seqs
  import opened Text
  import opened Dates
  import opened Items
  import opened Tally
  import opened EmotionTagNormalizer

  // ---------------------------------------------------------------- streaks

  /** Strictly decreasing: distinct days, most recent first. */
  predicate Descending(d: seq<int>)
  {
    forall i, j :: 0 <= i < j < |d| ==> d[i] > d[j]
  }

  /** Adds a day to a descending list of distinct days. */
  function InsertDay(x: int, d: seq<int>): (r: seq<int>)
    requires Descending(d)
    ensures Descending(r)
    ensures forall y :: y in r <==> y == x || y in d
  {
    if d == [] || x > d[0] then [x] + d
    else if x == d[0] then d
    else
      var rest := InsertDay(x, d[1..]);
      assert forall k :: 0 <= k < |rest| ==> rest[k] in rest;
      [d[0]] + rest
  }

  /** `Set(days).sorted(by: >)`. */
  function DaysDescending(days: seq<int>): (r: seq<int>)
    ensures Descending(r)
    ensures forall y :: y in r <==> y in days
  {
    if days == [] then []
    else InsertDay(days[|days| - 1], DaysDescending(days[..|days| - 1]))
  }

  /** The days with an entry outside the trash, most recent first. */
  function UniqueDays(items: seq<Item>): seq<int>
  {
    DaysDescending(DaysOf(Active(items)))
  }

  lemma UniqueDaysAreActiveDays(items: seq<Item>)
    ensures Descending(UniqueDays(items))
    ensures forall y :: y in UniqueDays(items) <==> y in ActiveDays(items)
  {
    var active := Active(items);
    forall y ensures y in UniqueDays(items) <==> y in ActiveDays(items) {
      if y in DaysOf(active) {
        var i :| 0 <= i < |active| && DaysOf(active)[i] == y;
        assert active[i] in active;
      }
      if y in ActiveDays(items) {
        var item :| item in items && !item.isTrashed && Day(item) == y;
        assert item in active;
        var i :| 0 <= i < |active| && active[i] == item;
        assert DaysOf(active)[i] == y;
      }
    }
  }

  /** Entries `i` to `j - 1` of `d` are consecutive days. */
  predicate IsRun(d: seq<int>, i: int, j: int)
  {
    0 <= i < j <= |d| && forall k :: i <= k < j - 1 ==> d[k] - d[k + 1] == 1
  }

  /** `n` consecutive days start at entry `i`. */
  predicate RunOfLength(d: seq<int>, i: int, n: int)
  {
    IsRun(d, i, i + n)
  }

  /**
   * One step of the scan for the longest run: the run ending at entry `k` has length `temp`,
   * it cannot be extended to the left, and `best` bounds every run that ends before entry `k`;
   * the larger of the two bounds every run that ends at or before entry `k`.
   */
  lemma LongestRunStep(d: seq<int>, k: int, temp: int, best: int, newBest: int)
    requires 1 <= temp <= k + 1 <= |d| && IsRun(d, k + 1 - temp, k + 1)
    requires k + 1 - temp == 0 || d[k - temp] - d[k + 1 - temp] != 1
    requires forall i, j :: 0 <= i < j <= k && IsRun(d, i, j) ==> j - i <= best
    requires newBest == if temp > best then temp else best
    ensures forall i, j :: 0 <= i < j <= k + 1 && IsRun(d, i, j) ==> j - i <= newBest
  {
    forall i, j | 0 <= i < j <= k + 1 && IsRun(d, i, j) ensures j - i <= newBest {
      if j <= k {
        assert IsRun(d, i, j);
      }
    }
  }

  /** The run at the front of a descending list ends where the next entry is not the day before. */
  lemma RunAtFront(d: seq<int>, k: nat)
    requires Descending(d) && 1 <= k <= |d|
    requires forall j :: 0 <= j < k ==> d[j] == d[0] - j
    requires k == |d| || d[k - 1] - d[k] != 1
    ensures d[0] - k !in d
  {
  }

  /**
   * When the front of a descending list of days is `k` consecutive days and the next entry is
   * not the day before, the streak ending at its first day is exactly `k` days long.
   */
  lemma FrontRunIsStreak(d: seq<int>, days: set<int>, k: nat)
    requires Descending(d) && 1 <= k <= |d|
    requires forall y :: y in d <==> y in days
    requires forall j :: 0 <= j < k ==> d[j] == d[0] - j
    requires k == |d| || d[k - 1] - d[k] != 1
    ensures StreakEndsAt(days, d[0], k)
  {
    RunAtFront(d, k);
    forall day | d[0] - k < day <= d[0] ensures day in days {
      assert d[d[0] - day] == day;
    }
  }

  /** A sub-range of a run is a run. */
  lemma RunInside(d: seq<int>, i: int, j: int, i2: int, j2: int)
    requires IsRun(d, i, j) && i <= i2 < j2 <= j
    ensures IsRun(d, i2, j2)
  {
  }

  // ---------------------------------------------------------------- weekdays

  /** `daySortOrder(for:)`: Monday first, Sunday last. */
  function DaySortOrder(weekday: int): int
  {
    if weekday == 1 then 7 else weekday - 1
  }

  /** The weekday shown at position `i` (0 to 6) of the sorted list. */
  function WeekdayAt(i: int): (w: int)
    requires 0 <= i < 7
    ensures 1 <= w <= 7
  {
    if i == 6 then 1 else i + 2
  }

  /** The sort order is a bijection of 1..7 onto 1..7 that puts Sunday last; `WeekdayAt` inverts it. */
  lemma DaySortOrderIsBijection()
    ensures DaySortOrder(1) == 7
    ensures forall w :: 1 <= w <= 7 ==> 1 <= DaySortOrder(w) <= 7 && WeekdayAt(DaySortOrder(w) - 1) == w
    ensures forall i :: 0 <= i < 7 ==> DaySortOrder(WeekdayAt(i)) == i + 1
  {
  }

  const KoreanDayLabels: seq<string> := ["일", "월", "화", "수", "목", "금", "토"]

  /** Entries written on `weekday`. */
  function CountWeekday(items: seq<Item>, weekday: int): nat
  {
    if items == [] then 0
    else CountWeekday(items[..|items| - 1], weekday) + (if Weekday(Day(items[|items| - 1])) == weekday then 1 else 0)
  }

  /** The dictionary of `dayCounts` after counting `prefix`: a weekday is a key exactly when it was seen, with its count. */
  ghost predicate WeekdayCountsAt(counts: map<int, nat>, prefix: seq<Item>)
  {
    && (forall w :: w in counts ==> counts[w] == CountWeekday(prefix, w))
    && (forall w :: w !in counts ==> CountWeekday(prefix, w) == 0)
  }

  /** Counting one more entry under its weekday keeps the dictionary exact. */
  lemma WeekdayCountsStep(counts: map<int, nat>, items: seq<Item>, k: int)
    requires 0 <= k < |items| && WeekdayCountsAt(counts, items[..k])
    ensures var weekday := Weekday(Day(items[k]));
      WeekdayCountsAt(counts[weekday := (if weekday in counts then counts[weekday] else 0) + 1], items[..k + 1])
  {
    assert items[..k + 1][..k] == items[..k];
  }

  /** One bar of the weekday chart. */
  datatype DayCount = DayCount(name: string, count: nat, weekday: int)

  /**
   * `dayCounts`: the entries outside the trash per weekday, Monday to Sunday. The sort by
   * `daySortOrder` has a single outcome because the order is a bijection; that outcome is
   * written out here.
   */
  function DayCountsOf(items: seq<Item>): seq<DayCount>
  {
    var valid := Active(items);
    seq(7, i requires 0 <= i < 7 => DayCount(KoreanDayLabels[WeekdayAt(i) - 1], CountWeekday(valid, WeekdayAt(i)), WeekdayAt(i)))
  }

  /** Every entry has exactly one weekday, so the seven counts add up to the number of entries. */
  lemma {:induction false} WeekdayCountsSum(items: seq<Item>)
    ensures CountWeekday(items, 1) + CountWeekday(items, 2) + CountWeekday(items, 3) + CountWeekday(items, 4) +
      CountWeekday(items, 5) + CountWeekday(items, 6) + CountWeekday(items, 7) == |items|
    decreases |items|
  {
    if items != [] {
      WeekdayCountsSum(items[..|items| - 1]);
    }
  }

  function DayCountValues(counts: seq<DayCount>): (r: seq<int>)
    ensures |r| == |counts| && forall i :: 0 <= i < |counts| ==> r[i] == counts[i].count
  {
    seq(|counts|, i requires 0 <= i < |counts| => counts[i].count)
  }

  /**
   * Seven bars, Monday to Sunday, in increasing sort order, each labelled with its weekday's
   * Korean name, adding up to the number of entries outside the trash.
   */
  lemma DayCountsFacts(items: seq<Item>)
    ensures |DayCountsOf(items)| == 7
    ensures forall i, j :: 0 <= i < j < 7 ==> DaySortOrder(DayCountsOf(items)[i].weekday) < DaySortOrder(DayCountsOf(items)[j].weekday)
    ensures DayCountsOf(items)[0].name == "월" && DayCountsOf(items)[6].name == "일"
    ensures Sum(DayCountValues(DayCountsOf(items))) == |Active(items)|
  {
    var r := DayCountsOf(items);
    var v := DayCountValues(r);
    WeekdayCountsSum(Active(items));
    forall k | 0 <= k < 7 ensures Sum(v[..k + 1]) == Sum(v[..k]) + v[k] {
      assert v[..k + 1][..k] == v[..k];
    }
    assert v[..7] == v && v[..0] == [];
    assert Sum(v) == v[0] + v[1] + v[2] + v[3] + v[4] + v[5] + v[6];
    assert forall i :: 0 <= i < 7 ==> v[i] == CountWeekday(Active(items), WeekdayAt(i));
  }

  /** `maxDayCount`: the largest weekday count; the list is never empty, so the 1 default is unused. */
  function MaxDayCount(items: seq<Item>): (r: int)
  {
    MaxOr(DayCountValues(DayCountsOf(items)), 1)
  }

  lemma MaxDayCountFacts(items: seq<Item>)
    ensures exists i :: 0 <= i < 7 && DayCountsOf(items)[i].count == MaxDayCount(items)
    ensures forall i :: 0 <= i < 7 ==> DayCountsOf(items)[i].count <= MaxDayCount(items)
  {
    var v := DayCountValues(DayCountsOf(items));
    var i :| 0 <= i < |v| && v[i] == MaxDayCount(items);
  }

  // ---------------------------------------------------------------- time of day

  /** `timeSlotLabel(for:)`. */
  function TimeSlotLabel(hour: int): string
  {
    if 6 <= hour <= 11 then "아침"
    else if 12 <= hour <= 17 then "낮"
    else if 18 <= hour <= 22 then "저녁"
    else "밤"
  }

  const SlotLabels: seq<string> := ["아침", "낮", "저녁", "밤"]

  /** The four labels partition the hours: morning 6-11, day 12-17, evening 18-22, night otherwise. */
  lemma TimeSlotLabelPartition(hour: int)
    ensures TimeSlotLabel(hour) in SlotLabels
    ensures TimeSlotLabel(hour) == SlotLabels[0] <==> 6 <= hour <= 11
    ensures TimeSlotLabel(hour) == SlotLabels[1] <==> 12 <= hour <= 17
    ensures TimeSlotLabel(hour) == SlotLabels[2] <==> 18 <= hour <= 22
    ensures TimeSlotLabel(hour) == SlotLabels[3] <==> hour < 6 || hour > 22
  {
  }

  /** Entries written in time slot `slot`. */
  function CountSlot(items: seq<Item>, slot: string): nat
  {
    if items == [] then 0
    else CountSlot(items[..|items| - 1], slot) + (if TimeSlotLabel(Hour(items[|items| - 1].timestamp)) == slot then 1 else 0)
  }

  lemma CountSlotSnoc(items: seq<Item>, k: int)
    requires 0 <= k < |items|
    ensures forall slot ::
      CountSlot(items[..k + 1], slot) == CountSlot(items[..k], slot) + (if TimeSlotLabel(Hour(items[k].timestamp)) == slot then 1 else 0)
  {
    assert items[..k + 1][..k] == items[..k];
  }

  /** The dictionary of `timeSlots` after counting `prefix`: every label holds its count. */
  predicate SlotCountsAt(counts: map<string, nat>, prefix: seq<Item>)
  {
    forall i :: 0 <= i < 4 ==> SlotLabels[i] in counts && counts[SlotLabels[i]] == CountSlot(prefix, SlotLabels[i])
  }

  /** Counting one more entry into its slot's key keeps the dictionary exact. */
  lemma SlotCountsStep(counts: map<string, nat>, items: seq<Item>, k: int)
    requires 0 <= k < |items| && SlotCountsAt(counts, items[..k])
    ensures var slot := TimeSlotLabel(Hour(items[k].timestamp));
      slot in counts && SlotCountsAt(counts[slot := counts[slot] + 1], items[..k + 1])
  {
    var slot := TimeSlotLabel(Hour(items[k].timestamp));
    TimeSlotLabelPartition(Hour(items[k].timestamp));
    CountSlotSnoc(items, k);
  }

  /** One bar of the time-of-day chart; its colour is left out. */
  datatype TimeSlot = TimeSlot(name: string, count: nat, order: int)

  /** `timeSlots`: the entries outside the trash per time slot, in slot order. */
  function TimeSlotsOf(items: seq<Item>): seq<TimeSlot>
  {
    var valid := Active(items);
    seq(4, i requires 0 <= i < 4 => TimeSlot(SlotLabels[i], CountSlot(valid, SlotLabels[i]), i + 1))
  }

  lemma {:induction false} SlotCountsSum(items: seq<Item>)
    ensures CountSlot(items, SlotLabels[0]) + CountSlot(items, SlotLabels[1]) + CountSlot(items, SlotLabels[2]) + CountSlot(items, SlotLabels[3]) == |items|
    decreases |items|
  {
    if items != [] {
      SlotCountsSum(items[..|items| - 1]);
      TimeSlotLabelPartition(Hour(items[|items| - 1].timestamp));
    }
  }

  /** Four slots, morning to night, whose counts add up to the number of entries outside the trash. */
  lemma TimeSlotsFacts(items: seq<Item>)
    ensures |TimeSlotsOf(items)| == 4
    ensures forall i :: 0 <= i < 4 ==> TimeSlotsOf(items)[i].name == SlotLabels[i] && TimeSlotsOf(items)[i].order == i + 1
    ensures TimeSlotsOf(items)[0].count + TimeSlotsOf(items)[1].count + TimeSlotsOf(items)[2].count + TimeSlotsOf(items)[3].count == |Active(items)|
  {
    SlotCountsSum(Active(items));
  }

  // ---------------------------------------------------------------- moods and emotion tags

  function Moods(items: seq<Item>): seq<string>
  {
    CompactMap(items, (item: Item) => item.mood)
  }

  /** `moodData`: the month's moods with their counts, most frequent first. */
  function MoodData(items: seq<Item>, month: int): seq<Entry>
  {
    Ranked(Moods(MonthEntries(items, month)))
  }

  /**
   * The mood table is sorted by non-increasing count, lists each mood of the month's entries
   * with its number of occurrences, and its counts add up to the entries that have a mood.
   */
  lemma MoodDataFacts(items: seq<Item>, month: int)
    ensures NonIncreasing(MoodData(items, month))
    ensures forall i :: 0 <= i < |MoodData(items, month)| ==>
      MoodData(items, month)[i].count == Count(Moods(MonthEntries(items, month)), MoodData(items, month)[i].key)
    ensures forall x :: x in Keys(MoodData(items, month)) <==> exists item :: item in MonthEntries(items, month) && item.mood == Some(x)
    ensures Total(MoodData(items, month)) == |Filter(MonthEntries(items, month), (item: Item) => item.mood.Some?)|
  {
    var entries := MonthEntries(items, month);
    RankedFacts(Moods(entries));
    CompactMapLength(entries, (item: Item) => item.mood, (item: Item) => item.mood.Some?);
    MoodsOf(entries);
  }

  /** The moods listed are exactly those some entry has. */
  lemma MoodsOf(entries: seq<Item>)
    ensures forall x :: x in Moods(entries) <==> exists item :: item in entries && item.mood == Some(x)
  {
    var moods := Moods(entries);
    forall x ensures x in moods <==> exists item :: item in entries && item.mood == Some(x) {
      if x in moods {
        var i :| 0 <= i < |moods| && moods[i] == x;
        CompactMapFrom(entries, (item: Item) => item.mood, i);
      }
      if exists item :: item in entries && item.mood == Some(x) {
        var item :| item in entries && item.mood == Some(x);
        var j :| 0 <= j < |entries| && entries[j] == item;
        CompactMapHas(entries, (item: Item) => item.mood, j);
      }
    }
  }

  /** `mostFrequentMood`: the first mood of `moodData`, or "-". */
  function MostFrequentMood(items: seq<Item>, month: int): string
  {
    MostFrequent(Moods(MonthEntries(items, month)), "-")
  }

  lemma MostFrequentMoodFacts(items: seq<Item>, month: int)
    ensures Moods(MonthEntries(items, month)) == [] ==> MostFrequentMood(items, month) == "-"
    ensures Moods(MonthEntries(items, month)) != [] ==> MostFrequentMood(items, month) in Moods(MonthEntries(items, month))
    ensures forall x :: x in Moods(MonthEntries(items, month)) ==>
      Count(Moods(MonthEntries(items, month)), x) <= Count(Moods(MonthEntries(items, month)), MostFrequentMood(items, month))
  {
    MostFrequentFacts(Moods(MonthEntries(items, month)), "-");
  }

  const TopTagLimit: nat := 5

  /**
   * `topEmotionTags`: the five most frequent normalised emotion tags of the month's entries,
   * leaving out the placeholder tag before normalisation.
   */
  function TopEmotionTags(items: seq<Item>, month: int): seq<Entry>
  {
    Top(RecordedEmotions(MonthEntries(items, month)), TopTagLimit)
  }

  /**
   * At most five entries with non-increasing counts; each counts its tag among the month's
   * normalised tags, comes from a tag other than the placeholder, and outranks every tag left out.
   */
  lemma TopEmotionTagsFacts(items: seq<Item>, month: int)
    ensures |TopEmotionTags(items, month)| <= TopTagLimit && NonIncreasing(TopEmotionTags(items, month))
    ensures forall i :: 0 <= i < |TopEmotionTags(items, month)| ==>
      TopEmotionTags(items, month)[i].count == Count(RecordedEmotions(MonthEntries(items, month)), TopEmotionTags(items, month)[i].key) >= 1
    ensures forall e :: e in Keys(TopEmotionTags(items, month)) ==>
      exists item, t :: item in MonthEntries(items, month) && t in item.emotionTags && t != PlaceholderTag && Normalize(t) == Some(e)
    ensures forall x, i ::
      (x in RecordedEmotions(MonthEntries(items, month)) && x !in Keys(TopEmotionTags(items, month)) && 0 <= i < |TopEmotionTags(items, month)|) ==>
      Count(RecordedEmotions(MonthEntries(items, month)), x) <= TopEmotionTags(items, month)[i].count
  {
    var tags := RecordedEmotions(MonthEntries(items, month));
    TopEmotionsOutrankRest(tags);
    TopFacts(tags, TopTagLimit);
    RankedFacts(tags);
    forall e | e in Keys(TopEmotionTags(items, month))
      ensures exists item, t :: item in MonthEntries(items, month) && t in item.emotionTags && t != PlaceholderTag && Normalize(t) == Some(e)
    {
      var top := TopEmotionTags(items, month);
      var i :| 0 <= i < |top| && Keys(top)[i] == e;
      assert Keys(Ranked(tags))[i] == e;
      RecordedEmotionsFrom(MonthEntries(items, month), e);
    }
  }

  /** No tag left out of the top five occurs more often than any tag kept. */
  lemma TopEmotionsOutrankRest(tags: seq<string>)
    ensures forall x, i :: (x in tags && x !in Keys(Top(tags, TopTagLimit)) && 0 <= i < |Top(tags, TopTagLimit)|) ==>
      Count(tags, x) <= Top(tags, TopTagLimit)[i].count
  {
    forall x, i | x in tags && x !in Keys(Top(tags, TopTagLimit)) && 0 <= i < |Top(tags, TopTagLimit)|
      ensures Count(tags, x) <= Top(tags, TopTagLimit)[i].count
    {
      TopOutranksRest(tags, TopTagLimit, x, i);
    }
  }

  /** `maxTagCount`: the largest count among the top tags, or 1 when there are none. */
  function MaxTagCount(items: seq<Item>, month: int): int
  {
    MaxOr(Counts(TopEmotionTags(items, month)), 1)
  }

  lemma MaxTagCountFacts(items: seq<Item>, month: int)
    ensures TopEmotionTags(items, month) == [] ==> MaxTagCount(items, month) == 1
    ensures TopEmotionTags(items, month) != [] ==> MaxTagCount(items, month) == TopEmotionTags(items, month)[0].count
  {
    var top := TopEmotionTags(items, month);
    TopFacts(RecordedEmotions(MonthEntries(items, month)), TopTagLimit);
    if top != [] {
      var c := Counts(top);
      var i :| 0 <= i < |c| && c[i] == MaxTagCount(items, month);
      assert c[0] <= MaxTagCount(items, month);
    }
  }

  // ---------------------------------------------------------------- months

  /** The decimal digits of `n`. */
  function NumberText(n: nat): (r: string)
    ensures r != [] && forall c :: c in r ==> '0' <= c <= '9'
    decreases n
  {
    var digit := ['0' + (n % 10) as char];
    if n < 10 then digit else NumberText(n / 10) + digit
  }

  /** The number a string of decimal digits stands for. */
  function DecimalValue(s: string): int
  {
    if s == [] then 0 else 10 * DecimalValue(s[..|s| - 1]) + (s[|s| - 1] as int - '0' as int)
  }

  /** Reading the digits back gives the number. */
  lemma {:induction false} NumberTextRoundTrip(n: nat)
    ensures DecimalValue(NumberText(n)) == n
    decreases n
  {
    var digit := ['0' + (n % 10) as char];
    if n < 10 {
      assert DecimalValue(digit) == 10 * DecimalValue([]) + n;
    } else {
      NumberTextRoundTrip(n / 10);
      var text := NumberText(n / 10) + digit;
      assert text[..|text| - 1] == NumberText(n / 10);
    }
  }

  /** `"\(monthNum)월"`. */
  function MonthLabel(m: int): string
  {
    NumberText(MonthNumber(m)) + "월"
  }

  /** `name` is the month number of month index `m` in decimal digits, followed by "월". */
  ghost predicate NamesMonth(name: string, m: int)
  {
    exists digits :: name == digits + "월" && DecimalValue(digits) == MonthNumber(m)
  }

  /** A month's label reads back as its month number. */
  lemma MonthLabelNamesMonth(m: int)
    ensures NamesMonth(MonthLabel(m), m)
  {
    NumberTextRoundTrip(MonthNumber(m));
  }

  /** One bar of the six-month trend. */
  datatype MonthCount = MonthCount(name: string, count: nat, month: int)

  /**
   * `monthCounts`: the number of entries outside the trash in each of the six months ending
   * with the selected one, oldest first.
   */
  function MonthCountsOf(items: seq<Item>, month: int): seq<MonthCount>
  {
    seq(6, i requires 0 <= i < 6 => var m := AddMonths(month, i - 5);
      MonthCount(MonthLabel(m), |MonthEntries(items, m)|, m))
  }

  /**
   * Six consecutive months ending with the selected one, each counting exactly that month's
   * entries outside the trash, each labelled with its month number.
   */
  lemma MonthCountsFacts(items: seq<Item>, month: int)
    ensures |MonthCountsOf(items, month)| == 6
    ensures forall i :: 0 <= i < 6 ==> MonthCountsOf(items, month)[i].month == month - 5 + i
    ensures MonthCountsOf(items, month)[5].count == |MonthEntries(items, month)|
    ensures forall i :: 0 <= i < 6 ==> MonthCountsOf(items, month)[i].count == |MonthEntries(items, month - 5 + i)|
    ensures forall i :: 0 <= i < 6 ==> NamesMonth(MonthCountsOf(items, month)[i].name, month - 5 + i)
  {
    forall i | 0 <= i < 6
      ensures NamesMonth(MonthCountsOf(items, month)[i].name, month - 5 + i)
    {
      MonthLabelNamesMonth(month - 5 + i);
    }
  }

  // ---------------------------------------------------------------- details

  /** The character counts of the entries' contents, positive ones only. */
  function ContentLengths(items: seq<Item>): seq<int>
  {
    Filter(CompactMap(items, (item: Item) => if item.content.Some? then Some(|item.content.value|) else None), n => n > 0)
  }

  /** The integer mean of `xs`, rounded down, or 0 for no values. */
  function IntegerMean(xs: seq<int>): int
  {
    if xs == [] then 0 else Sum(xs) / |xs|
  }

  /** `averageCharCount`: the integer mean of the positive content lengths of the month, or 0. */
  function AverageCharCount(items: seq<Item>, month: int): int
  {
    IntegerMean(ContentLengths(MonthEntries(items, month)))
  }

  lemma {:induction false} SumBounds(xs: seq<int>, top: int)
    requires forall i :: 0 <= i < |xs| ==> 1 <= xs[i] <= top
    ensures |xs| <= Sum(xs) <= |xs| * top
    decreases |xs|
  {
    if xs != [] {
      SumBounds(xs[..|xs| - 1], top);
      assert (|xs| - 1) * top + top == |xs| * top;
    }
  }

  /** Integer division: `total / n` is the largest `q` with `q * n <= total`, and it is monotone. */
  lemma QuotientBounds(total: int, n: int, top: int)
    requires n >= 1 && n <= total <= n * top
    ensures 1 <= total / n <= top
    ensures 0 <= total - total / n * n < n
  {
    var q := total / n;
    assert total == q * n + total % n && 0 <= total % n < n;
    assert n * top == top * n;
    assert q < 1 ==> q * n <= 0;
    assert q > top ==> q * n >= (top + 1) * n;
  }

  /** The mean of positive values is 0 only for no values, and otherwise lies between 1 and the largest value. */
  lemma IntegerMeanBounds(xs: seq<int>)
    requires forall i :: 0 <= i < |xs| ==> xs[i] >= 1
    ensures xs == [] <==> IntegerMean(xs) == 0
    ensures xs != [] ==>
      && 1 <= IntegerMean(xs) <= MaxOr(xs, 0)
      && 0 <= Sum(xs) - IntegerMean(xs) * |xs| < |xs|
  {
    if xs != [] {
      var top, total, n := MaxOr(xs, 0), Sum(xs), |xs|;
      assert forall i :: 0 <= i < |xs| ==> 1 <= xs[i] <= top;
      SumBounds(xs, top);
      assert n <= total <= n * top;
      QuotientBounds(total, n, top);
      var q := IntegerMean(xs);
      assert q == total / n;
      assert 1 <= q <= top && 0 <= total - q * n < n;
    }
  }

  /**
   * Without positive lengths the average is 0; otherwise it lies between 1 and the longest
   * content, and it is the mean rounded down.
   */
  lemma AverageCharCountBounds(items: seq<Item>, month: int)
    ensures var counts := ContentLengths(MonthEntries(items, month));
      && (counts == [] <==> AverageCharCount(items, month) == 0)
      && (counts != [] ==>
        && 1 <= AverageCharCount(items, month) <= MaxOr(counts, 0)
        && 0 <= Sum(counts) - AverageCharCount(items, month) * |counts| < |counts|)
  {
    var counts := ContentLengths(MonthEntries(items, month));
    assert forall i :: 0 <= i < |counts| ==> counts[i] in counts;
    IntegerMeanBounds(counts);
  }

  /** `totalItemCount`: the number of entries outside the trash. */
  function TotalItemCount(items: seq<Item>): nat
  {
    |Active(items)|
  }

  /** Every entry outside the trash is counted once in the weekday chart and once in the time-of-day chart. */
  lemma TotalItemCountIsChartTotal(items: seq<Item>)
    ensures TotalItemCount(items) == Sum(DayCountValues(DayCountsOf(items)))
    ensures TotalItemCount(items) == TimeSlotsOf(items)[0].count + TimeSlotsOf(items)[1].count + TimeSlotsOf(items)[2].count + TimeSlotsOf(items)[3].count
  {
    DayCountsFacts(items);
    TimeSlotsFacts(items);
  }

  /** Seven days before `now`, at the same time of day. */
  function WeekAgo(now: Instant): Instant
  {
    Instant(now.day - 7, now.second)
  }

  /** The entries outside the trash written at or after one week before `now`. */
  function RecentEntries(items: seq<Item>, now: Instant): seq<Item>
  {
    Filter(items, (item: Item) => !item.isTrashed && !Before(item.timestamp, WeekAgo(now)))
  }

  /** `weeklyEmotionPattern`: the three most frequent emotion tags of the past week joined by ", ", or "-". */
  function WeeklyEmotionPattern(items: seq<Item>, now: Instant): string
  {
    var top := Keys(Top(RecordedEmotions(RecentEntries(items, now)), 3));
    if top == [] then "-" else Join(top, ", ")
  }

  /**
   * "-" exactly when the past week recorded no emotion tag; otherwise the joined keys of at most
   * three tags, most frequent first.
   */
  lemma WeeklyEmotionPatternFacts(items: seq<Item>, now: Instant)
    ensures var tags := RecordedEmotions(RecentEntries(items, now));
      (tags == [] ==> WeeklyEmotionPattern(items, now) == "-") &&
      (tags != [] ==>
        && WeeklyEmotionPattern(items, now) == Join(Keys(Top(tags, 3)), ", ")
        && 1 <= |Top(tags, 3)| <= 3 && NonIncreasing(Top(tags, 3)))
  {
    var tags := RecordedEmotions(RecentEntries(items, now));
    TopFacts(tags, 3);
    if tags == [] {
      RankedFacts(tags);
      assert |Top(tags, 3)| == 0;
    }
  }

  // ---------------------------------------------------------------- the two streak scans

  /** The first loop of `streakInfo`: walks back from the most recent day while days are consecutive. */
  method FrontRun(d: seq<int>) returns (n: nat)
    requires d != []
    ensures 1 <= n <= |d| && IsRun(d, 0, n)
    ensures forall j :: 0 <= j < n ==> d[j] == d[0] - j
    ensures n == |d| || d[n - 1] - d[n] != 1
  {
    n := 1;
    var prev := d[0];
    while n < |d|
      invariant 1 <= n <= |d| && prev == d[n - 1]
      invariant forall j :: 0 <= j < n ==> d[j] == d[0] - j
    {
      var day := d[n];
      if prev - day == 1 {
        prev := day;
      } else {
        break;
      }
      n := n + 1;
    }
  }

  /** The second loop of `streakInfo`: the length of the longest run of consecutive days. */
  method LongestRun(d: seq<int>) returns (best: nat)
    requires d != []
    ensures 1 <= best <= |d| && exists i :: RunOfLength(d, i, best)
    ensures forall i, j :: IsRun(d, i, j) ==> j - i <= best
  {
    best := 1;
    var tempStreak := 1;
    var prev := d[0];
    assert RunOfLength(d, 0, 1);
    for k := 1 to |d|
      invariant prev == d[k - 1]
      invariant 1 <= tempStreak <= k && RunOfLength(d, k - tempStreak, tempStreak)
      invariant k - tempStreak == 0 || d[k - tempStreak - 1] - d[k - tempStreak] != 1
      invariant tempStreak <= best <= k && exists i :: RunOfLength(d, i, best)
      invariant forall i, j :: 0 <= i < j <= k && IsRun(d, i, j) ==> j - i <= best
    {
      var day := d[k];
      var oldBest := best;
      if prev - day == 1 {
        tempStreak := tempStreak + 1;
        if tempStreak > best {
          best := tempStreak;
        }
      } else {
        tempStreak := 1;
      }
      LongestRunStep(d, k, tempStreak, oldBest, best);
      prev := day;
    }
  }

  // ---------------------------------------------------------------- the view model

  class StatsViewModel {
    /** The selected month, as a month index. */
    var selectedMonth: int
    /** The entries injected by the view's query. */
    var allItems: seq<Item>

    /** A new view model shows the current month and has no entries yet. */
    constructor(currentMonth: int)
      ensures selectedMonth == currentMonth && allItems == []
    {
      selectedMonth := currentMonth;
      allItems := [];
    }

    /** `updateItems(_:)`. */
    method UpdateItems(items: seq<Item>)
      modifies this
      ensures allItems == items && selectedMonth == old(selectedMonth)
    {
      allItems := items;
    }

    /** `moveMonth(by:)`. */
    method MoveMonth(offset: int)
      modifies this
      ensures selectedMonth == AddMonths(old(selectedMonth), offset) && allItems == old(allItems)
    {
      selectedMonth := AddMonths(selectedMonth, offset);
    }

    /** `filteredItems`. */
    function FilteredItems(): seq<Item>
      reads this
    {
      MonthEntries(allItems, selectedMonth)
    }

    /**
     * `streakInfo`: `current` is the run of consecutive days ending at the most recent day with an
     * entry, counted only when that day is today or yesterday; `best` is the longest run of
     * consecutive days.
     */
    method StreakInfo(today: int) returns (current: nat, best: nat)
      ensures UniqueDays(allItems) == [] ==> current == 0 && best == 0
      ensures UniqueDays(allItems) != [] ==> best >= 1 && exists i :: RunOfLength(UniqueDays(allItems), i, best)
      ensures forall i, j :: IsRun(UniqueDays(allItems), i, j) ==> j - i <= best
      ensures UniqueDays(allItems) != [] && (UniqueDays(allItems)[0] == today || UniqueDays(allItems)[0] == today - 1) ==>
        current >= 1 && StreakEndsAt(ActiveDays(allItems), UniqueDays(allItems)[0], current)
      ensures UniqueDays(allItems) == [] || (UniqueDays(allItems)[0] != today && UniqueDays(allItems)[0] != today - 1) ==> current == 0
      ensures current <= best
    {
      var uniqueDays := UniqueDays(allItems);
      UniqueDaysAreActiveDays(allItems);
      if uniqueDays == [] {
        return 0, 0;
      }
      current := 0;
      if uniqueDays[0] == today || uniqueDays[0] == today - 1 {
        current := FrontRun(uniqueDays);
        FrontRunIsStreak(uniqueDays, ActiveDays(allItems), current);
      }
      best := LongestRun(uniqueDays);
      if current > 0 {
        assert IsRun(uniqueDays, 0, current);
      }
    }

    /** `dayCounts`: counts the entries outside the trash per weekday in a dictionary. */
    method DayCounts() returns (r: seq<DayCount>)
      ensures r == DayCountsOf(allItems)
    {
      var validItems := Active(allItems);
      var counts: map<int, nat> := map[];
      for k := 0 to |validItems|
        invariant WeekdayCountsAt(counts, validItems[..k])
      {
        var weekday := Weekday(Day(validItems[k]));
        WeekdayCountsStep(counts, validItems, k);
        counts := counts[weekday := (if weekday in counts then counts[weekday] else 0) + 1];
      }
      assert validItems[..|validItems|] == validItems;
      r := seq(7, i requires 0 <= i < 7 =>
        DayCount(KoreanDayLabels[WeekdayAt(i) - 1], if WeekdayAt(i) in counts then counts[WeekdayAt(i)] else 0, WeekdayAt(i)));
    }

    /** `timeSlots`: counts the entries outside the trash per time slot in a dictionary. */
    method TimeSlots() returns (r: seq<TimeSlot>)
      ensures r == TimeSlotsOf(allItems)
    {
      var validItems := Active(allItems);
      var counts: map<string, nat> := map[SlotLabels[0] := 0, SlotLabels[1] := 0, SlotLabels[2] := 0, SlotLabels[3] := 0];
      for k := 0 to |validItems|
        invariant SlotCountsAt(counts, validItems[..k])
      {
        var slot := TimeSlotLabel(Hour(validItems[k].timestamp));
        SlotCountsStep(counts, validItems, k);
        counts := counts[slot := counts[slot] + 1];
      }
      assert validItems[..|validItems|] == validItems;
      r := seq(4, i requires 0 <= i < 4 => TimeSlot(SlotLabels[i], counts[SlotLabels[i]], i + 1));
    }
  }
}
