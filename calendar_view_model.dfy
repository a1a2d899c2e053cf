/**
 * CalendarViewModel: the calendar screen's state (the selected date, the displayed month and the
 * injected entries) and what it derives from them. `CalendarView` carries its own copies of the
 * streak, emotion, tone and marker computations; they compute the same values and are modelled
 * once, here. The current time is passed in where the source reads the clock.
 */
module CalendarViewModel {
  import opened Wrappers
  import opened Seqs
  import opened Text
  import opened Dates
  import opened Items
  import opened Tally

  // ---------------------------------------------------------------- the selected day

  /** `a.timestamp > b.timestamp`. */
  predicate Newer(a: Item, b: Item)
  {
    Before(b.timestamp, a.timestamp)
  }

  /** Newest first: no entry is older than one after it. */
  predicate NewestFirstOrder(s: seq<Item>)
  {
    forall i, j :: 0 <= i < j < |s| ==> !Newer(s[j], s[i])
  }

  /** Puts `x` before the first entry older than it. */
  function InsertByTime(x: Item, sorted: seq<Item>): (r: seq<Item>)
    ensures multiset(r) == multiset(sorted) + multiset{x}
    ensures forall k :: 0 <= k < |r| ==> r[k] == x || r[k] in sorted
  {
    if sorted == [] || Newer(x, sorted[0]) then [x] + sorted
    else
      assert sorted == [sorted[0]] + sorted[1..];
      [sorted[0]] + InsertByTime(x, sorted[1..])
  }

  lemma {:induction false} InsertByTimeSorted(x: Item, sorted: seq<Item>)
    requires NewestFirstOrder(sorted)
    ensures NewestFirstOrder(InsertByTime(x, sorted))
    decreases |sorted|
  {
    if sorted != [] && !Newer(x, sorted[0]) {
      InsertByTimeSorted(x, sorted[1..]);
      var r := InsertByTime(x, sorted);
      forall k | 0 < k < |r| ensures !Newer(r[k], r[0]) {
        assert r[k] == x || r[k] in sorted[1..];
      }
    }
  }

  /** `sorted { $0.timestamp > $1.timestamp }`, as an insertion sort. */
  function SortNewestFirst(s: seq<Item>): (r: seq<Item>)
    ensures multiset(r) == multiset(s)
  {
    if s == [] then []
    else
      assert s == s[..|s| - 1] + [s[|s| - 1]];
      InsertByTime(s[|s| - 1], SortNewestFirst(s[..|s| - 1]))
  }

  lemma {:induction false} SortNewestFirstSorted(s: seq<Item>)
    ensures NewestFirstOrder(SortNewestFirst(s))
    decreases |s|
  {
    if s != [] {
      SortNewestFirstSorted(s[..|s| - 1]);
      InsertByTimeSorted(s[|s| - 1], SortNewestFirst(s[..|s| - 1]));
    }
  }

  /** `selectedDayItems`: the entries of the selected day outside the trash, newest first. */
  function SelectedDayItems(items: seq<Item>, day: int): seq<Item>
  {
    SortNewestFirst(DayEntries(items, day))
  }

  /**
   * The selected day's list holds exactly the entries outside the trash written that day, each as
   * often as in `items`, newest first.
   */
  lemma SelectedDayItemsFacts(items: seq<Item>, day: int)
    ensures NewestFirstOrder(SelectedDayItems(items, day))
    ensures multiset(SelectedDayItems(items, day)) == multiset(DayEntries(items, day))
    ensures forall item :: item in SelectedDayItems(items, day) <==> item in items && !item.isTrashed && Day(item) == day
  {
    SortNewestFirstSorted(DayEntries(items, day));
    forall item ensures item in SelectedDayItems(items, day) <==> item in DayEntries(items, day) {
      assert item in SelectedDayItems(items, day) <==> item in multiset(SelectedDayItems(items, day));
    }
  }

  // ---------------------------------------------------------------- emotions

  /** `selectedDayEmotion`: the most frequent recorded emotion of the selected day, or "-". */
  function SelectedDayEmotion(items: seq<Item>, day: int): string
  {
    MostFrequent(RecordedEmotions(SelectedDayItems(items, day)), "-")
  }

  /** `mostFrequentEmotion`: the most frequent recorded emotion of the displayed month, or "-". */
  function MostFrequentEmotion(items: seq<Item>, month: int): string
  {
    MostFrequent(RecordedEmotions(MonthEntries(items, month)), "-")
  }

  /**
   * With no recorded emotion the answer is "-"; otherwise it is a recorded emotion that occurs at
   * least as often as any other.
   */
  lemma SelectedDayEmotionFacts(items: seq<Item>, day: int)
    ensures var tags := RecordedEmotions(SelectedDayItems(items, day));
      && (tags == [] ==> SelectedDayEmotion(items, day) == "-")
      && (tags != [] ==> SelectedDayEmotion(items, day) in tags)
      && forall t :: t in tags ==> Count(tags, t) <= Count(tags, SelectedDayEmotion(items, day))
  {
    MostFrequentFacts(RecordedEmotions(SelectedDayItems(items, day)), "-");
  }

  lemma MostFrequentEmotionFacts(items: seq<Item>, month: int)
    ensures var tags := RecordedEmotions(MonthEntries(items, month));
      && (tags == [] ==> MostFrequentEmotion(items, month) == "-")
      && (tags != [] ==> MostFrequentEmotion(items, month) in tags)
      && forall t :: t in tags ==> Count(tags, t) <= Count(tags, MostFrequentEmotion(items, month))
  {
    MostFrequentFacts(RecordedEmotions(MonthEntries(items, month)), "-");
  }

  /** A month whose entries carry only the placeholder tag, or none, has no dominant emotion. */
  lemma NoEmotionMonth(items: seq<Item>, month: int)
    requires forall item, t :: item in MonthEntries(items, month) && t in item.emotionTags ==> t == PlaceholderTag
    ensures MostFrequentEmotion(items, month) == "-"
  {
    NoRecordedEmotions(MonthEntries(items, month));
    MostFrequentFacts(RecordedEmotions(MonthEntries(items, month)), "-");
  }

  // ---------------------------------------------------------------- month figures

  /** `monthlyActiveDays`: the number of distinct days among the displayed month's entries. */
  function MonthlyActiveDays(items: seq<Item>, month: int): nat
  {
    |Elements(DaysOf(MonthEntries(items, month)))|
  }

  /**
   * The count of active days never exceeds the number of entries, is positive exactly when the
   * month has entries, and counts the days of the month's entries.
   */
  lemma MonthlyActiveDaysFacts(items: seq<Item>, month: int)
    ensures MonthlyActiveDays(items, month) <= |MonthEntries(items, month)|
    ensures MonthlyActiveDays(items, month) == 0 <==> MonthEntries(items, month) == []
    ensures forall day :: day in Elements(DaysOf(MonthEntries(items, month))) <==>
      exists item :: item in MonthEntries(items, month) && Day(item) == day
  {
    var entries := MonthEntries(items, month);
    ElementsCard(DaysOf(entries));
    forall day ensures day in DaysOf(entries) <==> exists item :: item in entries && Day(item) == day {
      if exists item :: item in entries && Day(item) == day {
        var item :| item in entries && Day(item) == day;
        var i :| 0 <= i < |entries| && entries[i] == item;
        assert DaysOf(entries)[i] == day;
      }
    }
  }

  /** A day with entries of the month lies in the month. */
  lemma MonthlyActiveDaysInMonth(items: seq<Item>, month: int, day: int)
    requires day in Elements(DaysOf(MonthEntries(items, month)))
    ensures InMonth(day, month)
  {
    MonthlyActiveDaysFacts(items, month);
    var item :| item in MonthEntries(items, month) && Day(item) == day;
  }

  // ---------------------------------------------------------------- streak

  /** The earliest of `days`, or `fallback` for none. */
  function Earliest(days: seq<int>, fallback: int): (r: int)
    ensures forall i :: 0 <= i < |days| ==> r <= days[i]
    ensures days == [] ==> r == fallback
  {
    if days == [] then fallback
    else
      var rest := Earliest(days[..|days| - 1], days[|days| - 1]);
      if rest < days[|days| - 1] then rest else days[|days| - 1]
  }

  /**
   * `currentStreak`: counts back from today while the day has an entry outside the trash, so the
   * result is the length of the streak ending today, and 0 when today has no entry (a streak ending
   * yesterday counts 0).
   */
  method CurrentStreak(items: seq<Item>, today: int) returns (streak: nat)
    ensures StreakEndsAt(ActiveDays(items), today, streak)
    ensures streak == 0 <==> today !in ActiveDays(items)
  {
    var days := DaysOf(Active(items));
    ActiveDaysAreDaysOf(items);
    var daySet := Elements(days);
    var earliest := Earliest(days, today);
    streak := 0;
    var cursor := today;
    while cursor in daySet
      invariant cursor == today - streak
      invariant forall day :: cursor < day <= today ==> day in daySet
      decreases cursor - earliest
    {
      streak := streak + 1;
      cursor := cursor - 1;
    }
    assert forall day :: day in daySet <==> day in ActiveDays(items);
  }

  // ---------------------------------------------------------------- tone copy

  const PendingCopy: string := "감정 태그가 더 쌓이면 흐름을 보여줄게요"
  const BrightCopy: string := "밝은 에너지가 자주 등장한 달이에요"
  const TenseCopy: string := "긴장감이 높았던 달로 보여요"
  const StressCopy: string := "스트레스 신호가 자주 포착됐어요"
  const RecoveryCopy: string := "감정 회복이 필요한 흐름이 보여요"
  const SteadyCopy: string := "감정 패턴이 안정적으로 쌓이고 있어요"

  const BrightWords: seq<string> := ["행복", "기쁨", "설렘"]
  const TenseWords: seq<string> := ["불안", "걱정"]
  const StressWords: seq<string> := ["분노", "짜증"]
  const LowWords: seq<string> := ["슬픔", "우울"]

  /** The `switch` of `monthlyToneCopy`: its cases are tried in order. */
  function ToneCopy(v: string): string
  {
    if v == "-" || v == PlaceholderTag then PendingCopy
    else if ContainsAny(v, BrightWords) then BrightCopy
    else if ContainsAny(v, TenseWords) then TenseCopy
    else if ContainsAny(v, StressWords) then StressCopy
    else if ContainsAny(v, LowWords) then RecoveryCopy
    else SteadyCopy
  }

  /** `monthlyToneCopy`. */
  function MonthlyToneCopy(items: seq<Item>, month: int): string
  {
    ToneCopy(MostFrequentEmotion(items, month))
  }

  /**
   * Each copy is chosen exactly when its group is the first that matches: the six copies are
   * distinct, so the result tells which case was taken.
   */
  lemma ToneCopyFirstMatch(v: string)
    ensures ToneCopy(v) == PendingCopy <==> v == "-" || v == PlaceholderTag
    ensures ToneCopy(v) == BrightCopy <==> v != "-" && v != PlaceholderTag && ContainsAny(v, BrightWords)
    ensures ToneCopy(v) == TenseCopy <==>
      v != "-" && v != PlaceholderTag && !ContainsAny(v, BrightWords) && ContainsAny(v, TenseWords)
    ensures ToneCopy(v) == StressCopy <==>
      v != "-" && v != PlaceholderTag && !ContainsAny(v, BrightWords + TenseWords) && ContainsAny(v, StressWords)
    ensures ToneCopy(v) == RecoveryCopy <==>
      v != "-" && v != PlaceholderTag && !ContainsAny(v, BrightWords + TenseWords + StressWords) && ContainsAny(v, LowWords)
    ensures ToneCopy(v) == SteadyCopy <==>
      v != "-" && v != PlaceholderTag && !ContainsAny(v, BrightWords + TenseWords + StressWords + LowWords)
  {
    ContainsAnyConcat(v, BrightWords, TenseWords);
    ContainsAnyConcat(v, BrightWords + TenseWords, StressWords);
    ContainsAnyConcat(v, BrightWords + TenseWords + StressWords, LowWords);
  }

  /** A month without a recorded emotion asks for more tags. */
  lemma ToneWithoutEmotions(items: seq<Item>, month: int)
    requires RecordedEmotions(MonthEntries(items, month)) == []
    ensures MonthlyToneCopy(items, month) == PendingCopy
  {
    MostFrequentEmotionFacts(items, month);
  }

  // ---------------------------------------------------------------- markers

  /** The marker colours of `markerColor(for:)`, by name. */
  datatype Marker = Clear | Warm | Blue | Red | Teal | Green | Accent

  const WarmWords: seq<string> := ["행복", "기쁨", "설렘", "감사"]
  const BlueWords: seq<string> := ["슬픔", "우울", "허무"]
  const RedWords: seq<string> := ["분노", "짜증", "화"]
  const TealWords: seq<string> := ["불안", "걱정", "두려움"]
  const GreenWords: seq<string> := ["평온", "차분", "안정"]

  /** The colour groups of `markerColor(for:)`, tried in order. */
  function MarkerFor(primary: string): (m: Marker)
    ensures m != Clear
  {
    if ContainsAny(primary, WarmWords) then Warm
    else if ContainsAny(primary, BlueWords) then Blue
    else if ContainsAny(primary, RedWords) then Red
    else if ContainsAny(primary, TealWords) then Teal
    else if ContainsAny(primary, GreenWords) then Green
    else Accent
  }

  /** `markerColor(for:)`: clear for a day without entries, else the colour of its most frequent emotion. */
  function MarkerColor(items: seq<Item>, day: int): Marker
  {
    if DayEntries(items, day) == [] then Clear
    else MarkerFor(MostFrequent(RecordedEmotions(DayEntries(items, day)), ""))
  }

  /** Each colour is chosen exactly when its group is the first whose word occurs in the emotion. */
  lemma MarkerForFirstMatch(p: string)
    ensures MarkerFor(p) != Clear
    ensures MarkerFor(p) == Warm <==> ContainsAny(p, WarmWords)
    ensures MarkerFor(p) == Blue <==> !ContainsAny(p, WarmWords) && ContainsAny(p, BlueWords)
    ensures MarkerFor(p) == Red <==> !ContainsAny(p, WarmWords + BlueWords) && ContainsAny(p, RedWords)
    ensures MarkerFor(p) == Teal <==> !ContainsAny(p, WarmWords + BlueWords + RedWords) && ContainsAny(p, TealWords)
    ensures MarkerFor(p) == Green <==>
      !ContainsAny(p, WarmWords + BlueWords + RedWords + TealWords) && ContainsAny(p, GreenWords)
    ensures MarkerFor(p) == Accent <==> !ContainsAny(p, WarmWords + BlueWords + RedWords + TealWords + GreenWords)
  {
    ContainsAnyConcat(p, WarmWords, BlueWords);
    ContainsAnyConcat(p, WarmWords + BlueWords, RedWords);
    ContainsAnyConcat(p, WarmWords + BlueWords + RedWords, TealWords);
    ContainsAnyConcat(p, WarmWords + BlueWords + RedWords + TealWords, GreenWords);
  }

  /** A day has no entries outside the trash exactly when every entry written that day is in the trash. */
  lemma DayEntriesEmpty(items: seq<Item>, day: int)
    ensures DayEntries(items, day) == [] <==> forall item :: item in items && Day(item) == day ==> item.isTrashed
  {
    var entries := DayEntries(items, day);
    if entries != [] {
      assert entries[0] in entries;
    }
  }

  /** The marker is clear exactly on days without entries outside the trash. */
  lemma MarkerClearIff(items: seq<Item>, day: int)
    ensures MarkerColor(items, day) == Clear <==> forall item :: item in items && Day(item) == day ==> item.isTrashed
  {
    DayEntriesEmpty(items, day);
  }

  /** A day whose entries record no emotion gets the accent colour. */
  lemma MarkerWithoutEmotions(items: seq<Item>, day: int)
    requires DayEntries(items, day) != [] && RecordedEmotions(DayEntries(items, day)) == []
    ensures MarkerColor(items, day) == Accent
  {
    MostFrequentFacts(RecordedEmotions(DayEntries(items, day)), "");
    MarkerForNoEmotion();
  }

  /** The fallback primary emotion "" matches no group. */
  lemma MarkerForNoEmotion()
    ensures MarkerFor("") == Accent
  {
    ContainsAnyEmpty(WarmWords);
    ContainsAnyEmpty(BlueWords);
    ContainsAnyEmpty(RedWords);
    ContainsAnyEmpty(TealWords);
    ContainsAnyEmpty(GreenWords);
  }

  // ---------------------------------------------------------------- the view model

  class CalendarViewModel {
    /** The date picked on the grid. */
    var selectedDate: Instant
    /** The month shown, as a month index; only the swipe and the buttons change it. */
    var displayedMonth: int
    /** The entries injected by the view's query. */
    var allItems: seq<Item>

    /** Both the selected date and the displayed month start at the current time. */
    constructor(now: Instant, currentMonth: int)
      requires InMonth(now.day, currentMonth)
      ensures selectedDate == now && displayedMonth == currentMonth && allItems == []
    {
      selectedDate := now;
      displayedMonth := currentMonth;
      allItems := [];
    }

    /** `updateItems(_:)`. */
    method UpdateItems(items: seq<Item>)
      modifies this
      ensures allItems == items
      ensures selectedDate == old(selectedDate) && displayedMonth == old(displayedMonth)
    {
      allItems := items;
    }

    /** `moveMonth(by:)`. */
    method MoveMonth(offset: int)
      modifies this
      ensures displayedMonth == AddMonths(old(displayedMonth), offset)
      ensures selectedDate == old(selectedDate) && allItems == old(allItems)
    {
      displayedMonth := AddMonths(displayedMonth, offset);
    }

    /** `goToToday()`. */
    method GoToToday(now: Instant, currentMonth: int)
      requires InMonth(now.day, currentMonth)
      modifies this
      ensures selectedDate == now && displayedMonth == currentMonth && InMonth(selectedDate.day, displayedMonth)
      ensures allItems == old(allItems)
    {
      selectedDate := now;
      displayedMonth := currentMonth;
    }

    /** `selectDate(_:)`. */
    method SelectDate(date: Instant)
      modifies this
      ensures selectedDate == date
      ensures displayedMonth == old(displayedMonth) && allItems == old(allItems)
    {
      selectedDate := date;
    }

    /** `activeItems`. */
    function ActiveItems(): seq<Item>
      reads this
    {
      Active(allItems)
    }

    /** `monthItems`. */
    function MonthItems(): seq<Item>
      reads this
    {
      MonthEntries(allItems, displayedMonth)
    }

    /** `selectedDayItems`. */
    function SelectedItems(): seq<Item>
      reads this
    {
      SelectedDayItems(allItems, selectedDate.day)
    }
  }
}
