/** The diary entry and the selections over entries that the view models share. */
module Items {
  import opened Wrappers
  import opened Seqs
  import opened Dates
  import opened EmotionTagNormalizer

  type Bytes = seq<bv8>

  /** `Item`, the stored diary entry. */
  datatype Item = Item(
    timestamp: Instant,
    photoData: Option<Bytes>,
    tags: seq<string>,
    emotionTags: seq<string>,
    title: Option<string>,
    content: Option<string>,
    reflectionPrompt: Option<string>,
    autoSummary: Option<string>,
    weather: Option<string>,
    mood: Option<string>,
    isTrashed: bool)

  function Day(item: Item): int
  {
    item.timestamp.day
  }

  /** `filter { !$0.isTrashed }`. */
  function Active(items: seq<Item>): seq<Item>
  {
    Filter(items, (item: Item) => !item.isTrashed)
  }

  /**
   * The entries of month index `month` that are not in the trash: their timestamp lies from the
   * start of the month's first day up to, not including, the start of the next month.
   */
  function MonthEntries(items: seq<Item>, month: int): seq<Item>
  {
    Filter(items, (item: Item) => !item.isTrashed && InMonth(Day(item), month))
  }

  /** `dayEntries(for:)`: the entries of one day that are not in the trash. */
  function DayEntries(items: seq<Item>, day: int): seq<Item>
  {
    Filter(items, (item: Item) => !item.isTrashed && Day(item) == day)
  }

  /** The days on which some entry outside the trash was written. */
  function ActiveDays(items: seq<Item>): set<int>
  {
    set item | item in items && !item.isTrashed :: Day(item)
  }

  function DaysOf(items: seq<Item>): (r: seq<int>)
    ensures |r| == |items| && forall i :: 0 <= i < |items| ==> r[i] == Day(items[i])
  {
    seq(|items|, i requires 0 <= i < |items| => Day(items[i]))
  }

  /**
   * `k` days counting back from `start` are all in `days`, and the day before them is not: the
   * streak ending at `start` is exactly `k` days long.
   */
  predicate StreakEndsAt(days: set<int>, start: int, k: nat)
  {
    (forall day :: start - k < day <= start ==> day in days) && start - k !in days
  }

  /** The days of the entries outside the trash are exactly the active days. */
  lemma ActiveDaysAreDaysOf(items: seq<Item>)
    ensures forall y :: y in ActiveDays(items) <==> y in DaysOf(Active(items))
  {
    var active := Active(items);
    forall y ensures y in ActiveDays(items) <==> y in DaysOf(active) {
      if y in DaysOf(active) {
        var i :| 0 <= i < |active| && DaysOf(active)[i] == y;
        assert active[i] in active;
      }
      if y in ActiveDays(items) {
        var item :| item in items && !item.isTrashed && Day(item) == y;
        assert item in active;
        var i :| 0 <= i < |active| && active[i] == item;
        assert DaysOf(active)[i] == y;
      }
    }
  }

  /** At most one length fits the definition of the streak ending at a given day. */
  lemma StreakLengthUnique(days: set<int>, start: int, k1: nat, k2: nat)
    requires StreakEndsAt(days, start, k1) && StreakEndsAt(days, start, k2)
    ensures k1 == k2
  {
  }

  /** An entry outside the trash belongs to the entries of exactly one month. */
  lemma MonthEntriesPartition(items: seq<Item>, item: Item, m1: int, m2: int)
    requires item in MonthEntries(items, m1) && item in MonthEntries(items, m2)
    ensures m1 == m2 && item in items && !item.isTrashed
  {
    MonthsDisjoint(Day(item), m1, m2);
  }

  /** `flatMap(\.emotionTags)`. */
  function EmotionTagsOf(items: seq<Item>): seq<string>
  {
    if items == [] then [] else EmotionTagsOf(items[..|items| - 1]) + items[|items| - 1].emotionTags
  }

  /** The tag the analyser stores when it found no emotion. */
  const PlaceholderTag: string := "감정기록"

  /**
   * `EmotionTagNormalizer.normalizeAll(items.flatMap(\.emotionTags).filter { $0 != "감정기록" })`:
   * the normalised emotion tags of the entries, one per occurrence.
   */
  function RecordedEmotions(items: seq<Item>): seq<string>
  {
    NormalizeAll(Filter(EmotionTagsOf(items), t => t != PlaceholderTag))
  }

  /** Each recorded emotion is the normalisation of an emotion tag of one of the entries. */
  lemma {:induction false} EmotionTagsOfHas(items: seq<Item>, t: string)
    requires t in EmotionTagsOf(items)
    ensures exists item :: item in items && t in item.emotionTags
    decreases |items|
  {
    var init := items[..|items| - 1];
    var last := items[|items| - 1];
    if t in last.emotionTags {
      assert last in items;
    } else {
      assert t in EmotionTagsOf(init);
      EmotionTagsOfHas(init, t);
      var item :| item in init && t in item.emotionTags;
      assert item in items;
    }
  }

  lemma RecordedEmotionsFrom(items: seq<Item>, e: string)
    requires e in RecordedEmotions(items)
    ensures exists item, t :: item in items && t in item.emotionTags && t != PlaceholderTag && Normalize(t) == Some(e)
  {
    var tags := Filter(EmotionTagsOf(items), t => t != PlaceholderTag);
    var i :| 0 <= i < |RecordedEmotions(items)| && RecordedEmotions(items)[i] == e;
    CompactMapFrom(tags, Normalize, i);
    var j :| 0 <= j < |tags| && Normalize(tags[j]) == Some(e);
    assert tags[j] in tags;
    EmotionTagsOfHas(items, tags[j]);
  }

  /** With no emotion tags other than the placeholder, nothing is recorded. */
  lemma {:induction false} NoRecordedEmotions(items: seq<Item>)
    requires forall item, t :: item in items && t in item.emotionTags ==> t == PlaceholderTag
    ensures RecordedEmotions(items) == []
  {
    var all := EmotionTagsOf(items);
    forall k | 0 <= k < |all| ensures all[k] == PlaceholderTag {
      assert all[k] in all;
      EmotionTagsOfHas(items, all[k]);
    }
    FilterNone(all, t => t != PlaceholderTag);
  }
}
