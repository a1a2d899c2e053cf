# diary — a verified model of the reflection pipeline and the entry aggregations

This project models the logic core of the `diary` iOS app in Dafny:

- the local reflection of a diary entry (`ReflectionAnalyzer`): cleaning, sentence splitting, the
  ordered keyword-rule table that yields emotion tags, the mood tag, and the fixed three-line
  summary;
- the emotion-label vocabulary (`EmotionTagNormalizer`, `MoodEmotionMapper`);
- the arbitration between the local analysis and the on-device language model
  (`ReflectionAnalysisService`): tokenisation, the quality score, JSON-object extraction, the
  summary clean-up, the choice of the best candidate and the adoption threshold of 0.2;
- the view models' state and aggregations over entries: streaks, weekday and time-of-day
  histograms, top-k tag tallies, month filters, the calendar's 42-cell grid and its
  point-to-date mapping, the month swipe, the search filter, the editor's dirty tracking, tag
  parsing and field writes;
- the weather-condition-code mapping of `WeatherService` (the OpenWeatherMap condition groups).

The local analyser does what its code does: there is no frequency-based salience scoring, no
Jaccard sentence selection and no single-line summary; the summary is always three lines, and
the local tag list is neither capped nor normalised.

Modules, one per source file plus shared ones:

| module | file | models |
|---|---|---|
| `Wrappers`, `Seqs`, `Text` | wrappers.dfy, seqs.dfy, text.dfy | `Option`; Swift's `filter`/`compactMap`/ordered dedup; `trimmingCharacters`, `components(separatedBy:)`, `joined`, `replacingOccurrences`, `contains`, `lowercased` |
| `Dates` | dates.dfy | `Date` as a day number and a second of the day; Gregorian months as month indices; weekday and hour |
| `Items` | items.dfy | `Item` and the filters the view models share (outside the trash, in a month, on a day, recorded emotions) |
| `Tally` | tally.dfy | `Dictionary(grouping:)` followed by `sorted { count > }` and `prefix(k)` |
| `ReflectionAnalyzer` | reflection_analyzer.dfy | Utils/ReflectionAnalyzer.swift |
| `EmotionTagNormalizer` | emotion_tag_normalizer.dfy | Utils/EmotionTagNormalizer.swift |
| `MoodEmotionMapper` | mood_emotion_mapper.dfy | Utils/MoodEmotionMapper.swift |
| `ReflectionAnalysisService` | reflection_analysis_service.dfy | Services/ReflectionAnalysisService.swift |
| `WeatherService` | weather_service.dfy | Services/WeatherService.swift (the mapping and the fallbacks) |
| `StatsViewModel` | stats_view_model.dfy | ViewModels/StatsViewModel.swift |
| `CalendarViewModel` | calendar_view_model.dfy | ViewModels/CalendarViewModel.swift, and the copies of its computations in Views/CalendarView.swift |
| `CalendarView` | calendar_view.dfy | Views/CalendarView.swift: grid, `dateAt`, swipe and gesture state |
| `SearchViewModel` | search_view_model.dfy | ViewModels/SearchViewModel.swift |
| `DiaryEditorViewModel` | diary_editor_view_model.dfy | ViewModels/DiaryEditorViewModel.swift |

The view models are classes whose fields the methods reassign. The loops of the source are
methods with loop invariants, each proved against a specification function:

- `ReflectionAnalyzer.Analyze` (the rule loop);
- `EmotionTagNormalizer.NormalizeList` (the `seen`/`result` loop with its early `break`);
- `ReflectionAnalysisService.SanitizeLine` and `OnDeviceAnalyze` (the candidate loop);
- `StatsViewModel.StreakInfo`, `DayCounts` and `TimeSlots`;
- `CalendarViewModel.CurrentStreak`.

The current time, the on-device model's responses and its JSON decoder are parameters; the random
prompt is a nondeterministic choice among the eligible prompts.

## Model

| member | source | states |
|---|---|---|
| ReflectionAnalyzer.Prompt | Utils/ReflectionAnalyzer.swift:28-35 | the prompt is one of the fixed prompts and differs from the excluded one when one is given |
| ReflectionAnalyzer.RuleTagsDistinct | Utils/ReflectionAnalyzer.swift:17-26 | the eight rules carry eight distinct tags |
| ReflectionAnalyzer.RuleKeywordsNonEmpty | Utils/ReflectionAnalyzer.swift:17-26 | no rule keyword is empty, so no keyword matches empty text |
| ReflectionAnalyzer.MoodTagTable | Utils/ReflectionAnalyzer.swift:64-79 | 🥰😊🥳 → 긍정, 😔 → 침잠, 😡 → 격양, 😴 → 저에너지, 🤯 → 과부하, and a mood has a tag iff it is one of those seven |
| ReflectionAnalyzer.MoodTagIsNoRuleTag | Utils/ReflectionAnalyzer.swift:17-26 | a mood tag never coincides with a rule tag, so the mood tag is never removed by the dedup |
| ReflectionAnalyzer.SentencesWellFormed | Utils/ReflectionAnalyzer.swift:42-45 | every sentence is non-empty, trimmed and contains none of `.!?。！？` |
| ReflectionAnalyzer.TrimmedPieceIsSentence | Utils/ReflectionAnalyzer.swift:42-45 | a non-blank piece between terminators, once trimmed, is a well-formed sentence |
| ReflectionAnalyzer.SentencesEmptyIff | Utils/ReflectionAnalyzer.swift:38-45 | the content has no sentence iff every character is whitespace or a terminator |
| ReflectionAnalyzer.NoSentenceInBlank | Utils/ReflectionAnalyzer.swift:38-45 | content made only of whitespace and terminators yields no sentence |
| ReflectionAnalyzer.SentenceAroundText | Utils/ReflectionAnalyzer.swift:38-45 | content holding any other character yields at least one sentence |
| ReflectionAnalyzer.BlankCleansToEmpty | Utils/ReflectionAnalyzer.swift:38-40 | whitespace-only content cleans to the empty text |
| ReflectionAnalyzer.Matching | Utils/ReflectionAnalyzer.swift:47-52 | the rule tags found are at most one per rule |
| ReflectionAnalyzer.Analyze | Utils/ReflectionAnalyzer.swift:37-62 | the loop over the rule table, the mood tag and the dedup compute exactly the local analysis `LocalAnalysis` |
| ReflectionAnalyzer.MatchingSnoc | Utils/ReflectionAnalyzer.swift:47-52 | one more rule appends its tag exactly when one of its keywords occurs |
| ReflectionAnalyzer.MatchingInTable | Utils/ReflectionAnalyzer.swift:47-52 | every found tag is a rule tag |
| ReflectionAnalyzer.MatchingInOrder | Utils/ReflectionAnalyzer.swift:47-52 | found tags keep the order of the rule table |
| ReflectionAnalyzer.MatchingFacts | Utils/ReflectionAnalyzer.swift:47-52 | found tags are distinct, and a rule's tag is found iff one of its keywords is a substring of the cleaned text |
| ReflectionAnalyzer.MatchingFactsStep | Utils/ReflectionAnalyzer.swift:47-52 | the two facts above carry over from a prefix of the table to one rule more |
| ReflectionAnalyzer.LastTagIsNew | Utils/ReflectionAnalyzer.swift:47-52 | the last rule's tag is not among the tags found by the earlier rules |
| ReflectionAnalyzer.MatchingEmpty | Utils/ReflectionAnalyzer.swift:47-52 | empty text matches no rule |
| ReflectionAnalyzer.BlankContent | Utils/ReflectionAnalyzer.swift:38-45 | whitespace-only content gives no sentence, the fixed "insufficient" summary, and only the mood tag if any |
| ReflectionAnalyzer.TagsNeedNoDedup | Utils/ReflectionAnalyzer.swift:58 | the detected tags are already distinct, so the dedup leaves them as they are |
| ReflectionAnalyzer.AnalysisTags | Utils/ReflectionAnalyzer.swift:47-58 | the tags are distinct, at most nine, and contain a rule's tag iff one of its keywords occurs in the cleaned text |
| ReflectionAnalyzer.MatchingPlusIff | Utils/ReflectionAnalyzer.swift:47-56 | appending non-rule tags keeps the rule-tag iff |
| ReflectionAnalyzer.AnalysisTagsOrder | Utils/ReflectionAnalyzer.swift:47-58 | the tags follow the rule order with the mood tag last; without a mood tag all tags are rule tags |
| ReflectionAnalyzer.AnalysisTagsFrom | Utils/ReflectionAnalyzer.swift:47-58 | every tag is a rule tag or the mood tag |
| ReflectionAnalyzer.AnalysisTagsOneLine | Utils/ReflectionAnalyzer.swift:47-58 | no tag holds a line break |
| ReflectionAnalyzer.HitCount | Utils/ReflectionAnalyzer.swift:98-110 | the hit count of a sentence is at most the number of issue keywords |
| ReflectionAnalyzer.PrimaryIssueSentence | Utils/ReflectionAnalyzer.swift:98-110 | the primary sentence is one of the sentences and no sentence scores more issue hits |
| ReflectionAnalyzer.IssueFallbackIff | Utils/ReflectionAnalyzer.swift:142-163 | the issue line is the generic fallback iff no issue topic occurs in the joined sentences |
| ReflectionAnalyzer.IssueSummaryIsListed | Utils/ReflectionAnalyzer.swift:142-163 | the issue line is one of the six fixed lines |
| ReflectionAnalyzer.IssueLinesOneLine | Utils/ReflectionAnalyzer.swift:142-163 | none of the six fixed issue lines holds a line break |
| ReflectionAnalyzer.IssueSummaryOneLine | Utils/ReflectionAnalyzer.swift:142-163 | the issue line holds no line break |
| ReflectionAnalyzer.Clipped | Utils/ReflectionAnalyzer.swift:183-186 | text within the limit is returned unchanged; longer text becomes its first `limit` characters followed by "..." |
| ReflectionAnalyzer.ClippedBound | Utils/ReflectionAnalyzer.swift:183-186 | the clipped text is at most `limit + 3` long and adds no character except '.' |
| ReflectionAnalyzer.ClippedOneLine | Utils/ReflectionAnalyzer.swift:183-186 | clipping a line keeps it one line |
| ReflectionAnalyzer.ThemesAreListed | Utils/ReflectionAnalyzer.swift:112-127 | every theme is one of the four fixed theme labels |
| ReflectionAnalyzer.ThemesIff | Utils/ReflectionAnalyzer.swift:112-128 | a theme is listed iff one of its keywords occurs in the joined sentences; no theme is listed twice, so the ordered dedup keeps the themes unchanged |
| ReflectionAnalyzer.InThemes | Utils/ReflectionAnalyzer.swift:112-127 | a text is among the themes iff it is the label of a check whose keywords occur |
| ReflectionAnalyzer.ThemesDistinct | Utils/ReflectionAnalyzer.swift:112-127 | the themes hold no duplicate |
| ReflectionAnalyzer.ThemeLabelsOneLine | Utils/ReflectionAnalyzer.swift:114-127 | no theme label holds a line break |
| ReflectionAnalyzer.ContextFixedLinesOneLine | Utils/ReflectionAnalyzer.swift:129-139 | the fixed context texts hold no line break |
| ReflectionAnalyzer.ContextLineOneLine | Utils/ReflectionAnalyzer.swift:129-139 | the context line built from one-line themes is one line |
| ReflectionAnalyzer.ContextSentenceOneLine | Utils/ReflectionAnalyzer.swift:112-140 | the context sentence holds no line break |
| ReflectionAnalyzer.InferredEmotionLineOneLine | Utils/ReflectionAnalyzer.swift:165-181 | the emotion line built from one-line tags is one line |
| ReflectionAnalyzer.HeadsOneLine | Utils/ReflectionAnalyzer.swift:91-95 | the three line heads hold no line break |
| ReflectionAnalyzer.InsufficientIsThreeLines | Utils/ReflectionAnalyzer.swift:82-84 | the "insufficient content" summary splits into its three fixed lines |
| ReflectionAnalyzer.OneLineConcat | Utils/ReflectionAnalyzer.swift:91-95 | joining two one-line texts gives one line |
| ReflectionAnalyzer.ThreeHeadedLines | Utils/ReflectionAnalyzer.swift:91-95 | three one-line parts joined by `\n` split back into exactly those three headed lines |
| ReflectionAnalyzer.BuildSummaryLines | Utils/ReflectionAnalyzer.swift:81-96 | for sentences, the summary is exactly three lines headed "1. 핵심 이슈: ", "2. 상황 맥락: ", "3. 감정 흐름: ", and the third is the first tag when there is one |
| ReflectionAnalyzer.SummaryShape | Utils/ReflectionAnalyzer.swift:37-62 | every local summary is three headed lines; without sentences it is the fixed insufficient summary; otherwise the third line is the first tag when there is one |
| EmotionTagNormalizer.GroupsDisjoint | Utils/EmotionTagNormalizer.swift:10-26 | no English synonym belongs to two groups, so each maps to exactly one label |
| EmotionTagNormalizer.SadnessWordsAreOwn | Utils/EmotionTagNormalizer.swift:10-26 | the sadness synonyms belong to no earlier group |
| EmotionTagNormalizer.AngerWordsAreOwn | Utils/EmotionTagNormalizer.swift:10-26 | the anger synonyms belong to no earlier group |
| EmotionTagNormalizer.AnxietyWordsAreOwn | Utils/EmotionTagNormalizer.swift:10-26 | the anxiety synonyms belong to no earlier group |
| EmotionTagNormalizer.CalmWordsAreOwn | Utils/EmotionTagNormalizer.swift:10-26 | the calm synonyms belong to no earlier group |
| EmotionTagNormalizer.FocusWordsAreOwn | Utils/EmotionTagNormalizer.swift:10-26 | the focus synonyms belong to no earlier group |
| EmotionTagNormalizer.GratitudeWordsAreOwn | Utils/EmotionTagNormalizer.swift:10-26 | the gratitude synonyms belong to no earlier group |
| EmotionTagNormalizer.FatigueWordsAreOwn | Utils/EmotionTagNormalizer.swift:10-26 | the fatigue synonyms belong to no earlier group |
| EmotionTagNormalizer.SynonymsMapToLabel | Utils/EmotionTagNormalizer.swift:8-26 | a listed synonym, matched after trimming and lower-casing, maps to its group's Korean label |
| EmotionTagNormalizer.LookupFinds | Utils/EmotionTagNormalizer.swift:10-26 | the first-match lookup of a listed word returns its group's label |
| EmotionTagNormalizer.BlankIsDropped | Utils/EmotionTagNormalizer.swift:5-6 | empty or whitespace-only input maps to nil |
| EmotionTagNormalizer.NeutralIsDropped | Utils/EmotionTagNormalizer.swift:27-28 | "neutral" in any case maps to nil |
| EmotionTagNormalizer.UnknownIsKept | Utils/EmotionTagNormalizer.swift:29-30 | an unlisted input is returned trimmed with its original case |
| EmotionTagNormalizer.LookupMisses | Utils/EmotionTagNormalizer.swift:27-30 | a word in no group yields nil for "neutral" and the trimmed value otherwise |
| EmotionTagNormalizer.WordsStartAscii | Utils/EmotionTagNormalizer.swift:10-26 | every listed synonym starts with an ASCII letter |
| EmotionTagNormalizer.NonAsciiKeyIsKept | Utils/EmotionTagNormalizer.swift:29-30 | a label starting with a non-ASCII character, such as a Korean label, is kept |
| EmotionTagNormalizer.CanonicalIsFixed | Utils/EmotionTagNormalizer.swift:10-26 | each canonical label normalises to itself |
| EmotionTagNormalizer.NormalizeIdempotent | Utils/EmotionTagNormalizer.swift:4-32 | a result of `normalize` is non-empty, trimmed and normalises to itself |
| EmotionTagNormalizer.KeptValueIsFixed | Utils/EmotionTagNormalizer.swift:29-30 | a kept trimmed value normalises to itself |
| EmotionTagNormalizer.LookupResult | Utils/EmotionTagNormalizer.swift:10-30 | a lookup yields a canonical label or the input value |
| EmotionTagNormalizer.NormalizeAllConcat | Utils/EmotionTagNormalizer.swift:53-55 | `normalizeAll` distributes over concatenation |
| EmotionTagNormalizer.NormalizeAllLength | Utils/EmotionTagNormalizer.swift:53-55 | `normalizeAll` has one element per input whose `normalize` is non-nil |
| EmotionTagNormalizer.NormalizeAllFixed | Utils/EmotionTagNormalizer.swift:53-55 | every element of `normalizeAll` is non-empty, trimmed and a fixed point of `normalize` |
| EmotionTagNormalizer.NormalizeAllHas | Utils/EmotionTagNormalizer.swift:53-55 | every non-nil `normalize` of an input appears in `normalizeAll` |
| EmotionTagNormalizer.NormalizeList | Utils/EmotionTagNormalizer.swift:34-46 | the loop with its `seen` set and early `break` returns the first `max(limit, 1)` distinct normalised labels |
| EmotionTagNormalizer.NormalizeStep | Utils/EmotionTagNormalizer.swift:53-55 | one more input extends `normalizeAll` by its normalised label, if any |
| EmotionTagNormalizer.DistinctStep | Utils/EmotionTagNormalizer.swift:34-46 | one more input extends the distinct labels exactly when its label is new |
| EmotionTagNormalizer.StopEarly | Utils/EmotionTagNormalizer.swift:41-43 | breaking once the limit is reached gives the same result as reading all inputs |
| EmotionTagNormalizer.TakeOfPrefix | Utils/EmotionTagNormalizer.swift:34-46 | the distinct labels of a prefix of the input are a prefix of those of the whole input |
| EmotionTagNormalizer.DedupOrigin | Utils/EmotionTagNormalizer.swift:34-46 | every distinct label is `normalize` of some input |
| EmotionTagNormalizer.NormalizeListSpec | Utils/EmotionTagNormalizer.swift:34-46 | the list has no duplicates, keeps first-occurrence order, holds at most `limit` labels (one when `limit <= 0`), and each is `normalize` of some input |
| MoodEmotionMapper.Tags | Utils/MoodEmotionMapper.swift:3-9 | nil gives `[]`; a mood gives `[tag]` when it has a tag and `[]` otherwise |
| MoodEmotionMapper.TagTable | Utils/MoodEmotionMapper.swift:11-26 | 🥰😊🥳 → 기쁨, 😔 → 슬픔, 😡 → 분노, 😴 → 피로, 🤯 → 과부하 |
| MoodEmotionMapper.TagDefinedIff | Utils/MoodEmotionMapper.swift:11-26 | a mood has a tag iff it is one of those seven emoji, so 😐 has none |
| MoodEmotionMapper.TagIsNormalized | Utils/MoodEmotionMapper.swift:11-26 | every badge label is already a fixed point of the normaliser |
| ReflectionAnalysisService.TokensWellFormed | Services/ReflectionAnalysisService.swift:148-153 | every token has at least two characters, all alphanumeric and none upper-case |
| ReflectionAnalysisService.RepetitionPenalty | Services/ReflectionAnalysisService.swift:142 | the repetition penalty is `max(0, 1 - unique)`: at least both values and equal to one of them |
| ReflectionAnalysisService.RatioBounds | Services/ReflectionAnalysisService.swift:139-141 | the overlap and uniqueness ratios lie in [0, 1], positive when the count is |
| ReflectionAnalysisService.QualityScoreRange | Services/ReflectionAnalysisService.swift:133-146 | the score is −999 without tokens and otherwise lies in (−0.65, 1.6] |
| ReflectionAnalysisService.FirstIndexOf | Services/ReflectionAnalysisService.swift:156 | the first index of a character, or nil iff it does not occur |
| ReflectionAnalysisService.LastIndexOf | Services/ReflectionAnalysisService.swift:156 | the last index of a character, or nil iff it does not occur |
| ReflectionAnalysisService.ExtractJSONObjectAsWritten | Services/ReflectionAnalysisService.swift:155-160 | as written, defined only when the first `{` precedes the last `}`: nil iff a brace is missing, otherwise a slice from `{` to `}` |
| ReflectionAnalysisService.ReversedBracesTrap | Services/ReflectionAnalysisService.swift:155-160 | `"}{"` passes the guard but its slice bounds are reversed |
| ReflectionAnalysisService.ExtractJSONObject | Services/ReflectionAnalysisService.swift:155-160 | nil iff a brace is missing or the braces are reversed; otherwise a text starting with `{` and ending with `}` |
| ReflectionAnalysisService.ExtractAgrees | Services/ReflectionAnalysisService.swift:155-160 | wherever the code as written is defined, the corrected extraction returns the same |
| ReflectionAnalysisService.FirstIndexAtStart | Services/ReflectionAnalysisService.swift:156 | a text starting with `c` has its first `c` at 0 |
| ReflectionAnalysisService.LastIndexAtEnd | Services/ReflectionAnalysisService.swift:156 | a text ending with `c` has its last `c` at the end |
| ReflectionAnalysisService.ExtractIsOutermostSlice | Services/ReflectionAnalysisService.swift:155-160 | the object is the slice from the first `{` through the last `}` of the text |
| ReflectionAnalysisService.ExtractIdempotent | Services/ReflectionAnalysisService.swift:155-160 | extracting from an extracted object returns it unchanged |
| ReflectionAnalysisService.SanitizeLine | Services/ReflectionAnalysisService.swift:113-120 | the loop over the banned fragments computes the sanitised line |
| ReflectionAnalysisService.RemoveFragmentsChars | Services/ReflectionAnalysisService.swift:115-117 | removing fragments introduces no character |
| ReflectionAnalysisService.RemoveFragmentsAbsent | Services/ReflectionAnalysisService.swift:115-117 | removing fragments that do not occur changes nothing |
| ReflectionAnalysisService.SanitizedShape | Services/ReflectionAnalysisService.swift:113-120 | the sanitised line has no leading or trailing whitespace and adds no character except a space |
| ReflectionAnalysisService.SanitizedFixedPoint | Services/ReflectionAnalysisService.swift:113-120 | a trimmed line without banned fragments or double spaces is left unchanged |
| ReflectionAnalysisService.RefinedIsOneLine | Services/ReflectionAnalysisService.swift:103-120 | the refined summary holds no line break and has no leading or trailing whitespace |
| ReflectionAnalysisService.TrimTags | Services/ReflectionAnalysisService.swift:71-74 | at most three candidate tags are kept |
| ReflectionAnalysisService.TrimTagsShape | Services/ReflectionAnalysisService.swift:71-74 | the kept tags are the trimmed non-empty tags, in order |
| ReflectionAnalysisService.CandidateWellFormed | Services/ReflectionAnalysisService.swift:61-76 | a candidate has a non-empty one-line summary and at most three trimmed non-empty tags |
| ReflectionAnalysisService.CandidatesWellFormed | Services/ReflectionAnalysisService.swift:57-77 | there is at most one candidate per response, each well formed |
| ReflectionAnalysisService.ChooseBest | Services/ReflectionAnalysisService.swift:122-131 | the chosen analysis is a candidate of maximal quality score |
| ReflectionAnalysisService.CandidatesSnoc | Services/ReflectionAnalysisService.swift:57-77 | one more response appends its candidate, if any |
| ReflectionAnalysisService.OnDeviceAnalyze | Services/ReflectionAnalysisService.swift:48-81 | blank content yields nil; otherwise nil iff no response gives a candidate, and the best candidate otherwise; candidates are cut out with the corrected `ExtractJSONObject`, so a response whose last `}` precedes its first `{` gives no candidate instead of trapping |
| ReflectionAnalysisService.Analyze | Services/ReflectionAnalysisService.swift:9-30 | without an on-device result the local analysis; with one, the on-device result exactly when its quality score is at least the local summary's plus the adoption threshold, and the local analysis otherwise |
| ReflectionAnalysisService.AdoptionRule | Services/ReflectionAnalysisService.swift:9-30 | the result is the local analysis unless an on-device result scores at least 0.2 above it, in which case that result is taken |
| ReflectionAnalysisService.TokenlessNeverAdopted | Services/ReflectionAnalysisService.swift:133-146 | an on-device summary without tokens is never adopted |
| WeatherService.RawValueRoundTrip | Services/WeatherService.swift:25-32 | the six raw values are distinct and read back to their case |
| WeatherService.DescriptionsDistinct | Services/WeatherService.swift:33-42 | the six descriptions are pairwise distinct |
| WeatherService.MapIDRanges | Services/WeatherService.swift:129-139 | 200–232 → lightning, 300–531 → rain, 600–622 → snow, 801–804 → cloudy, every other id → sunny, never unknown |
| WeatherService.FetchNeverUnknown | Services/WeatherService.swift:55-127 | every failure path yields sunny, a decoded reply maps its first condition id, and the result is never unknown |
| Dates.Weekday | ViewModels/StatsViewModel.swift:160 | `calendar.component(.weekday, ...)` lies in 1..7 (1 is Sunday) |
| Dates.Hour | ViewModels/StatsViewModel.swift:215 | `calendar.component(.hour, ...)` lies in 0..23 and is the hour containing the time |
| Dates.AddMonths | ViewModels/StatsViewModel.swift:31 | adding `offset` months moves the month of the year by `offset` modulo 12 and carries the overflow into the year, backwards as well as forwards |
| Dates.AddMonthsNext | ViewModels/StatsViewModel.swift:31 | one month on, December wraps to January of the next year, any other month is followed by the next one of the same year, and the new month begins where the old one ends |
| Dates.MonthsDisjoint | ViewModels/StatsViewModel.swift:41-47 | a day lies in only one month's `[start, next start)` range |
| Items.ActiveDaysAreDaysOf | ViewModels/StatsViewModel.swift:87-91 | the set of active days is the set of days of the entries outside the trash |
| Items.StreakLengthUnique | ViewModels/CalendarViewModel.swift:95-108 | a run of days ending at a given day has one length |
| Items.MonthEntriesPartition | ViewModels/StatsViewModel.swift:38-49 | an entry falls in at most one month, and only when it is outside the trash |
| Items.EmotionTagsOfHas | ViewModels/StatsViewModel.swift:241-243 | every flattened tag comes from some entry |
| Items.RecordedEmotionsFrom | ViewModels/StatsViewModel.swift:241-245 | every recorded emotion is the normalised form of a non-"감정기록" tag of some entry |
| Items.NoRecordedEmotions | ViewModels/StatsViewModel.swift:241-245 | entries whose tags are all "감정기록" record no emotion |
| Tally.TallyFacts | ViewModels/StatsViewModel.swift:61 | grouping yields distinct keys, exactly the values present, each with its positive count, and the counts sum to the input length |
| Tally.RankedFacts | ViewModels/StatsViewModel.swift:61-62 | the ranked tally has non-increasing counts, the keys present, their counts, and sums to the input length |
| Tally.TopFacts | ViewModels/StatsViewModel.swift:248-252 | the top-k has exactly min(k, number of distinct values) entries, non-increasing, with their true counts, and is non-empty for non-empty input |
| Tally.TopOutranksRest | ViewModels/StatsViewModel.swift:248-252 | a value left out of the top-k occurs no more often than any value in it |
| Tally.MostFrequentFacts | ViewModels/CalendarViewModel.swift:83-84 | the most frequent value is the fallback for no values, otherwise present with a maximal count |
| Tally.InsertSorted | ViewModels/StatsViewModel.swift:62 | inserting into a list sorted by count keeps it sorted |
| Tally.SortByCountSorted | ViewModels/StatsViewModel.swift:62 | sorting by count yields non-increasing counts |
| Tally.SortByCount | ViewModels/StatsViewModel.swift:62 | sorting by count permutes the entries |
| StatsViewModel.StatsViewModel.constructor | ViewModels/StatsViewModel.swift:12-17 | starts at the given month with no entries |
| StatsViewModel.StatsViewModel.UpdateItems | ViewModels/StatsViewModel.swift:22-24 | replaces the entries and keeps the month |
| StatsViewModel.StatsViewModel.MoveMonth | ViewModels/StatsViewModel.swift:29-33 | shifts the month by the offset and keeps the entries |
| StatsViewModel.InsertDay | ViewModels/StatsViewModel.swift:87-91 | inserting a day into a strictly descending list keeps it strictly descending with the same days plus the new one |
| StatsViewModel.DaysDescending | ViewModels/StatsViewModel.swift:87-91 | `Set(...).sorted(by: >)`: strictly descending and holding exactly the given days |
| StatsViewModel.UniqueDaysAreActiveDays | ViewModels/StatsViewModel.swift:87-91 | the unique days are strictly descending and exactly the active days |
| StatsViewModel.FrontRun | ViewModels/StatsViewModel.swift:101-114 | the loop measures the maximal run of consecutive days at the front |
| StatsViewModel.RunAtFront | ViewModels/StatsViewModel.swift:101-114 | the day before a maximal front run is not a day with entries |
| StatsViewModel.FrontRunIsStreak | ViewModels/StatsViewModel.swift:101-114 | the front run is the streak of consecutive active days ending at the most recent day |
| StatsViewModel.LongestRun | ViewModels/StatsViewModel.swift:116-128 | the loop returns the length of a run that exists and that no run exceeds |
| StatsViewModel.LongestRunStep | ViewModels/StatsViewModel.swift:119-127 | the loop's `max(best, temp)` keeps `best` the longest run seen so far |
| StatsViewModel.RunInside | ViewModels/StatsViewModel.swift:116-128 | a sub-range of a run is a run |
| StatsViewModel.StatsViewModel.StreakInfo | ViewModels/StatsViewModel.swift:83-131 | (0, 0) without days; best is the longest run of consecutive days and at least 1; current is the run ending at the most recent day when that day is today or yesterday, otherwise 0; current ≤ best |
| StatsViewModel.WeekdayAt | ViewModels/StatsViewModel.swift:164-171 | the weekday shown in column `i` lies in 1..7 |
| StatsViewModel.DaySortOrderIsBijection | ViewModels/StatsViewModel.swift:149-151 | `daySortOrder` is a bijection of 1..7 that puts Sunday last |
| StatsViewModel.WeekdayCountsStep | ViewModels/StatsViewModel.swift:159-162 | one more entry adds one to its weekday's count |
| StatsViewModel.WeekdayCountsSum | ViewModels/StatsViewModel.swift:154-172 | the seven weekday counts sum to the number of entries |
| StatsViewModel.StatsViewModel.DayCounts | ViewModels/StatsViewModel.swift:154-172 | the loop filling the dictionary computes the weekday histogram `DayCountsOf` |
| StatsViewModel.DayCountsFacts | ViewModels/StatsViewModel.swift:154-172 | always seven entries, Monday to Sunday in sort order, summing to the entries outside the trash |
| StatsViewModel.MaxDayCountFacts | ViewModels/StatsViewModel.swift:175-177 | `maxDayCount` is the largest weekday count |
| StatsViewModel.TimeSlotLabelPartition | ViewModels/StatsViewModel.swift:190-197 | 6–11 아침, 12–17 낮, 18–22 저녁, every other hour 밤 |
| StatsViewModel.CountSlotSnoc | ViewModels/StatsViewModel.swift:214-218 | one more entry adds one to its slot's count |
| StatsViewModel.SlotCountsStep | ViewModels/StatsViewModel.swift:214-218 | the dictionary update keeps the counts equal to the per-slot counts of the entries read |
| StatsViewModel.SlotCountsSum | ViewModels/StatsViewModel.swift:209-229 | the four slot counts sum to the number of entries |
| StatsViewModel.StatsViewModel.TimeSlots | ViewModels/StatsViewModel.swift:209-229 | the loop filling the dictionary computes the slot histogram `TimeSlotsOf` |
| StatsViewModel.TimeSlotsFacts | ViewModels/StatsViewModel.swift:209-229 | four slots in order 아침, 낮, 저녁, 밤, summing to the entries outside the trash |
| StatsViewModel.MoodDataFacts | ViewModels/StatsViewModel.swift:59-63 | non-increasing counts, each the true count of its mood in the month, covering exactly the moods recorded, summing to the entries with a mood |
| StatsViewModel.MoodsOf | ViewModels/StatsViewModel.swift:60 | a mood is listed iff some entry has it |
| StatsViewModel.MostFrequentMoodFacts | ViewModels/StatsViewModel.swift:66-68 | "-" without moods, otherwise a recorded mood of maximal count |
| StatsViewModel.TopEmotionsOutrankRest | ViewModels/StatsViewModel.swift:248-252 | no tag cut from the top five occurs more often than any tag kept |
| StatsViewModel.TopEmotionTagsFacts | ViewModels/StatsViewModel.swift:240-253 | at most five entries, non-increasing, each with its true count among the month's normalised non-"감정기록" tags, and nothing left out occurs more often |
| StatsViewModel.MaxTagCountFacts | ViewModels/StatsViewModel.swift:256-258 | 1 without tags, otherwise the top count |
| StatsViewModel.NumberText | ViewModels/StatsViewModel.swift:283-284 | the decimal text of a number is non-empty and made of digits |
| StatsViewModel.NumberTextRoundTrip | ViewModels/StatsViewModel.swift:283-284 | reading the decimal text back gives the number |
| StatsViewModel.MonthLabelNamesMonth | ViewModels/StatsViewModel.swift:283-284 | the label is the month's number followed by "월" |
| StatsViewModel.MonthCountsFacts | ViewModels/StatsViewModel.swift:270-287 | six months ending at the selected one, each with its entry count and label |
| StatsViewModel.SumBounds | ViewModels/StatsViewModel.swift:292-296 | a sum of values in 1..top lies between the count and count·top |
| StatsViewModel.QuotientBounds | ViewModels/StatsViewModel.swift:295 | the truncating quotient of such a sum lies in 1..top |
| StatsViewModel.IntegerMeanBounds | ViewModels/StatsViewModel.swift:294-295 | the integer mean is 0 iff there are no values, otherwise between 1 and the maximum and the floor of the mean |
| StatsViewModel.AverageCharCountBounds | ViewModels/StatsViewModel.swift:292-296 | the average character count is 0 iff no entry has content, otherwise the floor of the mean positive length |
| StatsViewModel.TotalItemCountIsChartTotal | ViewModels/StatsViewModel.swift:299-301 | the total count equals the sum of both charts |
| StatsViewModel.WeeklyEmotionPatternFacts | ViewModels/StatsViewModel.swift:304-317 | "-" without recent tags, otherwise the keys of the top one to three tags joined by ", " |
| CalendarViewModel.CalendarViewModel.constructor | ViewModels/CalendarViewModel.swift:11-19 | starts at the given date and its month with no entries |
| CalendarViewModel.CalendarViewModel.UpdateItems | ViewModels/CalendarViewModel.swift:24-26 | replaces the entries and nothing else |
| CalendarViewModel.CalendarViewModel.MoveMonth | ViewModels/CalendarViewModel.swift:31-35 | shifts the displayed month by the offset and keeps the selected date |
| CalendarViewModel.CalendarViewModel.GoToToday | ViewModels/CalendarViewModel.swift:40-45 | sets the selected date and the displayed month to today |
| CalendarViewModel.CalendarViewModel.SelectDate | ViewModels/CalendarViewModel.swift:50-52 | sets the selected date and nothing else |
| CalendarViewModel.InsertByTime | ViewModels/CalendarViewModel.swift:75 | inserting by time adds exactly the entry |
| CalendarViewModel.InsertByTimeSorted | ViewModels/CalendarViewModel.swift:75 | inserting keeps newest-first order |
| CalendarViewModel.SortNewestFirst | ViewModels/CalendarViewModel.swift:75 | the sort permutes the entries |
| CalendarViewModel.SortNewestFirstSorted | ViewModels/CalendarViewModel.swift:75 | the sort yields newest-first order |
| CalendarViewModel.SelectedDayItemsFacts | ViewModels/CalendarViewModel.swift:71-76 | exactly the active entries of the selected day, newest first |
| CalendarViewModel.SelectedDayEmotionFacts | ViewModels/CalendarViewModel.swift:79-85 | "-" without recorded emotions that day, otherwise one of maximal count |
| CalendarViewModel.MostFrequentEmotionFacts | ViewModels/CalendarViewModel.swift:111-117 | "-" without recorded emotions that month, otherwise one of maximal count (also Views/CalendarView.swift:124-130) |
| CalendarViewModel.NoEmotionMonth | ViewModels/CalendarViewModel.swift:111-117 | a month whose tags are all "감정기록" has "-" |
| CalendarViewModel.MonthlyActiveDaysFacts | ViewModels/CalendarViewModel.swift:88-92 | the distinct days of the month's entries, at most their number and 0 iff there are none |
| CalendarViewModel.MonthlyActiveDaysInMonth | ViewModels/CalendarViewModel.swift:62-68 | every counted day lies in the displayed month |
| CalendarViewModel.Earliest | ViewModels/CalendarViewModel.swift:95-108 | a lower bound of the given days, used as the streak loop's measure |
| CalendarViewModel.CurrentStreak | ViewModels/CalendarViewModel.swift:95-108 | the loop returns the run of active days ending today, 0 iff today has no entry, so a run ending yesterday counts 0 (also Views/CalendarView.swift:109-122) |
| CalendarViewModel.ToneCopyFirstMatch | ViewModels/CalendarViewModel.swift:120-135 | each tone text is chosen iff its group is the first that matches, in the source's order (also Views/CalendarView.swift:132-147) |
| CalendarViewModel.ToneWithoutEmotions | ViewModels/CalendarViewModel.swift:120-135 | a month without recorded emotions gets the "pending" text |
| CalendarViewModel.MarkerFor | ViewModels/CalendarViewModel.swift:154-171 | a day with entries always gets a visible marker |
| CalendarViewModel.MarkerForFirstMatch | ViewModels/CalendarViewModel.swift:156-171 | each colour is chosen iff its group is the first that matches, in the source's order (also Views/CalendarView.swift:261-276) |
| CalendarViewModel.DayEntriesEmpty | ViewModels/CalendarViewModel.swift:140-143 | a day has no active entries iff all its entries are in the trash |
| CalendarViewModel.MarkerClearIff | ViewModels/CalendarViewModel.swift:146-148 | the marker is clear iff the day has no active entries (also Views/CalendarView.swift:253-255) |
| CalendarViewModel.MarkerWithoutEmotions | ViewModels/CalendarViewModel.swift:146-171 | a day with entries but no recorded emotion gets the accent colour |
| CalendarViewModel.MarkerForNoEmotion | ViewModels/CalendarViewModel.swift:154-171 | the empty primary emotion gets the accent colour |
| CalendarView.MonthDays | Views/CalendarView.swift:229-236 | the days of the month in order: a day is listed iff it lies in the month |
| CalendarView.Leading | Views/CalendarView.swift:241-244 | the leading cells are days of the previous month just before the first day, and the first of them falls on the first weekday (Sunday) |
| CalendarView.Trailing | Views/CalendarView.swift:246-249 | the trailing cells are days of the next month, right after the last day, filling the grid to 42 cells |
| CalendarView.LeadingCountRange | Views/CalendarView.swift:241 | the leading count lies in 0..6 and is the first day's weekday minus one |
| CalendarView.GridWeekday | Views/CalendarView.swift:241-250 | cell `i` of the grid falls on weekday `i % 7 + 1` |
| CalendarView.GridLayout | Views/CalendarView.swift:238-251 | 42 consecutive days starting `leading` days before the first of the month, with at least five trailing cells |
| CalendarView.GridFacts | Views/CalendarView.swift:238-251 | 42 cells, each in its weekday's column, and a cell is in the month iff it lies between the leading and trailing cells |
| CalendarView.GridCoversMonth | Views/CalendarView.swift:238-251 | every day of the month has its cell |
| CalendarView.StepX | Views/CalendarView.swift:380-381 | the column step is positive for a positive width |
| CalendarView.FloorOfQuotient | Views/CalendarView.swift:384-385 | rounding the quotient down gives the cell index |
| CalendarView.QuotientOrder | Views/CalendarView.swift:384-385 | scaling by a positive step keeps order |
| CalendarView.DateAtCell | Views/CalendarView.swift:374-391 | a point inside cell `i` maps to `gridDates[i]` |
| CalendarView.DateAtOutside | Views/CalendarView.swift:374-391 | nil for a non-positive size, or a point left of, right of or above the grid |
| CalendarView.ColumnLeft | Views/CalendarView.swift:384 | a point left of the grid has a negative column |
| CalendarView.ColumnRight | Views/CalendarView.swift:384 | a point right of the grid has a column of at least 7 |
| CalendarView.RowAbove | Views/CalendarView.swift:385 | a point above the grid has a negative row |
| CalendarView.DateAtWeekday | Views/CalendarView.swift:374-391 | the date found under a point falls on its column's weekday |
| CalendarView.SwipeFacts | Views/CalendarView.swift:13-22 | the `onEnded` decision of a recognised swipe moves the month iff \|h\| > 1.8·\|v\|; leftwards moves forward a month, rightwards back; mirroring a swipe reverses it |
| CalendarView.CalendarScreen.constructor | Views/CalendarView.swift:6-7 | starts at the given date and month with no grid size and no drag |
| CalendarView.CalendarScreen.OnMonthSwipeEnded | Views/CalendarView.swift:11-25 | a drag that never became the 60-pt gesture changes nothing; a recognised one moves the displayed month by the swipe's offset when the `onEnded` decision fires; nothing else changes |
| CalendarView.CalendarScreen.OnChevronTapped | Views/CalendarView.swift:178-199 | moves the displayed month one forward or back |
| CalendarView.CalendarScreen.OnTodayTapped | Views/CalendarView.swift:164-168 | sets the selected date and displayed month to today |
| CalendarView.CalendarScreen.OnGridResized | Views/CalendarView.swift:343-351 | records the grid's size |
| CalendarView.CalendarScreen.OnCellTapped | Views/CalendarView.swift:335-339 | selects the tapped day |
| CalendarView.CalendarScreen.OnGridDragChanged | Views/CalendarView.swift:355-364 | selects the day under the finger unless there is none or it is the last one dragged over |
| CalendarView.CalendarScreen.OnGridDragEnded | Views/CalendarView.swift:365-367 | forgets the last day dragged over |
| SearchViewModel.SearchEmptyIff | ViewModels/SearchViewModel.swift:29-30 | the search is empty iff the text is all spaces, and then the results are empty |
| SearchViewModel.SearchResultsFacts | ViewModels/SearchViewModel.swift:28-38 | an entry is found iff the search is not empty and the lower-cased query occurs in its lower-cased title, content, a tag or an emotion tag; results keep the entries' order |
| SearchViewModel.LowerSlice | ViewModels/SearchViewModel.swift:31-36 | lower-casing commutes with slicing |
| SearchViewModel.LowerKeepsOccurrence | ViewModels/SearchViewModel.swift:31-36 | an occurrence survives lower-casing both texts, so search is case-insensitive |
| SearchViewModel.TitleHitIsFound | ViewModels/SearchViewModel.swift:33 | an entry whose title contains the trimmed query as written is found |
| SearchViewModel.SearchViewModel.constructor | ViewModels/SearchViewModel.swift:11-16 | starts with empty text and no entries |
| SearchViewModel.SearchViewModel.UpdateItems | ViewModels/SearchViewModel.swift:21-23 | replaces the entries and keeps the text |
| SearchViewModel.SearchViewModel.ClearSearch | ViewModels/SearchViewModel.swift:48-50 | empties the text, so the search is empty and the results are empty |
| DiaryEditorViewModel.ParseTagsArePlain | ViewModels/DiaryEditorViewModel.swift:77-80 | every saved tag is non-empty and holds no `#` and no space |
| DiaryEditorViewModel.NoHashNoOccurrence | ViewModels/DiaryEditorViewModel.swift:78 | removing `#` from a text without it changes nothing |
| DiaryEditorViewModel.ParseTagsRoundTrip | ViewModels/DiaryEditorViewModel.swift:77-80 | parsing the tags joined by " " gives back the tags when each is plain |
| DiaryEditorViewModel.TagsTextRoundTrip | ViewModels/DiaryEditorViewModel.swift:34 | loading saved tags into the field and saving again gives the same tags |
| DiaryEditorViewModel.LoadedFormIsClean | ViewModels/DiaryEditorViewModel.swift:28-55 | a form loaded from an entry, and an empty new form, are not dirty |
| DiaryEditorViewModel.NewFormDirtyIff | ViewModels/DiaryEditorViewModel.swift:52-54 | a new entry is dirty iff the title or the content is non-empty or a photo is set |
| DiaryEditorViewModel.SavedEntry | ViewModels/DiaryEditorViewModel.swift:84-107 | the saved entry holds the form's fields, the parsed tags and the analysis's summary and tags; the trash flag is kept for an existing entry and false for a new one |
| DiaryEditorViewModel.Widget | ViewModels/DiaryEditorViewModel.swift:111-118 | the widget gets the mood, the title or nil when empty, whether the date is today, and a streak of 0 |
| DiaryEditorViewModel.DiaryEditorViewModel.constructor | ViewModels/DiaryEditorViewModel.swift:28-43 | copies an entry's fields with nil title and content as "" and the tags joined by " ", or starts empty with the given or a random prompt; the form is not dirty |
| DiaryEditorViewModel.DiaryEditorViewModel.SaveItem | ViewModels/DiaryEditorViewModel.swift:73-119 | writes the form and the awaited analysis into the existing entry or returns the new entry, ends with `isSaving` false, and sends the widget update |
| DiaryEditorViewModel.DiaryEditorViewModel.FetchWeather | ViewModels/DiaryEditorViewModel.swift:57-71 | unknown weather keeps the weather and shows the error; any other stores its description and clears the error |
| DiaryEditorViewModel.DiaryEditorViewModel.RegeneratePrompt | ViewModels/DiaryEditorViewModel.swift:121-123 | the prompt becomes a different one of the fixed prompts and nothing else changes |
| DiaryEditorViewModel.SavedEntryIsClean | ViewModels/DiaryEditorViewModel.swift:45-55 | once saved, reopening the entry gives a form that is not dirty |
| DiaryEditorViewModel.FetchedWeatherIsStored | Services/WeatherService.swift:55-127 | a fetch never yields unknown, so its description is always stored |

## Left out

- Concurrency and I/O: `async`/`await`, `Task`, `MainActor`, the `CLLocationManager` and `URLSession` requests and the `CheckedContinuation` hand-off of `WeatherService` (Services/WeatherService.swift:55-127). The fetch is modelled as a choice over its outcomes in `WeatherService.FetchCurrentWeather`.
- `userFacingError` is not defined in Services/WeatherService.swift, so `DiaryEditorViewModel.FetchWeather` takes the message as a parameter.
- The on-device language model: `LanguageModelSession`, the prompt text (`buildPrompt`) and `JSONDecoder`. The responses are an input list of two strings and the decoder an input function, so `ReflectionAnalysisService.OnDeviceAnalyze` covers only runs in which both `respond` requests return. A `respond` that throws (Services/ReflectionAnalysisService.swift:57) leaves the whole on-device analysis for the `catch` at lines 22-24, even after a first candidate; that case, like an unavailable model, is the `onDevice == None` input of `ReflectionAnalysisService.Analyze`, which then keeps the local analysis. Only a failed decode (`try?`), a response without a `{ ... }` object or an empty refined summary drops a single candidate.
- Persistence: `modelContext.insert` and SwiftData's change tracking. `SaveItem` updates the entry held in the form, or returns a new entry instead of inserting it, and `Item` is a value. So the model does not capture other references to the same stored entry seeing the update.
- `WidgetDataService.update` is out of scope; `SaveItem` returns the update it would send.
- `loadPhotoData` (ViewModels/DiaryEditorViewModel.swift:125-134) only loads image bytes from the photo picker and is left out.
- SwiftUI rendering, animations, fonts and layout. Colours become the enum `Marker`, and the time-slot colours are left out.
- CalendarView.SwipeFacts, CalendarView.CalendarScreen.OnMonthSwipeEnded: whether a drag reaches `DragGesture(minimumDistance: 60)` depends on the finger's whole path, which the model does not track. The handler takes that recognition as the input `recognized`, so the 60-pt threshold is not related to the final translation it receives.
- Floating point: `qualityScore` and `dateAt` use exact real arithmetic without Double or CGFloat rounding.
- Time zones, daylight saving time and locale calendars: a date is a day number and a second of the day in one fixed zone, and weeks start on Sunday.
- Unicode: lower-casing changes only ASCII capitals (Hangul has no case), and the alphanumeric set is ASCII letters and digits, Hangul and CJK ideographs. `localizedCaseInsensitiveContains` is a plain substring test, since the keywords are Hangul.
- StatsViewModel.AverageCharCountBounds, ReflectionAnalysisService.QualityScoreRange, ReflectionAnalysisService.TokensWellFormed, DiaryEditorViewModel.ParseTagsArePlain and the tallies (Tally.TallyFacts, StatsViewModel.MoodDataFacts, StatsViewModel.TopEmotionTagsFacts, CalendarViewModel.MostFrequentEmotionFacts): strings are sequences of Unicode scalars, so lengths (`count`, `prefix`, the summary length bonus, the two-character token floor) count scalars rather than Swift's grapheme clusters, and splitting and string equality (set and dictionary keys included) compare code points rather than canonical equivalence; an emoji with a variation selector or joiner, or Hangul in decomposed form, can therefore count or compare differently than on a device.
- `ReflectionAnalyzer.Prompt`: `randomElement` is a nondeterministic choice, so the model states which prompts can be chosen but not their distribution.
- Ties: Swift's `sorted` is not stable and dictionary order is unspecified. The model breaks ties by first occurrence, and `StatsViewModel.MoodDataFacts`, `StatsViewModel.MostFrequentMoodFacts`, `StatsViewModel.TopEmotionTagsFacts`, `CalendarViewModel.SelectedDayEmotionFacts` and `CalendarViewModel.MostFrequentEmotionFacts` state only that a maximal value is chosen, which is what the source guarantees.
- The date-arithmetic failure paths (`?? displayedMonth`, `guard let ... else { return [] }`) cannot occur on valid dates and are not modelled.
- Utils/EmotionTagNormalizer.swift:48-52 holds unresolved merge-conflict markers rather than code. The model takes `normalizeAll` as the `compactMap` at lines 53-55.

## Findings

| source | as written | input that shows it | evidently intended | confidence | as-written member | corrected member |
|---|---|---|---|---|---|---|
| Services/ReflectionAnalysisService.swift:155-160 | `extractJSONObject` slices `text[first...last]` from the first `{` to the last `}` once both occur, which traps when the last `}` comes before the first `{` | a model response `"}{"` | return nil when there is no `{ ... }` object in order | not executed | ReflectionAnalysisService.ExtractJSONObjectAsWritten, ReflectionAnalysisService.ReversedBracesTrap | ReflectionAnalysisService.ExtractJSONObject |
