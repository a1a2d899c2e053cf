/**
 * DiaryEditorViewModel: the editor's form state for a new or an existing entry, its dirty
 * tracking, the parsing of the tag field and the field writes of `saveItem`. The analysis that
 * `saveItem` awaits is `ReflectionAnalysisService.ServiceAnalyze`, with the on-device candidate as
 * a parameter.
 */
module DiaryEditorViewModel {
  import opened Wrappers
  import opened Seqs
  import opened Text
  import opened Dates
  import opened Items
  import opened ReflectionAnalyzer
  import opened ReflectionAnalysisService
  import WeatherService

  // ---------------------------------------------------------------- the tag field

  /** `tags.joined(separator: " ")`: the tag field shown for an entry. */
  function TagsText(tags: seq<string>): string
  {
    Join(tags, " ")
  }

  /** `tagsString.replacingOccurrences(of: "#", with: "").split(separator: " ")`, empty pieces omitted. */
  function ParseTags(tagsString: string): seq<string>
  {
    Filter(SplitOn(ReplaceAll(tagsString, "#", ""), Is(' ')), t => t != [])
  }

  /** A tag as the field can hold it: non-empty, without a space or a `#`. */
  predicate PlainTag(t: string)
  {
    t != [] && ' ' !in t && '#' !in t
  }

  /** Every parsed tag is plain. */
  lemma ParseTagsArePlain(tagsString: string)
    ensures forall t :: t in ParseTags(tagsString) ==> PlainTag(t)
  {
    var cleaned := ReplaceAll(tagsString, "#", "");
    ReplaceAllRemoves(tagsString, '#');
    var parts := SplitOn(cleaned, Is(' '));
    SplitOnChars(cleaned, Is(' '));
    forall t | t in ParseTags(tagsString) ensures PlainTag(t) {
      var k :| 0 <= k < |parts| && parts[k] == t;
      assert forall c :: c in t ==> c in cleaned && c != ' ';
    }
  }

  /** A text without `#` has no occurrence of "#". */
  lemma NoHashNoOccurrence(s: string)
    requires '#' !in s
    ensures !Contains(s, "#")
  {
    ContainsIffOccurs(s, "#");
    forall i | 0 <= i < |s|
      ensures !OccursAt(s, "#", i)
    {
      assert s[i] in s;
    }
  }

  /** Parsing the field shown for plain tags gives back the tags. */
  lemma ParseTagsRoundTrip(tags: seq<string>)
    requires forall k :: 0 <= k < |tags| ==> PlainTag(tags[k])
    ensures ParseTags(TagsText(tags)) == tags
  {
    var text := TagsText(tags);
    JoinChars(tags, " ");
    NoHashNoOccurrence(text);
    ReplaceAbsent(text, "#", "");
    if tags == [] {
      assert SplitOn(text, Is(' ')) == [[]];
      assert Filter([[]], (t: string) => t != []) == [];
    } else {
      SplitJoin(tags, ' ');
      FilterAll(tags, t => t != []);
    }
  }

  /** The field of an entry with plain tags parses back to the entry's tags, so saving unedited keeps them. */
  lemma TagsTextRoundTrip(tagsString: string)
    ensures ParseTags(TagsText(ParseTags(tagsString))) == ParseTags(tagsString)
  {
    ParseTagsArePlain(tagsString);
    var tags := ParseTags(tagsString);
    assert forall k :: 0 <= k < |tags| ==> tags[k] in tags;
    ParseTagsRoundTrip(tags);
  }

  // ---------------------------------------------------------------- dirty tracking

  function OrEmpty(s: Option<string>): string
  {
    if s.Some? then s.value else []
  }

  /**
   * `isDirty`: an existing entry is edited when its title, content, tag field, photo or mood
   * differs from the entry; a new one when it has a title, content or photo. The date and the
   * weather are not among the parameters, so changing them never makes the form dirty.
   */
  predicate Dirty(item: Option<Item>, title: string, content: string, tagsString: string,
                  photoData: Option<Bytes>, mood: Option<string>)
  {
    if item.Some? then
      title != OrEmpty(item.value.title) || content != OrEmpty(item.value.content) ||
      tagsString != TagsText(item.value.tags) || photoData != item.value.photoData || mood != item.value.mood
    else
      title != [] || content != [] || photoData.Some?
  }

  /** The form as loaded from an entry is clean, and so is an empty new form. */
  lemma LoadedFormIsClean(item: Item)
    ensures !Dirty(Some(item), OrEmpty(item.title), OrEmpty(item.content), TagsText(item.tags), item.photoData, item.mood)
    ensures !Dirty(None, [], [], [], None, None)
  {
  }

  /** A new form becomes dirty as soon as any of its title, content or photo is set, and only then. */
  lemma NewFormDirtyIff(title: string, content: string, tagsString: string, photoData: Option<Bytes>, mood: Option<string>)
    ensures Dirty(None, title, content, tagsString, photoData, mood) <==> title != [] || content != [] || photoData != None
  {
  }

  /**
   * The entry `saveItem` writes: every field of the form, the parsed tags, the prompt and the
   * analysis; an edited entry keeps its trash flag, a new one starts outside the trash.
   */
  function SavedEntry(existing: Option<Item>, title: string, content: string, tagsString: string, date: Instant,
                      photoData: Option<Bytes>, weather: Option<string>, mood: Option<string>, prompt: string,
                      analysis: ReflectionAnalysis): (saved: Item)
    ensures saved.title == Some(title) && saved.content == Some(content) && saved.tags == ParseTags(tagsString)
    ensures saved.timestamp == date && saved.photoData == photoData && saved.weather == weather && saved.mood == mood
    ensures saved.reflectionPrompt == Some(prompt) && saved.autoSummary == Some(analysis.summary)
    ensures saved.emotionTags == analysis.emotionTags
    ensures saved.isTrashed == (existing.Some? && existing.value.isTrashed)
  {
    Item(date, photoData, ParseTags(tagsString), analysis.emotionTags, Some(title), Some(content), Some(prompt),
      Some(analysis.summary), weather, mood, existing.Some? && existing.value.isTrashed)
  }

  /** What `saveItem` hands to the widget: the mood, the title unless empty, whether the entry is dated today, and a streak of 0. */
  datatype WidgetUpdate = WidgetUpdate(lastMood: Option<string>, lastTitle: Option<string>, wroteToday: bool, streakCount: int)

  /** The widget update after saving an entry dated `date`, with `today` the clock's day. */
  function Widget(mood: Option<string>, title: string, date: Instant, today: int): (w: WidgetUpdate)
    ensures w.lastMood == mood && w.streakCount == 0
    ensures w.lastTitle == None <==> title == []
    ensures w.lastTitle.Some? ==> w.lastTitle.value == title
    ensures w.wroteToday <==> date.day == today
  {
    WidgetUpdate(mood, if title == [] then None else Some(title), date.day == today, 0)
  }

  // ---------------------------------------------------------------- the view model

  class DiaryEditorViewModel {
    var title: string
    var content: string
    var tagsString: string
    var selectedDate: Instant
    var selectedPhotoData: Option<Bytes>
    var weather: Option<string>
    var mood: Option<string>
    var reflectionPrompt: string
    var isSaving: bool
    var weatherError: Option<string>
    /** The entry being edited, or none for a new entry. */
    var item: Option<Item>

    /** `isDirty`. */
    predicate IsDirty()
      reads this
    {
      Dirty(item, title, content, tagsString, selectedPhotoData, mood)
    }

    /**
     * `init(item:initialPrompt:)`: loads the entry's fields, or starts empty at `now`; the prompt
     * is the entry's, or the initial one, or a random one from the list.
     */
    constructor(existing: Option<Item>, initialPrompt: Option<string>, now: Instant)
      ensures item == existing && !isSaving && weatherError == None && !IsDirty()
      ensures existing.Some? ==>
        && title == OrEmpty(existing.value.title) && content == OrEmpty(existing.value.content)
        && tagsString == TagsText(existing.value.tags) && selectedDate == existing.value.timestamp
        && selectedPhotoData == existing.value.photoData && weather == existing.value.weather
        && mood == existing.value.mood
        && (if existing.value.reflectionPrompt.Some? then reflectionPrompt == existing.value.reflectionPrompt.value
            else reflectionPrompt in Prompts)
      ensures existing.None? ==>
        && title == [] && content == [] && tagsString == [] && selectedDate == now
        && selectedPhotoData == None && weather == None && mood == None
        && (if initialPrompt.Some? then reflectionPrompt == initialPrompt.value else reflectionPrompt in Prompts)
    {
      var randomPrompt := Prompt(None);
      item := existing;
      isSaving := false;
      weatherError := None;
      if existing.Some? {
        var entry := existing.value;
        title := OrEmpty(entry.title);
        content := OrEmpty(entry.content);
        tagsString := TagsText(entry.tags);
        selectedDate := entry.timestamp;
        selectedPhotoData := entry.photoData;
        weather := entry.weather;
        mood := entry.mood;
        if entry.reflectionPrompt.Some? {
          reflectionPrompt := entry.reflectionPrompt.value;
        } else {
          reflectionPrompt := randomPrompt;
        }
      } else {
        title := [];
        content := [];
        tagsString := [];
        selectedDate := now;
        selectedPhotoData := None;
        weather := None;
        mood := None;
        if initialPrompt.Some? {
          reflectionPrompt := initialPrompt.value;
        } else {
          reflectionPrompt := randomPrompt;
        }
      }
    }

    /**
     * `saveItem(modelContext:)`: parses the tag field, runs the analysis and writes every field of
     * the form and the analysis into the edited entry; for a new form it returns the entry to
     * insert and keeps `item` empty. `onDevice` stands for the on-device model's candidate.
     */
    method SaveItem(onDevice: Option<ReflectionAnalysis>, today: int) returns (inserted: Option<Item>, widget: WidgetUpdate)
      modifies this
      ensures !isSaving && widget == Widget(old(mood), old(title), old(selectedDate), today)
      ensures var written := SavedEntry(old(item), old(title), old(content), old(tagsString), old(selectedDate),
          old(selectedPhotoData), old(weather), old(mood), old(reflectionPrompt), ServiceAnalyze(old(content), old(mood), onDevice));
        if old(item).Some? then item == Some(written) && inserted == None
        else item == None && inserted == Some(written)
      ensures unchanged(this`title, this`content, this`tagsString, this`selectedDate, this`selectedPhotoData,
        this`weather, this`mood, this`reflectionPrompt, this`weatherError)
    {
      isSaving := true;
      var analysis := ReflectionAnalysisService.Analyze(content, mood, onDevice);
      var written := SavedEntry(item, title, content, tagsString, selectedDate, selectedPhotoData, weather, mood,
        reflectionPrompt, analysis);
      if item.Some? {
        item := Some(written);
        inserted := None;
      } else {
        inserted := Some(written);
      }
      widget := Widget(mood, title, selectedDate, today);
      isSaving := false;
    }

    /**
     * `fetchWeather()` once the service has answered: an unknown kind shows the service's message
     * (`userFacingError` is not part of this model, so it is a parameter); any other kind stores
     * its description and clears the message.
     */
    method FetchWeather(fetched: WeatherService.WeatherType, userFacingError: Option<string>)
      modifies this
      ensures fetched == WeatherService.Unknown ==> weather == old(weather) && weatherError == userFacingError
      ensures fetched != WeatherService.Unknown ==> weather == Some(WeatherService.Description(fetched)) && weatherError == None
      ensures unchanged(this`title, this`content, this`tagsString, this`selectedDate, this`selectedPhotoData,
        this`mood, this`reflectionPrompt, this`isSaving, this`item)
    {
      weatherError := None;
      if fetched == WeatherService.Unknown {
        weatherError := userFacingError;
      } else {
        weather := Some(WeatherService.Description(fetched));
        weatherError := None;
      }
    }

    /** `regeneratePrompt()`: another prompt of the list. */
    method RegeneratePrompt()
      modifies this
      ensures reflectionPrompt in Prompts && reflectionPrompt != old(reflectionPrompt)
      ensures title == old(title) && content == old(content) && tagsString == old(tagsString)
      ensures selectedDate == old(selectedDate) && selectedPhotoData == old(selectedPhotoData)
      ensures weather == old(weather) && mood == old(mood) && item == old(item) && isSaving == old(isSaving)
      ensures weatherError == old(weatherError)
    {
      reflectionPrompt := Prompt(Some(reflectionPrompt));
    }
  }

  /**
   * After saving an existing entry whose tag field is already in the form the entry shows
   * (plain tags separated by single spaces), the form is clean again.
   */
  lemma SavedEntryIsClean(entry: Item, title: string, content: string, tagsString: string,
                          photoData: Option<Bytes>, mood: Option<string>, saved: Item)
    requires TagsText(ParseTags(tagsString)) == tagsString
    requires saved.title == Some(title) && saved.content == Some(content) && saved.tags == ParseTags(tagsString)
    requires saved.photoData == photoData && saved.mood == mood
    ensures !Dirty(Some(saved), title, content, tagsString, photoData, mood)
  {
  }

  /**
   * A weather fetch followed by storing its kind always stores a description: the fetch never
   * yields the unknown kind, so the error message of `fetchWeather()` is never shown.
   */
  lemma FetchedWeatherIsStored(outcome: WeatherService.FetchOutcome)
    ensures var w := WeatherService.FetchCurrentWeather(outcome);
      w != WeatherService.Unknown && WeatherService.Description(w) != WeatherService.Description(WeatherService.Unknown)
  {
    var w := WeatherService.FetchCurrentWeather(outcome);
    WeatherService.FetchNeverUnknown(outcome);
    WeatherService.DescriptionsDistinct(w, WeatherService.Unknown);
  }
}
