/** MoodEmotionMapper: the emotion badge shown for a mood emoji. */
module MoodEmotionMapper {
  import opened Wrappers
  import opened Text
  import EmotionTagNormalizer

  /** The mood emoji the picker offers and that have a badge. */
  const MappedMoods: seq<string> := ["🥰", "😊", "🥳", "😔", "😡", "😴", "🤯"]

  /** `tag(for:)`: the badge label of a mood emoji, if it has one. */
  function Tag(mood: string): Option<string>
  {
    if mood in ["🥰", "😊", "🥳"] then Some("기쁨")
    else if mood == "😔" then Some("슬픔")
    else if mood == "😡" then Some("분노")
    else if mood == "😴" then Some("피로")
    else if mood == "🤯" then Some("과부하")
    else None
  }

  /** `tags(for:)`: the badge of an optional mood, as a list of at most one label. */
  function Tags(mood: Option<string>): (r: seq<string>)
    ensures |r| <= 1
    ensures mood.None? ==> r == []
    ensures mood.Some? ==> (r != [] <==> Tag(mood.value).Some?)
    ensures r != [] ==> Some(r[0]) == Tag(mood.value)
  {
    match mood
    case None => []
    case Some(m) => if Tag(m).Some? then [Tag(m).value] else []
  }

  /** The table of the `switch`. */
  lemma TagTable()
    ensures Tag("🥰") == Some("기쁨") && Tag("😊") == Some("기쁨") && Tag("🥳") == Some("기쁨")
    ensures Tag("😔") == Some("슬픔") && Tag("😡") == Some("분노") && Tag("😴") == Some("피로")
    ensures Tag("🤯") == Some("과부하")
  {
  }

  /** Exactly the listed emoji have a badge; any other mood string, "😐" included, has none. */
  lemma TagDefinedIff(mood: string)
    ensures Tag(mood).Some? <==> mood in MappedMoods
  {
  }

  /** Every badge is already a normalised emotion label: normalising it changes nothing. */
  lemma TagIsNormalized(mood: string)
    requires Tag(mood).Some?
    ensures EmotionTagNormalizer.Normalize(Tag(mood).value) == Tag(mood)
  {
    var t := Tag(mood).value;
    assert t != [] && !IsWhitespaceOrNewline(t[0]) && !IsWhitespaceOrNewline(t[|t| - 1]);
    TrimOfTrimmed(t, IsWhitespaceOrNewline);
    LowerOfLower(t);
    EmotionTagNormalizer.NonAsciiKeyIsKept(t, t);
  }
}
