/**
 * ReflectionAnalyzer: the local reflection of a diary entry. The text is cleaned and cut into
 * sentences, a fixed ordered table of keyword rules yields emotion tags, the mood emoji adds
 * one more, and a three-line summary ("1. 핵심 이슈 / 2. 상황 맥락 / 3. 감정 흐름") is
 * assembled from priority-ordered keyword checks.
 */
module ReflectionAnalyzer {
  import opened Wrappers
  import opened Seqs
  import opened Text

  datatype ReflectionAnalysis = ReflectionAnalysis(summary: string, emotionTags: seq<string>)

  // ---------------------------------------------------------------- prompts

  const Prompts: seq<string> := [
    "오늘 가장 에너지가 높았던 순간은 언제였나요?",
    "오늘 나를 가장 지치게 한 순간은 무엇이었나요?",
    "오늘의 나를 한 문장으로 칭찬한다면?",
    "오늘 가장 오래 남을 장면은 무엇인가요?",
    "지금 감정을 만든 사건 하나를 적어보세요."
  ]

  /**
   * `prompt(excluding:)`: a prompt picked at random, never the current one when one is given.
   * The random pick is a nondeterministic choice.
   */
  method Prompt(current: Option<string>) returns (p: string)
    ensures p in Prompts
    ensures current.Some? ==> p != current.value
  {
    if current.Some? {
      var candidates := Filter(Prompts, q => q != current.value);
      assert Prompts[0] in candidates || Prompts[1] in candidates;
      p :| p in candidates;
    } else {
      assert Prompts[0] in Prompts;
      p :| p in Prompts;
    }
  }

  // ---------------------------------------------------------------- rule table

  datatype EmotionRule = EmotionRule(tag: string, keywords: seq<string>)

  /** `emotionRules`, in table order. */
  const EmotionRules: seq<EmotionRule> := [
    EmotionRule("안정", ["평온", "차분", "편안", "안정", "여유"]),
    EmotionRule("기쁨", ["행복", "기쁨", "웃", "설렘", "뿌듯", "즐거"]),
    EmotionRule("감사", ["감사", "고마", "든든", "따뜻"]),
    EmotionRule("피로", ["피곤", "지침", "지쳤", "무기력", "졸림"]),
    EmotionRule("불안", ["불안", "걱정", "초조", "긴장", "압박", "부담", "비용", "비싼", "언제", "출시"]),
    EmotionRule("분노", ["화", "짜증", "분노", "답답", "억울", "멍청", "구려", "빡침"]),
    EmotionRule("슬픔", ["슬픔", "우울", "눈물", "외롭", "허무"]),
    EmotionRule("집중", ["몰입", "집중", "성취", "해냈", "완료"])
  ]

  /** The tag column of a rule table. */
  function TagsOf(rules: seq<EmotionRule>): (r: seq<string>)
  {
    seq(|rules|, i requires 0 <= i < |rules| => rules[i].tag)
  }

  /** No two rules share a tag. */
  predicate DistinctTags(rules: seq<EmotionRule>)
  {
    forall i, j :: 0 <= i < j < |rules| ==> rules[i].tag != rules[j].tag
  }

  /** The tag column has no repetition. */
  lemma RuleTagsDistinct()
    ensures DistinctTags(EmotionRules)
  {
  }

  /** Every keyword is non-empty, so an empty text matches no rule. */
  lemma RuleKeywordsNonEmpty()
    ensures forall i, k :: 0 <= i < |EmotionRules| && 0 <= k < |EmotionRules[i].keywords| ==> EmotionRules[i].keywords[k] != []
  {
  }

  /** `moodTag(from:)`: the analyser's own mood vocabulary, distinct from the badge labels. */
  function MoodTag(mood: string): Option<string>
  {
    if mood in ["🥰", "😊", "🥳"] then Some("긍정")
    else if mood == "😔" then Some("침잠")
    else if mood == "😡" then Some("격양")
    else if mood == "😴" then Some("저에너지")
    else if mood == "🤯" then Some("과부하")
    else None
  }

  /** The table of the `switch`; a mood outside it, "😐" included, gives no tag. */
  lemma MoodTagTable(mood: string)
    ensures MoodTag("🥰") == Some("긍정") && MoodTag("😊") == Some("긍정") && MoodTag("🥳") == Some("긍정")
    ensures MoodTag("😔") == Some("침잠") && MoodTag("😡") == Some("격양")
    ensures MoodTag("😴") == Some("저에너지") && MoodTag("🤯") == Some("과부하")
    ensures MoodTag(mood).Some? <==> mood in ["🥰", "😊", "🥳", "😔", "😡", "😴", "🤯"]
  {
  }

  /** No mood tag is also a rule tag. */
  lemma MoodTagIsNoRuleTag(mood: string)
    requires MoodTag(mood).Some?
    ensures MoodTag(mood).value !in TagsOf(EmotionRules)
  {
  }

  // ---------------------------------------------------------------- cleaning and sentences

  /** The sentence terminators `.!?。！？`. */
  predicate IsTerminator(c: char)
  {
    c == '.' || c == '!' || c == '?' || c == '。' || c == '！' || c == '？'
  }

  /** Line breaks become spaces, then the ends are trimmed. */
  function Clean(content: string): string
  {
    Trim(ReplaceAll(content, "\n", " "), IsWhitespaceOrNewline)
  }

  /** The pieces between terminators, each trimmed, empty ones dropped. */
  function Sentences(cleaned: string): seq<string>
  {
    Filter(TrimEach(SplitOn(cleaned, IsTerminator), IsWhitespaceOrNewline), s => s != [])
  }

  /** A sentence is non-empty, trimmed at both ends and free of terminators. */
  predicate IsSentence(s: string)
  {
    s != [] && !IsWhitespaceOrNewline(s[0]) && !IsWhitespaceOrNewline(s[|s| - 1]) &&
    forall c :: c in s ==> !IsTerminator(c)
  }

  lemma SentencesWellFormed(cleaned: string)
    ensures forall s :: s in Sentences(cleaned) ==> IsSentence(s)
  {
    var parts := SplitOn(cleaned, IsTerminator);
    forall s | s in Sentences(cleaned) ensures IsSentence(s) {
      var k :| 0 <= k < |parts| && TrimEach(parts, IsWhitespaceOrNewline)[k] == s;
      TrimmedPieceIsSentence(parts[k]);
    }
  }

  /** A piece between terminators that is not blank becomes a sentence once trimmed. */
  lemma TrimmedPieceIsSentence(piece: string)
    requires forall c :: c in piece ==> !IsTerminator(c)
    requires Trim(piece, IsWhitespaceOrNewline) != []
    ensures IsSentence(Trim(piece, IsWhitespaceOrNewline))
  {
    TrimShape(piece, IsWhitespaceOrNewline);
    TrimChars(piece, IsWhitespaceOrNewline);
  }

  /** There is no sentence exactly when the content holds nothing but blanks and terminators. */
  lemma SentencesEmptyIff(content: string)
    ensures Sentences(Clean(content)) == [] <==>
      forall c :: c in content ==> IsWhitespaceOrNewline(c) || IsTerminator(c)
  {
    if forall c :: c in content ==> IsWhitespaceOrNewline(c) || IsTerminator(c) {
      NoSentenceInBlank(content);
    } else {
      var c :| c in content && !IsWhitespaceOrNewline(c) && !IsTerminator(c);
      SentenceAroundText(content, c);
    }
  }

  lemma NoSentenceInBlank(content: string)
    requires forall c :: c in content ==> IsWhitespaceOrNewline(c) || IsTerminator(c)
    ensures Sentences(Clean(content)) == []
  {
    var replaced := ReplaceAll(content, "\n", " ");
    var cleaned := Clean(content);
    var parts := SplitOn(cleaned, IsTerminator);
    TrimChars(replaced, IsWhitespaceOrNewline);
    assert forall c :: c in cleaned ==> IsWhitespaceOrNewline(c) || IsTerminator(c);
    SplitOnChars(cleaned, IsTerminator);
    forall k | 0 <= k < |parts| ensures TrimEach(parts, IsWhitespaceOrNewline)[k] == [] {
      assert forall c :: c in parts[k] ==> c in cleaned && !IsTerminator(c);
      TrimChars(parts[k], IsWhitespaceOrNewline);
    }
    FilterNone(TrimEach(parts, IsWhitespaceOrNewline), s => s != []);
  }

  lemma SentenceAroundText(content: string, c: char)
    requires c in content && !IsWhitespaceOrNewline(c) && !IsTerminator(c)
    ensures Sentences(Clean(content)) != []
  {
    var cleaned := Clean(content);
    var parts := SplitOn(cleaned, IsTerminator);
    ReplaceAllKeeps(content, "\n", " ", c);
    TrimChars(ReplaceAll(content, "\n", " "), IsWhitespaceOrNewline);
    SplitOnChars(cleaned, IsTerminator);
    var k :| 0 <= k < |parts| && c in parts[k];
    TrimChars(parts[k], IsWhitespaceOrNewline);
    assert TrimEach(parts, IsWhitespaceOrNewline)[k] in Sentences(cleaned);
  }

  /** Blank content cleans to the empty text. */
  lemma BlankCleansToEmpty(content: string)
    requires forall c :: c in content ==> IsWhitespaceOrNewline(c)
    ensures Clean(content) == []
  {
    TrimChars(ReplaceAll(content, "\n", " "), IsWhitespaceOrNewline);
  }

  // ---------------------------------------------------------------- tags

  /** The tags of the rules that have a keyword in the text, in table order. */
  function Matching(cleaned: string, rules: seq<EmotionRule>): (r: seq<string>)
    ensures |r| <= |rules|
  {
    if rules == [] then []
    else
      var last := rules[|rules| - 1];
      Matching(cleaned, rules[..|rules| - 1]) + (if ContainsAny(cleaned, last.keywords) then [last.tag] else [])
  }

  function MoodTags(mood: Option<string>): seq<string>
  {
    if mood.Some? then Present(MoodTag(mood.value)) else []
  }

  /** The tags collected before deduplication: the matching rule tags, then the mood's tag. */
  function Detected(cleaned: string, mood: Option<string>): seq<string>
  {
    Matching(cleaned, EmotionRules) + MoodTags(mood)
  }

  /** The emotion tags of `analyze(content:mood:)`. */
  function AnalysisTagList(content: string, mood: Option<string>): seq<string>
  {
    Dedup(Detected(Clean(content), mood))
  }

  /** `analyze(content:mood:)`, as a value. */
  function LocalAnalysis(content: string, mood: Option<string>): ReflectionAnalysis
  {
    var tags := AnalysisTagList(content, mood);
    ReflectionAnalysis(BuildSummary(Sentences(Clean(content)), tags), tags)
  }

  /** `analyze(content:mood:)`: runs the rule table in order, appends the mood's tag, dedups. */
  method Analyze(content: string, mood: Option<string>) returns (r: ReflectionAnalysis)
    ensures r == LocalAnalysis(content, mood)
  {
    var cleaned := ReplaceAll(content, "\n", " ");
    cleaned := Trim(cleaned, IsWhitespaceOrNewline);
    assert cleaned == Clean(content);
    var sentences := Sentences(cleaned);
    var detected: seq<string> := [];
    for i := 0 to |EmotionRules|
      invariant detected == Matching(cleaned, EmotionRules[..i])
    {
      var rule := EmotionRules[i];
      MatchingSnoc(cleaned, EmotionRules, i);
      if ContainsAny(cleaned, rule.keywords) {
        detected := detected + [rule.tag];
      }
    }
    assert EmotionRules[..|EmotionRules|] == EmotionRules;
    if mood.Some? {
      var tag := MoodTag(mood.value);
      if tag.Some? {
        detected := detected + [tag.value];
      }
    }
    assert detected == Detected(cleaned, mood);
    var uniqueTags := Dedup(detected);
    r := ReflectionAnalysis(BuildSummary(sentences, uniqueTags), uniqueTags);
  }

  /** Taking one more rule of the table appends its tag exactly when one of its keywords occurs. */
  lemma MatchingSnoc(cleaned: string, rules: seq<EmotionRule>, i: nat)
    requires i < |rules|
    ensures Matching(cleaned, rules[..i + 1]) ==
      Matching(cleaned, rules[..i]) + (if ContainsAny(cleaned, rules[i].keywords) then [rules[i].tag] else [])
  {
    assert rules[..i + 1][..i] == rules[..i];
  }

  /** Every matching tag is a tag of the table. */
  lemma {:induction false} MatchingInTable(cleaned: string, rules: seq<EmotionRule>)
    ensures forall t :: t in Matching(cleaned, rules) ==> t in TagsOf(rules)
  {
    if rules != [] {
      var init := rules[..|rules| - 1];
      MatchingInTable(cleaned, init);
      assert TagsOf(rules) == TagsOf(init) + [rules[|rules| - 1].tag];
      assert forall t :: t in TagsOf(init) ==> t in TagsOf(rules);
    }
  }

  /** The matching tags follow table order. */
  lemma {:induction false} MatchingInOrder(cleaned: string, rules: seq<EmotionRule>)
    ensures IsSubsequence(Matching(cleaned, rules), TagsOf(rules))
  {
    if rules != [] {
      var init := rules[..|rules| - 1];
      var last := rules[|rules| - 1];
      MatchingInOrder(cleaned, init);
      assert TagsOf(rules) == TagsOf(init) + [last.tag];
      SubsequenceSnoc(Matching(cleaned, init), TagsOf(init), last.tag);
      assert Matching(cleaned, init) + [] == Matching(cleaned, init);
    }
  }

  /**
   * Over a table with distinct tags, the matching tags are distinct and hold a rule's tag
   * exactly when one of its keywords occurs in the text.
   */
  lemma {:induction false} MatchingFacts(cleaned: string, rules: seq<EmotionRule>)
    requires DistinctTags(rules)
    ensures NoDuplicates(Matching(cleaned, rules))
    ensures forall i :: 0 <= i < |rules| ==> (rules[i].tag in Matching(cleaned, rules) <==> ContainsAny(cleaned, rules[i].keywords))
  {
    if rules != [] {
      var n := |rules|;
      var init := rules[..n - 1];
      var last := rules[n - 1];
      assert DistinctTags(init) by {
        forall i, j | 0 <= i < j < n - 1 ensures init[i].tag != init[j].tag {
          assert init[i] == rules[i] && init[j] == rules[j];
        }
      }
      MatchingFacts(cleaned, init);
      MatchingFactsStep(cleaned, rules);
    }
  }

  /** The matching facts of all rules but the last extend to the whole table. */
  lemma MatchingFactsStep(cleaned: string, rules: seq<EmotionRule>)
    requires rules != [] && DistinctTags(rules)
    requires var init := rules[..|rules| - 1];
      && NoDuplicates(Matching(cleaned, init))
      && forall i :: 0 <= i < |init| ==> (init[i].tag in Matching(cleaned, init) <==> ContainsAny(cleaned, init[i].keywords))
    ensures NoDuplicates(Matching(cleaned, rules))
    ensures forall i :: 0 <= i < |rules| ==> (rules[i].tag in Matching(cleaned, rules) <==> ContainsAny(cleaned, rules[i].keywords))
  {
    var init := rules[..|rules| - 1];
    LastTagIsNew(cleaned, rules);
    NoDuplicatesSnoc(Matching(cleaned, init), rules[|rules| - 1].tag);
    forall i | 0 <= i < |rules| - 1
      ensures rules[i].tag in Matching(cleaned, rules) <==> ContainsAny(cleaned, rules[i].keywords)
    {
      assert rules[i] == init[i];
    }
  }

  /** With distinct tags, the last rule's tag is not among the tags matched by the rules before it. */
  lemma LastTagIsNew(cleaned: string, rules: seq<EmotionRule>)
    requires rules != [] && DistinctTags(rules)
    ensures rules[|rules| - 1].tag !in Matching(cleaned, rules[..|rules| - 1])
  {
    var init := rules[..|rules| - 1];
    MatchingInTable(cleaned, init);
    forall t | t in TagsOf(init) ensures t != rules[|rules| - 1].tag {
      var i :| 0 <= i < |init| && TagsOf(init)[i] == t;
      assert init[i] == rules[i];
    }
  }

  /** A text with no characters matches no rule whose keywords are all non-empty. */
  lemma {:induction false} MatchingEmpty(rules: seq<EmotionRule>)
    requires forall i, k :: 0 <= i < |rules| && 0 <= k < |rules[i].keywords| ==> rules[i].keywords[k] != []
    ensures Matching([], rules) == []
  {
    if rules != [] {
      MatchingEmpty(rules[..|rules| - 1]);
      ContainsAnyEmpty(rules[|rules| - 1].keywords);
    }
  }

  /** Blank content: no sentence, the fixed summary, and no tag but the mood's. */
  lemma BlankContent(content: string, mood: Option<string>)
    requires forall c :: c in content ==> IsWhitespaceOrNewline(c)
    ensures Sentences(Clean(content)) == []
    ensures LocalAnalysis(content, mood) == ReflectionAnalysis(Insufficient, MoodTags(mood))
  {
    BlankCleansToEmpty(content);
    SentencesEmptyIff(content);
    RuleKeywordsNonEmpty();
    MatchingEmpty(EmotionRules);
    assert Detected([], mood) == MoodTags(mood);
    DedupOfDistinct(MoodTags(mood));
  }

  /** The collected tags never repeat, so deduplication changes nothing. */
  lemma TagsNeedNoDedup(content: string, mood: Option<string>)
    ensures NoDuplicates(Detected(Clean(content), mood))
    ensures AnalysisTagList(content, mood) == Detected(Clean(content), mood)
  {
    var cleaned := Clean(content);
    var m := Matching(cleaned, EmotionRules);
    RuleTagsDistinct();
    MatchingFacts(cleaned, EmotionRules);
    if MoodTags(mood) != [] {
      MoodTagIsNoRuleTag(mood.value);
      MatchingInTable(cleaned, EmotionRules);
      assert Detected(cleaned, mood) == m + [MoodTag(mood.value).value];
    } else {
      assert Detected(cleaned, mood) == m;
    }
    DedupOfDistinct(Detected(cleaned, mood));
  }

  /**
   * The emotion tags hold the tag of every rule with a keyword in the cleaned text and no
   * other rule tag, never twice, and at most nine tags (no cap of three here).
   */
  lemma AnalysisTags(content: string, mood: Option<string>)
    ensures var tags := AnalysisTagList(content, mood);
      NoDuplicates(tags) && |tags| <= |EmotionRules| + 1 &&
      forall i :: 0 <= i < |EmotionRules| ==>
        (EmotionRules[i].tag in tags <==> ContainsAny(Clean(content), EmotionRules[i].keywords))
  {
    var cleaned := Clean(content);
    TagsNeedNoDedup(content, mood);
    RuleTagsDistinct();
    if MoodTags(mood) != [] {
      MoodTagIsNoRuleTag(mood.value);
    }
    MatchingPlusIff(cleaned, EmotionRules, MoodTags(mood));
  }

  /** Tags from outside the table do not disturb the per-rule characterisation. */
  lemma MatchingPlusIff(cleaned: string, rules: seq<EmotionRule>, extra: seq<string>)
    requires DistinctTags(rules)
    requires forall t :: t in extra ==> t !in TagsOf(rules)
    ensures forall i :: 0 <= i < |rules| ==>
      (rules[i].tag in Matching(cleaned, rules) + extra <==> ContainsAny(cleaned, rules[i].keywords))
  {
    MatchingFacts(cleaned, rules);
    forall i | 0 <= i < |rules| ensures rules[i].tag !in extra {
      assert TagsOf(rules)[i] == rules[i].tag;
    }
  }

  /**
   * The emotion tags follow the rule table's order with the mood's tag last, and without a
   * mood tag every tag is a rule tag.
   */
  lemma AnalysisTagsOrder(content: string, mood: Option<string>)
    ensures var tags := AnalysisTagList(content, mood);
      IsSubsequence(tags, TagsOf(EmotionRules) + MoodTags(mood)) &&
      (mood.Some? && MoodTag(mood.value).Some? ==> tags != [] && tags[|tags| - 1] == MoodTag(mood.value).value) &&
      (MoodTags(mood) == [] ==> forall t :: t in tags ==> t in TagsOf(EmotionRules))
  {
    var cleaned := Clean(content);
    var m := Matching(cleaned, EmotionRules);
    TagsNeedNoDedup(content, mood);
    MatchingInTable(cleaned, EmotionRules);
    MatchingInOrder(cleaned, EmotionRules);
    if MoodTags(mood) != [] {
      assert Detected(cleaned, mood) == m + [MoodTag(mood.value).value];
      SubsequenceSnoc(m, TagsOf(EmotionRules), MoodTag(mood.value).value);
    } else {
      assert Detected(cleaned, mood) == m && TagsOf(EmotionRules) + [] == TagsOf(EmotionRules);
    }
  }

  // ---------------------------------------------------------------- summary

  const IssueHead: string := "1. 핵심 이슈: "
  const ContextHead: string := "2. 상황 맥락: "
  const EmotionHead: string := "3. 감정 흐름: "
  const ContextLimit: nat := 46

  /** The three lines of the fixed summary of an entry with no sentence. */
  const InsufficientLines: seq<string> := [
    IssueHead + "기록 내용이 짧아 핵심 이슈를 특정하기 어려움",
    ContextHead + "오늘 있었던 구체적인 장면이 더 필요함",
    EmotionHead + "감정 단서가 충분하지 않음"
  ]

  const Insufficient: string := Join(InsufficientLines, "\n")

  /** `buildSummary(sentences:emotionTags:)`. */
  function BuildSummary(sentences: seq<string>, tags: seq<string>): string
  {
    if sentences == [] then Insufficient
    else
      var issueSentence := PrimaryIssueSentence(sentences);
      Join([IssueHead + IssueSummary(sentences, issueSentence),
            ContextHead + Clipped(ContextSentence(sentences, issueSentence), ContextLimit),
            EmotionHead + InferredEmotionLine(tags, sentences)], "\n")
  }

  const IssueKeywords: seq<string> := ["왜", "문제", "한계", "성능", "오류", "실패", "멍청", "구려", "안됨", "안돼"]

  /** How many of `keys` occur in `s`. */
  function HitCount(s: string, keys: seq<string>): (r: nat)
    ensures r <= |keys|
  {
    if keys == [] then 0
    else HitCount(s, keys[..|keys| - 1]) + (if Contains(s, keys[|keys| - 1]) then 1 else 0)
  }

  /** The issue score of a sentence: the number of issue keywords it contains. */
  function IssueScore(s: string): nat
  {
    HitCount(s, IssueKeywords)
  }

  /**
   * `primaryIssueSentence(from:)`: a sentence with the highest issue score. The source sorts by
   * score with an unstable sort; the model takes the first highest.
   */
  function PrimaryIssueSentence(sentences: seq<string>): (r: string)
    requires sentences != []
    ensures r in sentences
    ensures forall s :: s in sentences ==> IssueScore(s) <= IssueScore(r)
  {
    if |sentences| == 1 then sentences[0]
    else
      var rest := PrimaryIssueSentence(sentences[1..]);
      if IssueScore(sentences[0]) >= IssueScore(rest) then sentences[0] else rest
  }

  const IssueFallback: string := "기록에서 드러난 핵심 이슈를 구조적으로 점검할 필요"

  /** The keywords of the second to fifth checks of `issueSummary`. */
  const IssueTopics: seq<string> :=
    ["요약", "정리", "문장"] + ["온디바이스", "업데이트", "성능", "한계"] + ["비용", "토큰", "과금", "비싼"] + ["출시", "언제", "일정"]

  /** `issueSummary(from:primary:)`: the line of the first check that matches the joined sentences. */
  function IssueSummary(sentences: seq<string>, primary: string): string
  {
    var joined := Join(sentences, " ");
    if ContainsAny(joined, ["요약", "상황", "맥락", "문장"]) && ContainsAny(joined, ["온디바이스", "업데이트", "성능"]) then
      "요약 품질과 온디바이스 성능 저하 원인을 점검하는 문제"
    else if ContainsAny(joined, ["요약", "정리", "문장"]) then "요약 결과의 정확도와 표현 방식 개선 필요"
    else if ContainsAny(joined, ["온디바이스", "업데이트", "성능", "한계"]) then "업데이트 이후 온디바이스 성능 변화를 검증할 필요"
    else if ContainsAny(joined, ["비용", "토큰", "과금", "비싼"]) then "개발 비용과 품질 사이의 균형이 핵심 과제"
    else if ContainsAny(joined, ["출시", "언제", "일정"]) then "개발 진행 속도와 출시 일정 불확실성 해소 필요"
    else IssueFallback
  }

  /** The generic issue line appears exactly when no topic keyword occurs anywhere. */
  lemma IssueFallbackIff(sentences: seq<string>, primary: string)
    ensures IssueSummary(sentences, primary) == IssueFallback <==> !ContainsAny(Join(sentences, " "), IssueTopics)
  {
    var joined := Join(sentences, " ");
    ContainsAnyConcat(joined, ["요약", "정리", "문장"] + ["온디바이스", "업데이트", "성능", "한계"] + ["비용", "토큰", "과금", "비싼"], ["출시", "언제", "일정"]);
    ContainsAnyConcat(joined, ["요약", "정리", "문장"] + ["온디바이스", "업데이트", "성능", "한계"], ["비용", "토큰", "과금", "비싼"]);
    ContainsAnyConcat(joined, ["요약", "정리", "문장"], ["온디바이스", "업데이트", "성능", "한계"]);
    assert ["온디바이스", "업데이트", "성능", "한계"] == ["온디바이스", "업데이트", "성능"] + ["한계"];
    ContainsAnyConcat(joined, ["온디바이스", "업데이트", "성능"], ["한계"]);
  }

  /** The four theme labels of `contextSentence`, in the order its checks append them. */
  const ThemeLabels: seq<string> := ["요약 방식의 정확도 점검", "온디바이스 성능 변화 관찰", "개발 비용 부담", "앱 개발 진행 상황"]

  /** The keywords of each theme's check. */
  const ThemeKeywords: seq<seq<string>> := [
    ["요약", "상황", "맥락", "문장"],
    ["온디바이스", "업데이트", "성능", "애플"],
    ["토큰", "비용", "비싼", "녹아", "과금"],
    ["코덱스", "앱", "개발", "출시"]
  ]

  /** What the `k`-th check appends to `themes`. */
  function Theme(joined: string, k: nat): seq<string>
    requires k < 4
  {
    if ContainsAny(joined, ThemeKeywords[k]) then [ThemeLabels[k]] else []
  }

  /** The themes of `contextSentence`, in the order their checks append them. */
  function Themes(joined: string): seq<string>
  {
    Theme(joined, 0) + Theme(joined, 1) + Theme(joined, 2) + Theme(joined, 3)
  }

  /** `contextSentence(from:excluding:)`: the first two themes, the only one, or a fixed line. */
  function ContextSentence(sentences: seq<string>, primary: string): string
  {
    ContextLine(Dedup(Themes(Join(sentences, " "))), primary)
  }

  function ContextLine(themes: seq<string>, primary: string): string
  {
    if |themes| >= 2 then themes[0] + "과 " + themes[1] + "이 함께 언급됨"
    else if |themes| == 1 then themes[0]
    else if Contains(primary, "테스트") then "테스트를 반복하며 업데이트 전후 변화를 비교함"
    else "기록된 내용을 바탕으로 원인과 흐름을 점검함"
  }

  /** `inferredEmotionLine(from:sentences:)`: the first tag, else a line chosen by hint words. */
  function InferredEmotionLine(tags: seq<string>, sentences: seq<string>): string
  {
    if tags != [] then tags[0]
    else
      var joined := Join(sentences, " ");
      if ContainsAny(joined, ["왜", "답답", "멍청", "구려", "화", "짜증", "억울"]) then "답답함과 의문이 함께 나타남"
      else if ContainsAny(joined, ["걱정", "불안", "초조", "긴장", "비용", "비싼", "압박", "출시", "언제"]) then "불안과 걱정이 함께 나타남"
      else "감정 표현이 비교적 중립적임"
  }

  /** `clipped(_:limit:)`: the text when short enough, else its first `limit` characters and "...". */
  function Clipped(text: string, limit: nat): (r: string)
    ensures |text| <= limit ==> r == text
    ensures |text| > limit ==> |r| == limit + 3 && r[..limit] == text[..limit] && r[limit..] == "..."
  {
    if |text| <= limit then text else text[..limit] + "..."
  }

  /** A clipped text is never longer than the limit and the ellipsis, and adds no character but '.'. */
  lemma ClippedBound(text: string, limit: nat)
    ensures |Clipped(text, limit)| <= if |text| <= limit then |text| else limit + 3
    ensures forall c :: c in Clipped(text, limit) ==> c in text || c == '.'
  {
    var r := Clipped(text, limit);
    if |text| > limit {
      forall c | c in r ensures c in text || c == '.' {
        var i :| 0 <= i < |r| && r[i] == c;
        if i < limit {
          assert r[i] == r[..limit][i] == text[i];
        } else {
          assert r[i] == r[limit..][i - limit];
        }
      }
    }
  }

  // ---------------------------------------------------------------- summary shape

  /** A text without a line break. */
  predicate OneLine(s: string)
  {
    forall i :: 0 <= i < |s| ==> s[i] != '\n'
  }

  lemma HeadsOneLine()
    ensures OneLine(IssueHead) && OneLine(ContextHead) && OneLine(EmotionHead)
  {
  }

  lemma InsufficientIsThreeLines()
    ensures SplitOn(Insufficient, Is('\n')) == InsufficientLines
  {
    assert OneLine(InsufficientLines[0]) && OneLine(InsufficientLines[1]) && OneLine(InsufficientLines[2]);
    SplitJoin(InsufficientLines, '\n');
  }

  /** The six lines `issueSummary` chooses from, in priority order. */
  const IssueLines: seq<string> := [
    "요약 품질과 온디바이스 성능 저하 원인을 점검하는 문제",
    "요약 결과의 정확도와 표현 방식 개선 필요",
    "업데이트 이후 온디바이스 성능 변화를 검증할 필요",
    "개발 비용과 품질 사이의 균형이 핵심 과제",
    "개발 진행 속도와 출시 일정 불확실성 해소 필요",
    IssueFallback
  ]

  lemma IssueSummaryIsListed(sentences: seq<string>, primary: string)
    ensures IssueSummary(sentences, primary) in IssueLines
  {
  }

  lemma IssueLinesOneLine()
    ensures forall k :: 0 <= k < |IssueLines| ==> OneLine(IssueLines[k])
  {
    assert OneLine(IssueLines[0]) && OneLine(IssueLines[1]) && OneLine(IssueLines[2]);
    assert OneLine(IssueLines[3]) && OneLine(IssueLines[4]) && OneLine(IssueLines[5]);
  }

  lemma ThemesAreListed(joined: string)
    ensures forall t :: t in Themes(joined) ==> t in ThemeLabels
  {
  }

  /**
   * A theme is listed exactly when one of its keywords occurs in the joined sentences, and no
   * theme is listed twice, so the ordered dedup of `contextSentence` keeps the themes as they are.
   */
  lemma ThemesIff(joined: string)
    ensures forall k :: 0 <= k < 4 ==> (ThemeLabels[k] in Themes(joined) <==> ContainsAny(joined, ThemeKeywords[k]))
    ensures NoDuplicates(Themes(joined)) && Dedup(Themes(joined)) == Themes(joined)
  {
    ThemeLabelsDistinct();
    forall k | 0 <= k < 4
      ensures ThemeLabels[k] in Themes(joined) <==> ContainsAny(joined, ThemeKeywords[k])
    {
      InThemes(joined, ThemeLabels[k]);
    }
    ThemesDistinct(joined);
    DedupOfDistinct(Themes(joined));
  }

  /** The four labels differ (already in their first syllable). */
  lemma ThemeLabelsDistinct()
    ensures forall k, m :: 0 <= k < m < 4 ==> ThemeLabels[k] != ThemeLabels[m]
  {
    assert ThemeLabels[0][0] == '요' && ThemeLabels[1][0] == '온' && ThemeLabels[2][0] == '개' && ThemeLabels[3][0] == '앱';
  }

  /** A label is among the themes exactly when one of the four checks appended it. */
  lemma InThemes(joined: string, x: string)
    ensures x in Themes(joined) <==> exists k :: 0 <= k < 4 && x == ThemeLabels[k] && ContainsAny(joined, ThemeKeywords[k])
  {
    var t0, t1, t2, t3 := Theme(joined, 0), Theme(joined, 1), Theme(joined, 2), Theme(joined, 3);
    assert x in Themes(joined) <==> x in t0 || x in t1 || x in t2 || x in t3;
  }

  /** The checks append different labels, each at most once. */
  lemma ThemesDistinct(joined: string)
    ensures NoDuplicates(Themes(joined))
  {
    ThemeLabelsDistinct();
    var l0, l1, l2, l3 := ThemeLabels[0], ThemeLabels[1], ThemeLabels[2], ThemeLabels[3];
    var t0, t1, t2, t3 := Theme(joined, 0), Theme(joined, 1), Theme(joined, 2), Theme(joined, 3);
    var s1 := t0 + t1;
    assert NoDuplicates(s1) && forall x :: x in s1 ==> x == l0 || x == l1 by {
      if t1 != [] {
        NoDuplicatesSnoc(t0, l1);
      }
    }
    var s2 := s1 + t2;
    assert NoDuplicates(s2) && forall x :: x in s2 ==> x == l0 || x == l1 || x == l2 by {
      if t2 != [] {
        NoDuplicatesSnoc(s1, l2);
      }
    }
    assert NoDuplicates(s2 + t3) by {
      if t3 != [] {
        NoDuplicatesSnoc(s2, l3);
      }
    }
  }

  lemma OneLineConcat(a: string, b: string)
    requires OneLine(a) && OneLine(b)
    ensures OneLine(a + b)
  {
    forall i | 0 <= i < |a + b| ensures (a + b)[i] != '\n' {
      if i >= |a| {
        assert (a + b)[i] == b[i - |a|];
      }
    }
  }

  lemma ThemeLabelsOneLine()
    ensures forall t :: t in ThemeLabels ==> OneLine(t)
  {
    assert OneLine(ThemeLabels[0]) && OneLine(ThemeLabels[1]) && OneLine(ThemeLabels[2]) && OneLine(ThemeLabels[3]);
  }

  lemma ContextFixedLinesOneLine()
    ensures OneLine("과 ") && OneLine("이 함께 언급됨")
    ensures OneLine("테스트를 반복하며 업데이트 전후 변화를 비교함") && OneLine("기록된 내용을 바탕으로 원인과 흐름을 점검함")
  {
  }

  lemma ContextLineOneLine(themes: seq<string>, primary: string)
    requires forall t :: t in themes ==> OneLine(t)
    ensures OneLine(ContextLine(themes, primary))
  {
    ContextFixedLinesOneLine();
    if |themes| >= 2 {
      assert themes[0] in themes && themes[1] in themes;
      OneLineConcat(themes[0], "과 ");
      OneLineConcat(themes[0] + "과 ", themes[1]);
      OneLineConcat(themes[0] + "과 " + themes[1], "이 함께 언급됨");
    } else if |themes| == 1 {
      assert themes[0] in themes;
    }
  }

  lemma ContextSentenceOneLine(sentences: seq<string>, primary: string)
    ensures OneLine(ContextSentence(sentences, primary))
  {
    var themes := Themes(Join(sentences, " "));
    ThemesAreListed(Join(sentences, " "));
    DedupContents(themes);
    ThemeLabelsOneLine();
    ContextLineOneLine(Dedup(themes), primary);
  }

  lemma InferredEmotionLineOneLine(tags: seq<string>, sentences: seq<string>)
    requires forall t :: t in tags ==> OneLine(t)
    ensures OneLine(InferredEmotionLine(tags, sentences))
  {
    if tags != [] {
      assert tags[0] in tags;
    } else {
      assert OneLine("답답함과 의문이 함께 나타남") && OneLine("불안과 걱정이 함께 나타남") && OneLine("감정 표현이 비교적 중립적임");
    }
  }

  /** Every emotion tag of the analysis is a rule tag or the mood's tag. */
  lemma AnalysisTagsFrom(content: string, mood: Option<string>)
    ensures forall t :: t in AnalysisTagList(content, mood) ==> t in TagsOf(EmotionRules) || t in MoodTags(mood)
  {
    DedupContents(Detected(Clean(content), mood));
    MatchingInTable(Clean(content), EmotionRules);
  }

  /** Every emotion tag of the analysis is a one-word literal, free of line breaks. */
  lemma AnalysisTagsOneLine(content: string, mood: Option<string>)
    ensures forall t :: t in AnalysisTagList(content, mood) ==> OneLine(t)
  {
    AnalysisTagsFrom(content, mood);
    assert forall i :: 0 <= i < |EmotionRules| ==> OneLine(EmotionRules[i].tag);
    assert forall t :: t in TagsOf(EmotionRules) ==> OneLine(t);
    assert forall t :: t in MoodTags(mood) ==> OneLine(t);
  }

  /** The issue line is one of the listed lines, so it holds no line break. */
  lemma IssueSummaryOneLine(sentences: seq<string>, primary: string)
    ensures OneLine(IssueSummary(sentences, primary))
  {
    IssueSummaryIsListed(sentences, primary);
    IssueLinesOneLine();
  }

  /** Clipping a text without line breaks adds none. */
  lemma ClippedOneLine(text: string, limit: nat)
    requires OneLine(text)
    ensures OneLine(Clipped(text, limit))
  {
    ClippedBound(text, limit);
    var r := Clipped(text, limit);
    forall i | 0 <= i < |r| ensures r[i] != '\n' {
      assert r[i] in r;
    }
  }

  /** Three headed lines without line breaks, joined by line breaks, split back into those three lines. */
  lemma ThreeHeadedLines(issue: string, context: string, emotion: string)
    requires OneLine(issue) && OneLine(context) && OneLine(emotion)
    ensures var lines := SplitOn(Join([IssueHead + issue, ContextHead + context, EmotionHead + emotion], "\n"), Is('\n'));
      |lines| == 3 &&
      StartsWith(lines[0], IssueHead) && StartsWith(lines[1], ContextHead) && StartsWith(lines[2], EmotionHead) &&
      lines[2] == EmotionHead + emotion
  {
    var lines := [IssueHead + issue, ContextHead + context, EmotionHead + emotion];
    HeadsOneLine();
    assert forall k :: 0 <= k < 3 ==> '\n' !in lines[k];
    SplitJoin(lines, '\n');
    assert lines[0][..|IssueHead|] == IssueHead;
    assert lines[1][..|ContextHead|] == ContextHead;
    assert lines[2][..|EmotionHead|] == EmotionHead;
  }

  /**
   * With at least one sentence and one-line tags, the summary is exactly three lines, headed
   * "1. 핵심 이슈: ", "2. 상황 맥락: " and "3. 감정 흐름: ", the third naming the first tag
   * whenever there is one.
   */
  lemma BuildSummaryLines(sentences: seq<string>, tags: seq<string>)
    requires sentences != []
    requires forall t :: t in tags ==> OneLine(t)
    ensures var lines := SplitOn(BuildSummary(sentences, tags), Is('\n'));
      |lines| == 3 &&
      StartsWith(lines[0], IssueHead) && StartsWith(lines[1], ContextHead) && StartsWith(lines[2], EmotionHead) &&
      (tags != [] ==> lines[2] == EmotionHead + tags[0])
  {
    var issueSentence := PrimaryIssueSentence(sentences);
    var context := ContextSentence(sentences, issueSentence);
    IssueSummaryOneLine(sentences, issueSentence);
    ContextSentenceOneLine(sentences, issueSentence);
    ClippedOneLine(context, ContextLimit);
    InferredEmotionLineOneLine(tags, sentences);
    ThreeHeadedLines(IssueSummary(sentences, issueSentence), Clipped(context, ContextLimit), InferredEmotionLine(tags, sentences));
  }

  /**
   * The summary of an analysis is always three lines under the three headings: the fixed text
   * when there is no sentence, and otherwise lines whose third names the first tag if any.
   */
  lemma SummaryShape(content: string, mood: Option<string>)
    ensures var r := LocalAnalysis(content, mood);
      var lines := SplitOn(r.summary, Is('\n'));
      (Sentences(Clean(content)) == [] ==> r.summary == Insufficient) &&
      |lines| == 3 &&
      StartsWith(lines[0], IssueHead) && StartsWith(lines[1], ContextHead) && StartsWith(lines[2], EmotionHead) &&
      (Sentences(Clean(content)) != [] && r.emotionTags != [] ==> lines[2] == EmotionHead + r.emotionTags[0])
  {
    var sentences := Sentences(Clean(content));
    var tags := AnalysisTagList(content, mood);
    if sentences == [] {
      InsufficientIsThreeLines();
    } else {
      AnalysisTagsOneLine(content, mood);
      BuildSummaryLines(sentences, tags);
    }
  }
}
