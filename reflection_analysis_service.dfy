/**
 * ReflectionAnalysisService and its on-device analyser: the on-device language model's raw
 * responses are cleaned into candidates, scored by token overlap with the diary text, and the
 * best one replaces the local analysis only when it scores at least 0.2 higher.
 */
module ReflectionAnalysisService {
  import opened Wrappers
  import opened Seqs
  import opened Text
  import opened ReflectionAnalyzer

  // ---------------------------------------------------------------- tokens and score

  /**
   * `CharacterSet.alphanumerics`, restricted to the scripts the diary is written in: ASCII
   * letters and digits, Hangul syllables and jamo, and the CJK unified ideographs.
   */
  predicate IsAlphanumeric(c: char)
  {
    ('0' <= c <= '9') || ('a' <= c <= 'z') || ('A' <= c <= 'Z') ||
    ('\U{AC00}' <= c <= '\U{D7A3}') || ('\U{1100}' <= c <= '\U{11FF}') ||
    ('\U{3131}' <= c <= '\U{318E}') || ('\U{4E00}' <= c <= '\U{9FFF}')
  }

  predicate IsTokenSeparator(c: char)
  {
    !IsAlphanumeric(c)
  }

  /** `tokenize(_:)`: the lower-cased alphanumeric runs of at least two characters. */
  function Tokenize(text: string): seq<string>
  {
    Filter(TrimEach(SplitOn(Lower(text), IsTokenSeparator), IsWhitespaceOrNewline), t => |t| >= 2)
  }

  /** Every token has at least two characters, all alphanumeric and none upper-case. */
  lemma TokensWellFormed(text: string)
    ensures forall t :: t in Tokenize(text) ==>
      |t| >= 2 && forall c :: c in t ==> IsAlphanumeric(c) && !('A' <= c <= 'Z')
  {
    var lower := Lower(text);
    var parts := SplitOn(lower, IsTokenSeparator);
    LowerHasNoUpper(text);
    SplitOnChars(lower, IsTokenSeparator);
    forall t | t in Tokenize(text)
      ensures |t| >= 2 && forall c :: c in t ==> IsAlphanumeric(c) && !('A' <= c <= 'Z')
    {
      var k :| 0 <= k < |parts| && TrimEach(parts, IsWhitespaceOrNewline)[k] == t;
      TrimChars(parts[k], IsWhitespaceOrNewline);
      forall c | c in t ensures IsAlphanumeric(c) && !('A' <= c <= 'Z') {
        assert c in parts[k] && c in lower;
      }
    }
  }

  const NoTokenScore: real := -999.0
  const LongSummary: nat := 110

  /** `max(0.0, 1.0 - uniqueRatio)`. */
  function RepetitionPenalty(uniqueRatio: real): (r: real)
    ensures r >= 0.0 && r >= 1.0 - uniqueRatio
    ensures r == 0.0 || r == 1.0 - uniqueRatio
  {
    if 1.0 - uniqueRatio > 0.0 then 1.0 - uniqueRatio else 0.0
  }

  /**
   * `qualityScore(summary:source:)`: the share of the summary's tokens that occur in the
   * source, weighted 1.2, plus 0.4 times the share of distinct tokens, minus 0.4 times the
   * repetition, minus 0.25 for a summary longer than 110 characters; -999 without tokens.
   */
  function QualityScore(summary: string, source: string): real
  {
    var summaryTokens := Tokenize(summary);
    var sourceTokens := Elements(Tokenize(source));
    if summaryTokens == [] then NoTokenScore
    else
      var n := |summaryTokens| as real;
      var overlap := |Filter(summaryTokens, t => t in sourceTokens)|;
      var overlapRatio := overlap as real / n;
      var uniqueRatio := |Elements(summaryTokens)| as real / n;
      var lengthPenalty := if |summary| > LongSummary then 0.25 else 0.0;
      overlapRatio * 1.2 + uniqueRatio * 0.4 - RepetitionPenalty(uniqueRatio) * 0.4 - lengthPenalty
  }

  /** A count out of a positive total is a ratio in [0, 1], positive when the count is. */
  lemma RatioBounds(a: nat, n: nat)
    requires 0 < n && a <= n
    ensures 0.0 <= a as real / n as real <= 1.0
    ensures a > 0 ==> a as real / n as real > 0.0
  {
    var q := a as real / n as real;
    assert q * n as real == a as real;
  }

  /** A summary with tokens scores in (-0.65, 1.6]; one without scores -999. */
  lemma QualityScoreRange(summary: string, source: string)
    ensures Tokenize(summary) == [] ==> QualityScore(summary, source) == NoTokenScore
    ensures Tokenize(summary) != [] ==> -0.65 < QualityScore(summary, source) <= 1.6
  {
    var summaryTokens := Tokenize(summary);
    if summaryTokens != [] {
      var sourceTokens := Elements(Tokenize(source));
      var n := |summaryTokens|;
      var overlap := |Filter(summaryTokens, t => t in sourceTokens)|;
      ElementsCard(summaryTokens);
      RatioBounds(overlap, n);
      RatioBounds(|Elements(summaryTokens)|, n);
      var u := |Elements(summaryTokens)| as real / n as real;
      assert RepetitionPenalty(u) == 1.0 - u;
    }
  }

  // ---------------------------------------------------------------- extracting the JSON object

  /** `firstIndex(of:)`. */
  function FirstIndexOf(s: string, c: char): (r: Option<nat>)
    ensures r.None? <==> c !in s
    ensures r.Some? ==> r.value < |s| && s[r.value] == c && c !in s[..r.value]
  {
    if s == [] then None
    else if s[0] == c then Some(0)
    else
      var rest := FirstIndexOf(s[1..], c);
      if rest.None? then None
      else
        assert s[..rest.value + 1] == [s[0]] + s[1..][..rest.value];
        Some(rest.value + 1)
  }

  /** `lastIndex(of:)`. */
  function LastIndexOf(s: string, c: char): (r: Option<nat>)
    ensures r.None? <==> c !in s
    ensures r.Some? ==> r.value < |s| && s[r.value] == c && c !in s[r.value + 1..]
  {
    if s == [] then None
    else if s[|s| - 1] == c then Some(|s| - 1)
    else
      var rest := LastIndexOf(s[..|s| - 1], c);
      if rest.None? then None
      else
        assert s[rest.value + 1..] == s[..|s| - 1][rest.value + 1..] + [s[|s| - 1]];
        Some(rest.value)
  }

  /** The first '{' does not come after the last '}' (or one of them is missing). */
  predicate BracesInOrder(text: string)
  {
    var first := FirstIndexOf(text, '{');
    var last := LastIndexOf(text, '}');
    first.None? || last.None? || first.value <= last.value
  }

  /**
   * `extractJSONObject(from:)` as written: the text from the first '{' through the last '}'.
   * The closed range `first...last` traps when the last '}' precedes the first '{', so the
   * code demands `BracesInOrder` of its input.
   */
  function ExtractJSONObjectAsWritten(text: string): (r: Option<string>)
    requires BracesInOrder(text)
    ensures r.None? <==> '{' !in text || '}' !in text
    ensures r.Some? ==> |r.value| >= 1 && r.value[0] == '{' && r.value[|r.value| - 1] == '}'
  {
    var first := FirstIndexOf(text, '{');
    var last := LastIndexOf(text, '}');
    if first.None? || last.None? then None
    else Some(text[first.value..last.value + 1])
  }

  /** "}{" holds both braces in the wrong order: the as-written extraction traps on it. */
  lemma ReversedBracesTrap()
    ensures '{' in "}{" && '}' in "}{"
    ensures !BracesInOrder("}{")
  {
    assert FirstIndexOf("}{", '{') == Some(1);
    assert LastIndexOf("}{", '}') == Some(0);
  }

  /** The extraction the code evidently intends: no object when the braces are out of order. */
  function ExtractJSONObject(text: string): (r: Option<string>)
    ensures r.None? <==> '{' !in text || '}' !in text || !BracesInOrder(text)
    ensures r.Some? ==> |r.value| >= 1 && r.value[0] == '{' && r.value[|r.value| - 1] == '}'
  {
    var first := FirstIndexOf(text, '{');
    var last := LastIndexOf(text, '}');
    if first.None? || last.None? || last.value < first.value then None
    else Some(text[first.value..last.value + 1])
  }

  /** Wherever the written code does not trap, the corrected extraction agrees with it. */
  lemma ExtractAgrees(text: string)
    requires BracesInOrder(text)
    ensures ExtractJSONObject(text) == ExtractJSONObjectAsWritten(text)
  {
  }

  lemma FirstIndexAtStart(s: string, c: char)
    requires s != [] && s[0] == c
    ensures FirstIndexOf(s, c) == Some(0)
  {
  }

  lemma LastIndexAtEnd(s: string, c: char)
    requires s != [] && s[|s| - 1] == c
    ensures LastIndexOf(s, c) == Some(|s| - 1)
  {
  }

  /**
   * The extracted object is the slice of the text from its first '{' to its last '}': no '{'
   * comes before it and no '}' after it.
   */
  lemma ExtractIsOutermostSlice(text: string)
    requires ExtractJSONObject(text).Some?
    ensures var obj := ExtractJSONObject(text).value;
      exists i :: 0 <= i && i + |obj| <= |text| && text[i..i + |obj|] == obj && '{' !in text[..i] && '}' !in text[i + |obj|..]
  {
    var first := FirstIndexOf(text, '{').value;
    var last := LastIndexOf(text, '}').value;
    var obj := text[first..last + 1];
    assert ExtractJSONObject(text).value == obj;
    assert first + |obj| == last + 1;
    assert text[first..first + |obj|] == obj;
  }

  /** Extracting from an extracted object gives it back. */
  lemma ExtractIdempotent(text: string)
    requires ExtractJSONObject(text).Some?
    ensures ExtractJSONObject(ExtractJSONObject(text).value) == ExtractJSONObject(text)
  {
    var obj := ExtractJSONObject(text).value;
    FirstIndexAtStart(obj, '{');
    LastIndexAtEnd(obj, '}');
    assert obj[0..|obj| - 1 + 1] == obj;
  }

  // ---------------------------------------------------------------- cleaning the summary

  const BannedFragments: seq<string> := ["기록이 짧아요", "한 줄만 더", "남겨보세요", "적어보세요", "핵심 흐름을 정리", "뚜렷한 감정 키워드 없음"]

  /** Deletes every occurrence of each fragment in turn, in list order. */
  function RemoveFragments(line: string, fragments: seq<string>): string
  {
    if fragments == [] then line
    else ReplaceAll(RemoveFragments(line, fragments[..|fragments| - 1]), fragments[|fragments| - 1], "")
  }

  /** `sanitizeLine(_:)`, as a value. */
  function Sanitized(line: string): string
  {
    Trim(ReplaceAll(RemoveFragments(line, BannedFragments), "  ", " "), IsWhitespaceOrNewline)
  }

  /** `sanitizeLine(_:)`: deletes the banned fragments in order, halves double spaces, trims. */
  method SanitizeLine(line: string) returns (output: string)
    ensures output == Sanitized(line)
  {
    output := line;
    for i := 0 to |BannedFragments|
      invariant output == RemoveFragments(line, BannedFragments[..i])
    {
      output := ReplaceAll(output, BannedFragments[i], "");
      assert BannedFragments[..i + 1][..i] == BannedFragments[..i];
    }
    assert BannedFragments[..|BannedFragments|] == BannedFragments;
    output := ReplaceAll(output, "  ", " ");
    output := Trim(output, IsWhitespaceOrNewline);
  }

  /** Deleting fragments only ever removes characters. */
  lemma {:induction false} RemoveFragmentsChars(line: string, fragments: seq<string>)
    ensures forall c :: c in RemoveFragments(line, fragments) ==> c in line
    decreases |fragments|
  {
    if fragments != [] {
      RemoveFragmentsChars(line, fragments[..|fragments| - 1]);
    }
  }

  /** A line containing none of the fragments is left alone by the deletions. */
  lemma {:induction false} RemoveFragmentsAbsent(line: string, fragments: seq<string>)
    requires forall k :: 0 <= k < |fragments| ==> !Contains(line, fragments[k])
    ensures RemoveFragments(line, fragments) == line
    decreases |fragments|
  {
    if fragments != [] {
      RemoveFragmentsAbsent(line, fragments[..|fragments| - 1]);
      ReplaceAbsent(line, fragments[|fragments| - 1], "");
    }
  }

  /** The sanitised line has no blank at either end and adds no character but the space. */
  lemma SanitizedShape(line: string)
    ensures var r := Sanitized(line);
      (r == [] || (!IsWhitespaceOrNewline(r[0]) && !IsWhitespaceOrNewline(r[|r| - 1]))) &&
      forall c :: c in r ==> c in line || c == ' '
  {
    var removed := RemoveFragments(line, BannedFragments);
    RemoveFragmentsChars(line, BannedFragments);
    TrimShape(ReplaceAll(removed, "  ", " "), IsWhitespaceOrNewline);
    TrimChars(ReplaceAll(removed, "  ", " "), IsWhitespaceOrNewline);
  }

  /** A trimmed line without banned fragments or double spaces is already sanitised. */
  lemma SanitizedFixedPoint(line: string)
    requires forall k :: 0 <= k < |BannedFragments| ==> !Contains(line, BannedFragments[k])
    requires !Contains(line, "  ")
    requires line == [] || (!IsWhitespaceOrNewline(line[0]) && !IsWhitespaceOrNewline(line[|line| - 1]))
    ensures Sanitized(line) == line
  {
    RemoveFragmentsAbsent(line, BannedFragments);
    ReplaceAbsent(line, "  ", " ");
    TrimOfTrimmed(line, IsWhitespaceOrNewline);
  }

  /** The words of the summary, joined by single spaces. */
  function SingleLine(summary: string): string
  {
    Join(Filter(SplitOn(ReplaceAll(summary, "\n", " "), IsWhitespaceOrNewline), w => w != []), " ")
  }

  /** `refineSummary(_:)`: the summary on a single line, then sanitised. */
  function RefineSummary(summary: string): string
  {
    Sanitized(SingleLine(summary))
  }

  /**
   * The refined summary has no line break and no blank at either end: every blank left in it
   * is a plain space.
   */
  lemma RefinedIsOneLine(summary: string)
    ensures var r := RefineSummary(summary);
      (r == [] || (!IsWhitespaceOrNewline(r[0]) && !IsWhitespaceOrNewline(r[|r| - 1]))) &&
      forall c :: c in r ==> c == ' ' || !IsWhitespaceOrNewline(c)
  {
    var words := Filter(SplitOn(ReplaceAll(summary, "\n", " "), IsWhitespaceOrNewline), w => w != []);
    JoinChars(words, " ");
    forall c | c in SingleLine(summary) ensures c == ' ' || !IsWhitespaceOrNewline(c) {
      if c != ' ' {
        var k :| 0 <= k < |words| && c in words[k];
        assert words[k] in words;
      }
    }
    SanitizedShape(SingleLine(summary));
  }

  // ---------------------------------------------------------------- candidates

  /** The decoded JSON payload of one response. */
  datatype Payload = Payload(summary: string, emotionTags: seq<string>)

  const MaxCandidateTags: nat := 3

  /** The candidate's tags: trimmed, empty ones dropped, at most three. */
  function TrimTags(tags: seq<string>): (r: seq<string>)
    ensures |r| <= MaxCandidateTags
  {
    Take(Filter(TrimEach(tags, IsWhitespaceOrNewline), t => t != []), MaxCandidateTags)
  }

  /** Each kept tag is non-empty, trimmed, and comes from the payload in order. */
  lemma TrimTagsShape(tags: seq<string>)
    ensures var r := TrimTags(tags);
      IsSubsequence(r, TrimEach(tags, IsWhitespaceOrNewline)) &&
      forall t :: t in r ==> t != [] && Trim(t, IsWhitespaceOrNewline) == t
  {
    var trimmed := TrimEach(tags, IsWhitespaceOrNewline);
    var kept := Filter(trimmed, t => t != []);
    var r := TrimTags(tags);
    FilterIsSubsequence(trimmed, t => t != []);
    PrefixIsSubsequence(r, kept, trimmed);
    forall t | t in r ensures t != [] && Trim(t, IsWhitespaceOrNewline) == t {
      assert t in kept;
      var k :| 0 <= k < |trimmed| && trimmed[k] == t;
      TrimIdempotent(tags[k], IsWhitespaceOrNewline);
    }
  }

  /** One response's candidate: none when no object is found, decoding fails or the summary cleans to nothing. */
  function Candidate(raw: string, decode: string -> Option<Payload>): Option<ReflectionAnalysis>
  {
    match ExtractJSONObject(raw)
    case None => None
    case Some(json) =>
      match decode(json)
      case None => None
      case Some(payload) =>
        var refined := RefineSummary(payload.summary);
        if refined == [] then None else Some(ReflectionAnalysis(refined, TrimTags(payload.emotionTags)))
  }

  function Candidates(responses: seq<string>, decode: string -> Option<Payload>): seq<ReflectionAnalysis>
  {
    CompactMap(responses, raw => Candidate(raw, decode))
  }

  /** A candidate's summary is a non-empty single line and its tags are at most three trimmed, non-empty labels. */
  predicate WellFormedCandidate(c: ReflectionAnalysis)
  {
    c.summary != [] && (forall ch :: ch in c.summary ==> ch == ' ' || !IsWhitespaceOrNewline(ch)) &&
    |c.emotionTags| <= MaxCandidateTags &&
    forall t :: t in c.emotionTags ==> t != [] && Trim(t, IsWhitespaceOrNewline) == t
  }

  lemma CandidateWellFormed(raw: string, decode: string -> Option<Payload>)
    requires Candidate(raw, decode).Some?
    ensures WellFormedCandidate(Candidate(raw, decode).value)
  {
    var payload := decode(ExtractJSONObject(raw).value).value;
    RefinedIsOneLine(payload.summary);
    TrimTagsShape(payload.emotionTags);
  }

  /** At most one candidate per response, each well formed. */
  lemma CandidatesWellFormed(responses: seq<string>, decode: string -> Option<Payload>)
    ensures |Candidates(responses, decode)| <= |responses|
    ensures forall i :: 0 <= i < |Candidates(responses, decode)| ==> WellFormedCandidate(Candidates(responses, decode)[i])
  {
    forall i | 0 <= i < |Candidates(responses, decode)| ensures WellFormedCandidate(Candidates(responses, decode)[i]) {
      CompactMapFrom(responses, raw => Candidate(raw, decode), i);
      var j :| 0 <= j < |responses| && Candidate(responses[j], decode) == Some(Candidates(responses, decode)[i]);
      CandidateWellFormed(responses[j], decode);
    }
  }

  /**
   * `chooseBest(from:source:)`: a candidate of highest quality score. The source ranks with an
   * unstable sort; the model takes the first highest.
   */
  function ChooseBest(candidates: seq<ReflectionAnalysis>, source: string): (r: ReflectionAnalysis)
    requires candidates != []
    ensures r in candidates
    ensures forall c :: c in candidates ==> QualityScore(c.summary, source) <= QualityScore(r.summary, source)
  {
    ArgMax(candidates, (c: ReflectionAnalysis) => QualityScore(c.summary, source))
  }

  lemma CandidatesSnoc(responses: seq<string>, i: nat, decode: string -> Option<Payload>)
    requires i < |responses|
    ensures Candidates(responses[..i + 1], decode) ==
      Candidates(responses[..i], decode) + Present(Candidate(responses[i], decode))
  {
    CompactMapSnoc(responses, i, raw => Candidate(raw, decode));
  }

  /** The session is asked twice. */
  const ResponseCount: nat := 2

  /**
   * `AppleOnDeviceDiaryAnalyzer.analyze(content:mood:)`: the model's raw responses and the
   * JSON decoder are inputs. Blank content yields nothing; otherwise the best candidate, if any.
   */
  method OnDeviceAnalyze(content: string, responses: seq<string>, decode: string -> Option<Payload>)
    returns (r: Option<ReflectionAnalysis>)
    requires |responses| == ResponseCount
    ensures Trim(content, IsWhitespaceOrNewline) == [] ==> r.None?
    ensures Trim(content, IsWhitespaceOrNewline) != [] ==> (r.None? <==> Candidates(responses, decode) == [])
    ensures r.Some? ==> r.value == ChooseBest(Candidates(responses, decode), content)
  {
    if Trim(content, IsWhitespaceOrNewline) == [] {
      return None;
    }
    var candidates: seq<ReflectionAnalysis> := [];
    for i := 0 to ResponseCount
      invariant candidates == Candidates(responses[..i], decode)
    {
      CandidatesSnoc(responses, i, decode);
      var json := ExtractJSONObject(responses[i]);
      if json.Some? {
        var payload := decode(json.value);
        if payload.Some? {
          var refined := RefineSummary(payload.value.summary);
          if refined != [] {
            var tags := TrimTags(payload.value.emotionTags);
            candidates := candidates + [ReflectionAnalysis(refined, tags)];
          } else {
            assert candidates + [] == candidates;
          }
        } else {
          assert candidates + [] == candidates;
        }
      } else {
        assert candidates + [] == candidates;
      }
    }
    assert responses[..ResponseCount] == responses;
    if candidates == [] {
      return None;
    }
    r := Some(ChooseBest(candidates, content));
  }

  // ---------------------------------------------------------------- adoption

  const AdoptionThreshold: real := 0.2

  /**
   * `ReflectionAnalysisService.analyze(content:mood:)`: the on-device outcome is an input,
   * `None` when the model is unavailable, produced nothing or threw.
   */
  function ServiceAnalyze(content: string, mood: Option<string>, onDevice: Option<ReflectionAnalysis>): ReflectionAnalysis
  {
    var fallback := LocalAnalysis(content, mood);
    if onDevice.Some? && QualityScore(onDevice.value.summary, content) >= QualityScore(fallback.summary, content) + AdoptionThreshold
    then onDevice.value
    else fallback
  }

  /**
   * The awaited `analyze(content:mood:)` call: the local analysis, unless the on-device result
   * scores at least the threshold above it, in which case the on-device result.
   */
  method Analyze(content: string, mood: Option<string>, onDevice: Option<ReflectionAnalysis>) returns (r: ReflectionAnalysis)
    ensures r == ServiceAnalyze(content, mood, onDevice)
    ensures onDevice.None? ==> r == LocalAnalysis(content, mood)
    ensures onDevice.Some? && QualityScore(onDevice.value.summary, content) >= QualityScore(LocalAnalysis(content, mood).summary, content) + AdoptionThreshold ==>
      r == onDevice.value
    ensures onDevice.Some? && QualityScore(onDevice.value.summary, content) < QualityScore(LocalAnalysis(content, mood).summary, content) + AdoptionThreshold ==>
      r == LocalAnalysis(content, mood)
  {
    var fallback := LocalAnalysis(content, mood);
    r := fallback;
    if onDevice.Some? {
      var onDeviceScore := QualityScore(onDevice.value.summary, content);
      var fallbackScore := QualityScore(fallback.summary, content);
      if onDeviceScore >= fallbackScore + AdoptionThreshold {
        r := onDevice.value;
      }
    }
  }

  /**
   * The result is the local analysis unless an on-device result exists whose score beats the
   * local one by at least the threshold, in which case that result is taken.
   */
  lemma AdoptionRule(content: string, mood: Option<string>, onDevice: Option<ReflectionAnalysis>)
    ensures var r := ServiceAnalyze(content, mood, onDevice);
      var fallback := LocalAnalysis(content, mood);
      (r == fallback || (onDevice.Some? && r == onDevice.value)) &&
      (onDevice.None? ==> r == fallback) &&
      (onDevice.Some? && QualityScore(onDevice.value.summary, content) >= QualityScore(fallback.summary, content) + AdoptionThreshold ==> r == onDevice.value) &&
      (r != fallback ==> QualityScore(r.summary, content) >= QualityScore(fallback.summary, content) + AdoptionThreshold)
  {
  }

  /** An on-device summary without tokens is never adopted, whatever the local summary scores. */
  lemma TokenlessNeverAdopted(content: string, mood: Option<string>, onDevice: Option<ReflectionAnalysis>)
    requires onDevice.Some? && Tokenize(onDevice.value.summary) == []
    ensures ServiceAnalyze(content, mood, onDevice) == LocalAnalysis(content, mood)
  {
    QualityScoreRange(onDevice.value.summary, content);
    QualityScoreRange(LocalAnalysis(content, mood).summary, content);
  }
}
