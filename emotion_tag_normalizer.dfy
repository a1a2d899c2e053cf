/**
 * EmotionTagNormalizer: maps free-form emotion labels (English synonyms from the on-device
 * model, or labels already in the app's Korean vocabulary) onto the canonical Korean labels.
 */
module EmotionTagNormalizer {
  import opened Wrappers
  import opened Seqs
  import opened Text

  /** A canonical label and the lower-case English words that stand for it. */
  datatype SynonymGroup = SynonymGroup(canonical: string, words: seq<string>)

  /** The number of groups in the `switch`. */
  const GroupCount: nat := 8

  /** The cases of the `switch`, in order. */
  function Group(g: nat): SynonymGroup
    requires g < GroupCount
  {
    if g == 0 then SynonymGroup("기쁨", ["joy", "happy", "happiness", "delight"])
    else if g == 1 then SynonymGroup("슬픔", ["sad", "sadness", "depressed", "sorrow"])
    else if g == 2 then SynonymGroup("분노", ["anger", "angry", "frustration", "frustrated", "rage"])
    else if g == 3 then SynonymGroup("불안", ["anxiety", "anxious", "worry", "worried", "fear", "nervous"])
    else if g == 4 then SynonymGroup("안정", ["calm", "peace", "peaceful", "stable"])
    else if g == 5 then SynonymGroup("집중", ["focus", "focused", "concentration"])
    else if g == 6 then SynonymGroup("감사", ["gratitude", "grateful", "thanks", "thankful"])
    else SynonymGroup("피로", ["fatigue", "tired", "exhausted", "burnout"])
  }

  /** The canonical labels. */
  const CanonicalLabels: seq<string> := ["기쁨", "슬픔", "분노", "불안", "안정", "집중", "감사", "피로"]

  /**
   * `normalize(_:)`: trims the tag; an empty tag is dropped; the lower-cased tag is looked up
   * among the synonyms; "neutral" is dropped; anything else is kept as trimmed.
   */
  function Normalize(tag: string): Option<string>
  {
    var value := Trim(tag, IsWhitespaceOrNewline);
    if value == [] then None else Lookup(Lower(value), value, 0)
  }

  /**
   * The `switch` on the lower-cased key, case by case from group `g` on; `value` is what a key
   * outside every case and other than "neutral" gives back.
   */
  function Lookup(key: string, value: string, g: nat): Option<string>
    decreases GroupCount - g
  {
    if g >= GroupCount then (if key == "neutral" then None else Some(value))
    else if key in Group(g).words then Some(Group(g).canonical)
    else Lookup(key, value, g + 1)
  }

  /** No word belongs to two groups, so the order of the cases does not matter. */
  lemma GroupsDisjoint(key: string, h: nat, g: nat)
    requires h < g < GroupCount && key in Group(g).words
    ensures key !in Group(h).words
  {
    if g == 1 {
      SadnessWordsAreOwn(key, h);
    } else if g == 2 {
      AngerWordsAreOwn(key, h);
    } else if g == 3 {
      AnxietyWordsAreOwn(key, h);
    } else if g == 4 {
      CalmWordsAreOwn(key, h);
    } else if g == 5 {
      FocusWordsAreOwn(key, h);
    } else if g == 6 {
      GratitudeWordsAreOwn(key, h);
    } else {
      FatigueWordsAreOwn(key, h);
    }
  }

  lemma SadnessWordsAreOwn(key: string, h: nat)
    requires h < 1 && key in Group(1).words
    ensures key !in Group(h).words
  {
  }

  lemma AngerWordsAreOwn(key: string, h: nat)
    requires h < 2 && key in Group(2).words
    ensures key !in Group(h).words
  {
  }

  lemma AnxietyWordsAreOwn(key: string, h: nat)
    requires h < 3 && key in Group(3).words
    ensures key !in Group(h).words
  {
  }

  lemma CalmWordsAreOwn(key: string, h: nat)
    requires h < 4 && key in Group(4).words
    ensures key !in Group(h).words
  {
  }

  lemma FocusWordsAreOwn(key: string, h: nat)
    requires h < 5 && key in Group(5).words
    ensures key !in Group(h).words
  {
  }

  lemma GratitudeWordsAreOwn(key: string, h: nat)
    requires h < 6 && key in Group(6).words
    ensures key !in Group(h).words
  {
  }

  lemma FatigueWordsAreOwn(key: string, h: nat)
    requires h < 7 && key in Group(7).words
    ensures key !in Group(h).words
  {
  }

  /** Every English synonym, whatever its case and surrounding white space, maps to its group's label. */
  lemma SynonymsMapToLabel(tag: string, g: nat)
    requires g < GroupCount
    requires Lower(Trim(tag, IsWhitespaceOrNewline)) in Group(g).words
    ensures Normalize(tag) == Some(Group(g).canonical)
  {
    var value := Trim(tag, IsWhitespaceOrNewline);
    var key := Lower(value);
    assert value != [] by {
      assert |key| == |value|;
    }
    LookupFinds(key, value, 0, g);
  }

  lemma {:induction false} LookupFinds(key: string, value: string, h: nat, g: nat)
    requires h <= g < GroupCount && key in Group(g).words
    ensures Lookup(key, value, h) == Some(Group(g).canonical)
    decreases g - h
  {
    if h < g {
      GroupsDisjoint(key, h, g);
      LookupFinds(key, value, h + 1, g);
    }
  }

  /** Empty or white-space-only tags are dropped. */
  lemma BlankIsDropped(tag: string)
    requires forall c :: c in tag ==> IsWhitespaceOrNewline(c)
    ensures Normalize(tag) == None
  {
    TrimChars(tag, IsWhitespaceOrNewline);
  }

  /** "neutral", in any case and with any surrounding white space, is dropped. */
  lemma NeutralIsDropped(tag: string)
    requires Lower(Trim(tag, IsWhitespaceOrNewline)) == "neutral"
    ensures Normalize(tag) == None
  {
    var value := Trim(tag, IsWhitespaceOrNewline);
    assert |Lower(value)| == |value|;
  }

  /** A tag that is neither blank, a synonym nor "neutral" comes back trimmed, with its case kept. */
  lemma UnknownIsKept(tag: string)
    requires Trim(tag, IsWhitespaceOrNewline) != []
    requires forall g :: 0 <= g < GroupCount ==> Lower(Trim(tag, IsWhitespaceOrNewline)) !in Group(g).words
    requires Lower(Trim(tag, IsWhitespaceOrNewline)) != "neutral"
    ensures Normalize(tag) == Some(Trim(tag, IsWhitespaceOrNewline))
  {
    var value := Trim(tag, IsWhitespaceOrNewline);
    LookupMisses(Lower(value), value, 0);
  }

  /** A key outside the groups from `h` on falls through to the last two cases. */
  lemma {:induction false} LookupMisses(key: string, value: string, h: nat)
    requires forall g :: h <= g < GroupCount ==> key !in Group(g).words
    ensures Lookup(key, value, h) == if key == "neutral" then None else Some(value)
    decreases GroupCount - h
  {
    if h < GroupCount {
      LookupMisses(key, value, h + 1);
    }
  }

  /** Every English word starts with an ASCII letter. */
  lemma WordsStartAscii(key: string, g: nat)
    requires g < GroupCount && key in Group(g).words
    ensures key != [] && key[0] <= '\U{7F}'
  {
  }

  /** A key that starts outside ASCII (a Hangul label, say) is neither a synonym nor "neutral", so it is kept. */
  lemma NonAsciiKeyIsKept(key: string, value: string)
    requires key != [] && key[0] > '\U{7F}'
    ensures Lookup(key, value, 0) == Some(value)
  {
    forall g | 0 <= g < GroupCount ensures key !in Group(g).words {
      if key in Group(g).words {
        WordsStartAscii(key, g);
      }
    }
    LookupMisses(key, value, 0);
  }

  /** Each canonical label is trimmed and normalises to itself. */
  lemma CanonicalIsFixed(t: string)
    requires t in CanonicalLabels
    ensures t != [] && Trim(t, IsWhitespaceOrNewline) == t && Normalize(t) == Some(t)
  {
    TrimOfTrimmed(t, IsWhitespaceOrNewline);
    LowerOfLower(t);
    NonAsciiKeyIsKept(t, t);
  }

  /** A kept tag is non-empty, trimmed, and normalises to itself: normalising is idempotent. */
  lemma NormalizeIdempotent(tag: string)
    requires Normalize(tag).Some?
    ensures var t := Normalize(tag).value;
      t != [] && Trim(t, IsWhitespaceOrNewline) == t && Normalize(t) == Some(t)
  {
    var value := Trim(tag, IsWhitespaceOrNewline);
    var key := Lower(value);
    assert value != [] && Normalize(tag) == Lookup(key, value, 0);
    var t := Lookup(key, value, 0).value;
    LookupResult(key, value, 0);
    if t in CanonicalLabels {
      CanonicalIsFixed(t);
    } else {
      TrimIdempotent(tag, IsWhitespaceOrNewline);
      KeptValueIsFixed(value, key, t);
    }
  }

  /** A trimmed, non-empty tag whose lookup gives it back normalises to itself. */
  lemma KeptValueIsFixed(value: string, key: string, t: string)
    requires value != [] && Trim(value, IsWhitespaceOrNewline) == value && key == Lower(value)
    requires Lookup(key, value, 0) == Some(t) && t == value
    ensures Normalize(t) == Some(t)
  {
  }

  /** The `switch` gives back either a canonical label or the trimmed tag. */
  lemma {:induction false} LookupResult(key: string, value: string, h: nat)
    ensures var r := Lookup(key, value, h); r.Some? ==> r.value in CanonicalLabels || r.value == value
    decreases GroupCount - h
  {
    if h < GroupCount && key !in Group(h).words {
      LookupResult(key, value, h + 1);
    }
  }

  /** `normalizeAll(_:)`: `tags.compactMap { normalize($0) }`, repetitions kept for counting. */
  function NormalizeAll(tags: seq<string>): seq<string>
  {
    CompactMap(tags, Normalize)
  }

  /** Normalising a concatenation normalises each part: order and repetitions are preserved. */
  lemma NormalizeAllConcat(a: seq<string>, b: seq<string>)
    ensures NormalizeAll(a + b) == NormalizeAll(a) + NormalizeAll(b)
  {
    CompactMapConcat(a, b, Normalize);
  }

  /** One label for each tag that normalisation does not drop. */
  lemma NormalizeAllLength(tags: seq<string>)
    ensures |NormalizeAll(tags)| == |Filter(tags, t => Normalize(t).Some?)|
  {
    CompactMapLength(tags, Normalize, t => Normalize(t).Some?);
  }

  /** Every element of `NormalizeAll` is a trimmed, non-empty label that normalises to itself. */
  lemma NormalizeAllFixed(tags: seq<string>, i: nat)
    requires i < |NormalizeAll(tags)|
    ensures var t := NormalizeAll(tags)[i];
      t != [] && Trim(t, IsWhitespaceOrNewline) == t && Normalize(t) == Some(t)
  {
    CompactMapFrom(tags, Normalize, i);
    var j :| 0 <= j < |tags| && Normalize(tags[j]) == Some(NormalizeAll(tags)[i]);
    NormalizeIdempotent(tags[j]);
  }

  /** Every tag that survives normalisation contributes its label. */
  lemma NormalizeAllHas(tags: seq<string>, j: nat)
    requires j < |tags| && Normalize(tags[j]).Some?
    ensures Normalize(tags[j]).value in NormalizeAll(tags)
  {
    CompactMapHas(tags, Normalize, j);
  }

  /**
   * `normalizeList(_:limit:)`: normalises the tags in order, skipping dropped and already
   * seen ones, and stops as soon as the result holds `limit` tags. The check follows the
   * append, so a `limit` of zero or less still lets one tag through.
   */
  method NormalizeList(tags: seq<string>, limit: int) returns (result: seq<string>)
    ensures result == Take(Dedup(NormalizeAll(tags)), if limit < 1 then 1 else limit)
  {
    var seen: set<string> := {};
    result := [];
    ghost var n := if limit < 1 then 1 else limit;
    var i := 0;
    while i < |tags|
      invariant 0 <= i <= |tags|
      invariant result == Dedup(NormalizeAll(tags[..i]))
      invariant forall x :: x in seen <==> x in result
      invariant |result| < n
    {
      var normalized := Normalize(tags[i]);
      DistinctStep(tags, i);
      if normalized.Some? && normalized.value !in seen {
        seen := seen + {normalized.value};
        result := result + [normalized.value];
        if |result| >= limit {
          StopEarly(tags, i + 1, limit, result);
          return;
        }
      }
      i := i + 1;
    }
    assert tags[..i] == tags;
  }

  /** One more tag appends its label, if any, to the normalised prefix. */
  lemma NormalizeStep(tags: seq<string>, i: nat)
    requires i < |tags|
    ensures var n := Normalize(tags[i]);
      NormalizeAll(tags[..i + 1]) == if n.Some? then NormalizeAll(tags[..i]) + [n.value] else NormalizeAll(tags[..i])
  {
    assert NormalizeAll(tags[..i]) + [] == NormalizeAll(tags[..i]);
    assert tags[..i + 1] == tags[..i] + [tags[i]];
    NormalizeAllConcat(tags[..i], [tags[i]]);
    assert NormalizeAll([tags[i]]) == Present(Normalize(tags[i])) + NormalizeAll([]);
  }

  /** One more tag appends its label to the distinct labels so far exactly when it is kept and new. */
  lemma DistinctStep(tags: seq<string>, i: nat)
    requires i < |tags|
    ensures var n := Normalize(tags[i]);
      var before := Dedup(NormalizeAll(tags[..i]));
      Dedup(NormalizeAll(tags[..i + 1])) == if n.Some? && n.value !in before then before + [n.value] else before
  {
    NormalizeStep(tags, i);
    var n := Normalize(tags[i]);
    if n.Some? {
      DedupSnoc(NormalizeAll(tags[..i]), n.value);
    }
  }

  /** Once the distinct labels of a prefix reach the limit, they are the first of all the distinct labels. */
  lemma StopEarly(tags: seq<string>, i: nat, limit: int, result: seq<string>)
    requires i <= |tags| && result == Dedup(NormalizeAll(tags[..i]))
    requires result != [] && |result| >= limit && |result| <= if limit < 1 then 1 else limit
    ensures result == Take(Dedup(NormalizeAll(tags)), if limit < 1 then 1 else limit)
  {
    TakeOfPrefix(tags, i);
  }

  /** The deduplicated normalisation of a prefix of the tags is a prefix of the whole one. */
  lemma TakeOfPrefix(tags: seq<string>, i: nat)
    requires i <= |tags|
    ensures var p := Dedup(NormalizeAll(tags[..i]));
      Take(Dedup(NormalizeAll(tags)), |p|) == p
  {
    NormalizeAllConcat(tags[..i], tags[i..]);
    assert tags[..i] + tags[i..] == tags;
    DedupTakePrefix(NormalizeAll(tags[..i]), NormalizeAll(tags[i..]));
  }

  /** Every distinct normalised label comes from some input tag. */
  lemma DedupOrigin(tags: seq<string>, i: nat)
    requires i < |Dedup(NormalizeAll(tags))|
    ensures exists j :: 0 <= j < |tags| && Normalize(tags[j]) == Some(Dedup(NormalizeAll(tags))[i])
  {
    var normalized := NormalizeAll(tags);
    var x := Dedup(normalized)[i];
    DedupContents(normalized);
    assert x in Dedup(normalized);
    var k :| 0 <= k < |normalized| && normalized[k] == x;
    CompactMapFrom(tags, Normalize, k);
  }

  /** What `normalizeList` promises its callers: distinct normalised inputs in order, at most `limit` of them. */
  lemma NormalizeListSpec(tags: seq<string>, limit: int, result: seq<string>)
    requires result == Take(Dedup(NormalizeAll(tags)), if limit < 1 then 1 else limit)
    ensures NoDuplicates(result)
    ensures |result| <= if limit < 1 then 1 else limit
    ensures forall i :: 0 <= i < |result| ==> exists j :: 0 <= j < |tags| && Normalize(tags[j]) == Some(result[i])
    ensures IsSubsequence(result, NormalizeAll(tags))
  {
    var all := Dedup(NormalizeAll(tags));
    forall i | 0 <= i < |result|
      ensures exists j :: 0 <= j < |tags| && Normalize(tags[j]) == Some(result[i])
    {
      assert result[i] == all[i];
      DedupOrigin(tags, i);
    }
    DedupContents(NormalizeAll(tags));
    TakeNoDuplicates(all, if limit < 1 then 1 else limit);
    DedupIsSubsequence(NormalizeAll(tags));
    PrefixIsSubsequence(result, all, NormalizeAll(tags));
  }
}
