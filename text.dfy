/**
 * The Foundation string operations the diary code relies on, over `string` (a sequence of
 * Unicode scalar values): trimming, substring search, replacement, splitting, joining and
 * lower-casing.
 */
module Text {

  /** Foundation's `CharacterSet.whitespaces`: the tab and the space separators (category Zs). */
  predicate IsSpace(c: char)
  {
    c == ' ' || c == '\t' || c == '\U{A0}' || c == '\U{1680}' || ('\U{2000}' <= c <= '\U{200A}') ||
    c == '\U{202F}' || c == '\U{205F}' || c == '\U{3000}'
  }

  /** Foundation's `CharacterSet.whitespacesAndNewlines`: the above and the line and paragraph breaks. */
  predicate IsWhitespaceOrNewline(c: char)
  {
    IsSpace(c) || ('\n' <= c <= '\r') || c == '\U{85}' || c == '\U{2028}' || c == '\U{2029}'
  }

  /** The class holding just `c`. */
  function Is(c: char): char -> bool
  {
    x => x == c
  }

  // ---------------------------------------------------------------- trimming

  function TrimStart(s: string, ws: char -> bool): (r: string)
    ensures |r| <= |s|
    decreases |s|
  {
    if |s| > 0 && ws(s[0]) then TrimStart(s[1..], ws) else s
  }

  lemma {:induction false} TrimStartShape(s: string, ws: char -> bool)
    ensures var r := TrimStart(s, ws);
      r == s[|s| - |r|..] && (r == [] || !ws(r[0])) &&
      forall i :: 0 <= i < |s| - |r| ==> ws(s[i])
    decreases |s|
  {
    if |s| > 0 && ws(s[0]) {
      TrimStartShape(s[1..], ws);
    }
  }

  function TrimEnd(s: string, ws: char -> bool): (r: string)
    ensures |r| <= |s|
    decreases |s|
  {
    if |s| > 0 && ws(s[|s| - 1]) then TrimEnd(s[..|s| - 1], ws) else s
  }

  lemma {:induction false} TrimEndShape(s: string, ws: char -> bool)
    ensures var r := TrimEnd(s, ws);
      r == s[..|r|] && (r == [] || !ws(r[|r| - 1])) &&
      forall i :: |r| <= i < |s| ==> ws(s[i])
    decreases |s|
  {
    if |s| > 0 && ws(s[|s| - 1]) {
      TrimEndShape(s[..|s| - 1], ws);
    }
  }

  /** `trimmingCharacters(in: ws)`: drops the characters of `ws` at both ends. */
  function Trim(s: string, ws: char -> bool): (r: string)
    ensures |r| <= |s|
  {
    TrimEnd(TrimStart(s, ws), ws)
  }

  /** The trimmed string is a slice of the original whose ends are outside `ws`, everything cut off being in `ws`. */
  lemma TrimShape(s: string, ws: char -> bool)
    ensures var r := Trim(s, ws);
      var k := |s| - |TrimStart(s, ws)|;
      (r == [] || (!ws(r[0]) && !ws(r[|r| - 1]))) &&
      0 <= k <= |s| - |r| && r == s[k..k + |r|] &&
      (forall i :: 0 <= i < k ==> ws(s[i])) &&
      (forall i :: k + |r| <= i < |s| ==> ws(s[i]))
  {
    var a := TrimStart(s, ws);
    TrimStartShape(s, ws);
    TrimEndShape(a, ws);
    var r := TrimEnd(a, ws);
    var k := |s| - |a|;
    assert r == s[k..k + |r|];
    forall i | k + |r| <= i < |s| ensures ws(s[i]) {
      assert s[i] == a[i - k];
    }
  }

  /** Trimming keeps exactly the characters between the first and the last one outside `ws`. */
  lemma TrimChars(s: string, ws: char -> bool)
    ensures forall c :: c in Trim(s, ws) ==> c in s
    ensures Trim(s, ws) == [] <==> forall c :: c in s ==> ws(c)
    ensures forall c :: c in s && !ws(c) ==> c in Trim(s, ws)
  {
    TrimShape(s, ws);
    var r := Trim(s, ws);
    var k := |s| - |TrimStart(s, ws)|;
    forall c | c in s && !ws(c) ensures c in r {
      var i :| 0 <= i < |s| && s[i] == c;
      assert r[i - k] == c;
    }
  }

  /** A string with no trimmable character at either end is its own trim. */
  lemma TrimOfTrimmed(s: string, ws: char -> bool)
    requires s == [] || (!ws(s[0]) && !ws(s[|s| - 1]))
    ensures Trim(s, ws) == s
  {
  }

  lemma TrimIdempotent(s: string, ws: char -> bool)
    ensures Trim(Trim(s, ws), ws) == Trim(s, ws)
  {
    TrimShape(s, ws);
    TrimOfTrimmed(Trim(s, ws), ws);
  }

  /** `map { $0.trimmingCharacters(in: ws) }`. */
  function TrimEach(parts: seq<string>, ws: char -> bool): (r: seq<string>)
    ensures |r| == |parts|
    ensures forall k :: 0 <= k < |r| ==> r[k] == Trim(parts[k], ws)
  {
    if parts == [] then [] else [Trim(parts[0], ws)] + TrimEach(parts[1..], ws)
  }

  // ---------------------------------------------------------------- searching

  predicate StartsWith(s: string, p: string)
  {
    |p| <= |s| && s[..|p|] == p
  }

  /** Foundation's `contains` (and the model of `localizedCaseInsensitiveContains`): `t` occurs in `s`. */
  predicate Contains(s: string, t: string)
    decreases |s|
  {
    StartsWith(s, t) || (|s| > 0 && Contains(s[1..], t))
  }

  /** Reference definition of an occurrence of `t` in `s` at position `i`. */
  ghost predicate OccursAt(s: string, t: string, i: int)
  {
    0 <= i && i + |t| <= |s| && s[i..i + |t|] == t
  }

  lemma {:induction false} ContainsIffOccurs(s: string, t: string)
    ensures Contains(s, t) <==> exists i :: OccursAt(s, t, i)
    decreases |s|
  {
    if StartsWith(s, t) {
      assert OccursAt(s, t, 0);
    } else if |s| > 0 {
      ContainsIffOccurs(s[1..], t);
      if Contains(s[1..], t) {
        var i :| OccursAt(s[1..], t, i);
        assert s[i + 1..i + 1 + |t|] == s[1..][i..i + |t|];
        assert OccursAt(s, t, i + 1);
      } else {
        forall i | OccursAt(s, t, i) ensures false {
          assert i != 0;
          assert s[1..][i - 1..i - 1 + |t|] == s[i..i + |t|];
          assert OccursAt(s[1..], t, i - 1);
        }
      }
    } else {
      assert |t| > 0;
    }
  }

  lemma {:induction false} ContainsEmpty(t: string)
    requires t != []
    ensures !Contains([], t)
  {
  }

  /** `targets.contains { s.contains($0) }`: some target occurs in `s`. */
  predicate ContainsAny(s: string, targets: seq<string>)
    decreases |targets|
  {
    targets != [] && (Contains(s, targets[0]) || ContainsAny(s, targets[1..]))
  }

  /** The search succeeds exactly when some listed target occurs. */
  lemma {:induction false} ContainsAnyIff(s: string, targets: seq<string>)
    ensures ContainsAny(s, targets) <==> exists k :: 0 <= k < |targets| && Contains(s, targets[k])
    decreases |targets|
  {
    if targets != [] {
      ContainsAnyIff(s, targets[1..]);
      if exists k :: 0 <= k < |targets| && Contains(s, targets[k]) {
        var k :| 0 <= k < |targets| && Contains(s, targets[k]);
        if k > 0 {
          assert targets[1..][k - 1] == targets[k];
        }
      }
      if ContainsAny(s, targets[1..]) {
        var k :| 0 <= k < |targets[1..]| && Contains(s, targets[1..][k]);
        assert targets[k + 1] == targets[1..][k];
      }
    }
  }

  lemma {:induction false} ContainsAnyEmpty(targets: seq<string>)
    requires forall k :: 0 <= k < |targets| ==> targets[k] != []
    ensures !ContainsAny([], targets)
    decreases |targets|
  {
    if targets != [] {
      ContainsEmpty(targets[0]);
      ContainsAnyEmpty(targets[1..]);
    }
  }

  /** A search over two target lists is a search over each. */
  lemma {:induction false} ContainsAnyConcat(s: string, a: seq<string>, b: seq<string>)
    ensures ContainsAny(s, a + b) <==> ContainsAny(s, a) || ContainsAny(s, b)
    decreases |a|
  {
    if a == [] {
      assert a + b == b;
    } else {
      assert (a + b)[0] == a[0] && (a + b)[1..] == a[1..] + b;
      ContainsAnyConcat(s, a[1..], b);
    }
  }

  // ---------------------------------------------------------------- replacing

  /**
   * `replacingOccurrences(of: pat, with: rep)`: a single left-to-right pass replacing every
   * non-overlapping occurrence; an empty pattern leaves the string unchanged.
   */
  function ReplaceAll(s: string, pat: string, rep: string): (r: string)
    ensures forall c :: c in r ==> c in s || c in rep
    decreases |s|
  {
    if |pat| == 0 || |s| == 0 then s
    else if StartsWith(s, pat) then rep + ReplaceAll(s[|pat|..], pat, rep)
    else [s[0]] + ReplaceAll(s[1..], pat, rep)
  }

  lemma {:induction false} ReplaceAbsent(s: string, pat: string, rep: string)
    requires !Contains(s, pat)
    ensures ReplaceAll(s, pat, rep) == s
    decreases |s|
  {
    if |pat| > 0 && |s| > 0 {
      ReplaceAbsent(s[1..], pat, rep);
    }
  }

  /** Replacing every occurrence of a single character by nothing leaves none of it. */
  lemma {:induction false} ReplaceAllRemoves(s: string, c: char)
    ensures c !in ReplaceAll(s, [c], [])
    decreases |s|
  {
    if |s| > 0 {
      ReplaceAllRemoves(s[1..], c);
    }
  }

  /** A character outside the pattern is never part of an occurrence, so replacing keeps it. */
  lemma {:induction false} ReplaceAllKeeps(s: string, pat: string, rep: string, c: char)
    requires c in s && c !in pat
    ensures c in ReplaceAll(s, pat, rep)
    decreases |s|
  {
    if |pat| > 0 {
      if StartsWith(s, pat) {
        assert s == pat + s[|pat|..];
        ReplaceAllKeeps(s[|pat|..], pat, rep, c);
      } else if s[0] != c {
        ReplaceAllKeeps(s[1..], pat, rep, c);
      }
    }
  }

  // ---------------------------------------------------------------- splitting and joining

  /**
   * `components(separatedBy: seps)`: the pieces between separator characters, empty pieces
   * included, so there is always one more piece than there are separators.
   */
  function SplitOn(s: string, seps: char -> bool): (parts: seq<string>)
    ensures |parts| >= 1
    ensures forall k :: 0 <= k < |parts| ==> forall c :: c in parts[k] ==> !seps(c)
    decreases |s|
  {
    if |s| == 0 then [[]]
    else if seps(s[0]) then [[]] + SplitOn(s[1..], seps)
    else
      var rest := SplitOn(s[1..], seps);
      [[s[0]] + rest[0]] + rest[1..]
  }

  /** The pieces hold exactly the non-separator characters of `s`. */
  lemma {:induction false} SplitOnChars(s: string, seps: char -> bool)
    ensures forall k, c :: 0 <= k < |SplitOn(s, seps)| && c in SplitOn(s, seps)[k] ==> c in s
    ensures forall c :: c in s && !seps(c) ==> exists k :: 0 <= k < |SplitOn(s, seps)| && c in SplitOn(s, seps)[k]
    decreases |s|
  {
    if |s| > 0 {
      SplitOnChars(s[1..], seps);
      var parts := SplitOn(s, seps);
      var rest := SplitOn(s[1..], seps);
      if seps(s[0]) {
        assert parts[1..] == rest;
        forall k, c | 0 <= k < |parts| && c in parts[k] ensures c in s {
          assert k > 0 && parts[k] == rest[k - 1];
          assert c in s[1..];
        }
        forall c | c in s && !seps(c)
          ensures exists k :: 0 <= k < |parts| && c in parts[k]
        {
          assert c in s[1..];
          var k :| 0 <= k < |rest| && c in rest[k];
          assert c in parts[k + 1];
        }
      } else {
        assert parts[0] == [s[0]] + rest[0] && parts[1..] == rest[1..];
        forall k, c | 0 <= k < |parts| && c in parts[k] ensures c in s {
          if k == 0 {
            assert c == s[0] || c in rest[0];
            assert c == s[0] || c in s[1..];
          } else {
            assert parts[k] == rest[k];
            assert c in s[1..];
          }
        }
        forall c | c in s && !seps(c)
          ensures exists k :: 0 <= k < |parts| && c in parts[k]
        {
          if c == s[0] {
            assert c in parts[0];
          } else {
            assert c in s[1..];
            var k :| 0 <= k < |rest| && c in rest[k];
            if k == 0 {
              assert c in parts[0];
            } else {
              assert parts[k] == rest[k];
            }
          }
        }
      }
    }
  }

  /** `joined(separator: sep)`. */
  function Join(parts: seq<string>, sep: string): string
    decreases |parts|
  {
    if |parts| == 0 then []
    else if |parts| == 1 then parts[0]
    else parts[0] + sep + Join(parts[1..], sep)
  }

  /** A joined text holds only characters of the pieces and of the separator. */
  lemma {:induction false} JoinChars(parts: seq<string>, sep: string)
    ensures forall c :: c in Join(parts, sep) ==> c in sep || exists k :: 0 <= k < |parts| && c in parts[k]
    decreases |parts|
  {
    if |parts| > 1 {
      JoinChars(parts[1..], sep);
      forall c | c in Join(parts, sep) ensures c in sep || exists k :: 0 <= k < |parts| && c in parts[k] {
        if c !in parts[0] && c !in sep {
          assert c in Join(parts[1..], sep);
          var k :| 0 <= k < |parts[1..]| && c in parts[1..][k];
          assert c in parts[k + 1];
        }
      }
    } else if |parts| == 1 {
      assert forall c :: c in Join(parts, sep) ==> c in parts[0];
    }
  }

  /** Splitting on one character undoes joining on it, when no piece holds that character. */
  lemma {:induction false} SplitJoin(parts: seq<string>, c: char)
    requires |parts| >= 1
    requires forall k :: 0 <= k < |parts| ==> c !in parts[k]
    ensures SplitOn(Join(parts, [c]), Is(c)) == parts
    decreases |parts|
  {
    if |parts| == 1 {
      SplitPiece(parts[0], [], c);
      assert parts[0] + [] == parts[0];
    } else {
      SplitJoin(parts[1..], c);
      assert Join(parts, [c]) == parts[0] + ([c] + Join(parts[1..], [c]));
      SplitPiece(parts[0], [c] + Join(parts[1..], [c]), c);
      assert ([c] + Join(parts[1..], [c]))[1..] == Join(parts[1..], [c]);
    }
  }

  /** A piece free of the separator becomes the start of the first component. */
  lemma {:induction false} SplitPiece(p: string, rest: string, c: char)
    requires c !in p
    requires rest == [] || rest[0] == c
    ensures SplitOn(p + rest, Is(c)) ==
      if rest == [] then [p] else [p] + SplitOn(rest[1..], Is(c))
    decreases |p|
  {
    if p == [] {
      assert p + rest == rest;
    } else {
      SplitPiece(p[1..], rest, c);
      assert (p + rest)[1..] == p[1..] + rest;
      assert [p[0]] + p[1..] == p;
    }
  }

  // ---------------------------------------------------------------- case

  /** `lowercased()` on one character; only the ASCII letters are mapped. */
  function LowerChar(c: char): char
  {
    if 'A' <= c <= 'Z' then (c as int + 32) as char else c
  }

  function Lower(s: string): (r: string)
    ensures |r| == |s|
    decreases |s|
  {
    if s == [] then [] else [LowerChar(s[0])] + Lower(s[1..])
  }

  lemma {:induction false} LowerAt(s: string, i: nat)
    requires i < |s|
    ensures Lower(s)[i] == LowerChar(s[i])
    decreases |s|
  {
    if i > 0 {
      LowerAt(s[1..], i - 1);
    }
  }

  predicate HasNoUpper(s: string)
  {
    forall i :: 0 <= i < |s| ==> !('A' <= s[i] <= 'Z')
  }

  lemma {:induction false} LowerOfLower(s: string)
    requires HasNoUpper(s)
    ensures Lower(s) == s
    decreases |s|
  {
    if s != [] {
      LowerOfLower(s[1..]);
    }
  }

  lemma {:induction false} LowerHasNoUpper(s: string)
    ensures HasNoUpper(Lower(s))
  {
    forall i | 0 <= i < |s| ensures !('A' <= Lower(s)[i] <= 'Z') {
      LowerAt(s, i);
    }
  }
}
