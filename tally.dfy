/**
 * Frequency tables as the view models build them: `Dictionary(grouping:by:)` followed by
 * `mapValues(\.count)`, then `sorted { $0.count > $1.count }` and a prefix. Dictionary order and
 * the unstable sort leave ties unspecified in Swift; here the table lists keys in order of first
 * occurrence and the sort keeps that order among equal counts, and every contract speaks only of
 * counts, so it holds for any tie order.
 */
module Tally {
  import opened Seqs

  /** One key with the number of its occurrences. */
  datatype Entry = Entry(key: string, count: nat)

  /** Occurrences of `x` in `s`. */
  function Count(s: seq<string>, x: string): nat
  {
    if s == [] then 0 else Count(s[..|s| - 1], x) + (if s[|s| - 1] == x then 1 else 0)
  }

  function Keys(entries: seq<Entry>): seq<string>
  {
    seq(|entries|, i requires 0 <= i < |entries| => entries[i].key)
  }

  /** The sum of the counts. */
  function Total(entries: seq<Entry>): nat
  {
    if entries == [] then 0 else entries[0].count + Total(entries[1..])
  }

  /** Each of `keys` with its number of occurrences in `s`. */
  function CountsOf(keys: seq<string>, s: seq<string>): (r: seq<Entry>)
    ensures |r| == |keys| && Keys(r) == keys
  {
    seq(|keys|, i requires 0 <= i < |keys| => Entry(keys[i], Count(s, keys[i])))
  }

  /**
   * `Dictionary(grouping: s, by: { $0 }).mapValues(\.count)`: each distinct element with its
   * number of occurrences, listed in order of first occurrence.
   */
  function Tally(s: seq<string>): seq<Entry>
  {
    CountsOf(Dedup(s), s)
  }

  lemma CountSnoc(s: seq<string>, x: string, y: string)
    ensures Count(s + [x], y) == Count(s, y) + (if x == y then 1 else 0)
  {
    assert (s + [x])[..|s|] == s;
  }

  lemma {:induction false} CountAbsent(s: seq<string>, x: string)
    requires x !in s
    ensures Count(s, x) == 0
    decreases |s|
  {
    if s != [] {
      assert forall y :: y in s[..|s| - 1] ==> y in s;
      CountAbsent(s[..|s| - 1], x);
    }
  }

  /** One more occurrence of a listed key adds one to the total; any other element adds nothing. */
  lemma {:induction false} TotalSnoc(keys: seq<string>, s: seq<string>, x: string)
    requires NoDuplicates(keys)
    ensures Total(CountsOf(keys, s + [x])) == Total(CountsOf(keys, s)) + (if x in keys then 1 else 0)
    decreases |keys|
  {
    if keys != [] {
      assert CountsOf(keys, s + [x])[1..] == CountsOf(keys[1..], s + [x]);
      assert CountsOf(keys, s)[1..] == CountsOf(keys[1..], s);
      CountSnoc(s, x, keys[0]);
      assert x in keys <==> x == keys[0] || x in keys[1..];
      assert x == keys[0] ==> x !in keys[1..];
      TotalSnoc(keys[1..], s, x);
    }
  }

  lemma {:induction false} TotalAppend(keys: seq<string>, s: seq<string>, x: string)
    ensures Total(CountsOf(keys + [x], s)) == Total(CountsOf(keys, s)) + Count(s, x)
    decreases |keys|
  {
    if keys == [] {
      assert CountsOf([x], s)[1..] == [];
    } else {
      assert (keys + [x])[1..] == keys[1..] + [x];
      assert CountsOf(keys + [x], s)[1..] == CountsOf(keys[1..] + [x], s);
      assert CountsOf(keys, s)[1..] == CountsOf(keys[1..], s);
      TotalAppend(keys[1..], s, x);
    }
  }

  /**
   * The table holds each element of `s` exactly once, with its number of occurrences, and
   * nothing else; its counts add up to the length of `s`.
   */
  lemma {:induction false} TallyFacts(s: seq<string>)
    ensures NoDuplicates(Keys(Tally(s)))
    ensures forall x :: x in Keys(Tally(s)) <==> x in s
    ensures forall i :: 0 <= i < |Tally(s)| ==> Tally(s)[i].count == Count(s, Tally(s)[i].key) >= 1
    ensures Total(Tally(s)) == |s|
    decreases |s|
  {
    DedupContents(s);
    forall i | 0 <= i < |Tally(s)| ensures Tally(s)[i].count >= 1 {
      var x := Dedup(s)[i];
      if Count(s, x) == 0 {
        CountPositive(s, x);
      }
    }
    if s != [] {
      var init := s[..|s| - 1];
      var x := s[|s| - 1];
      assert s == init + [x];
      TallyFacts(init);
      DedupContents(init);
      DedupSnoc(init, x);
      TotalSnoc(Dedup(init), init, x);
      if x !in init {
        TotalAppend(Dedup(init), s, x);
        CountAbsent(init, x);
        CountSnoc(init, x, x);
      }
    }
  }

  lemma {:induction false} CountPositive(s: seq<string>, x: string)
    requires x in s
    ensures Count(s, x) >= 1
    decreases |s|
  {
    if s[|s| - 1] != x {
      assert x in s[..|s| - 1] by {
        var k :| 0 <= k < |s| && s[k] == x;
        assert s[..|s| - 1][k] == x;
      }
      CountPositive(s[..|s| - 1], x);
    }
  }

  // ---------------------------------------------------------------- sorting by count

  /** Counts never increase along the list. */
  predicate NonIncreasing(entries: seq<Entry>)
  {
    forall i, j :: 0 <= i < j < |entries| ==> entries[i].count >= entries[j].count
  }

  /** Places `e` before the first entry whose count does not exceed its own. */
  function Insert(e: Entry, sorted: seq<Entry>): (r: seq<Entry>)
    ensures multiset(r) == multiset{e} + multiset(sorted)
    ensures forall k :: 0 <= k < |r| ==> r[k] == e || r[k] in sorted
    ensures Total(r) == e.count + Total(sorted)
  {
    if sorted == [] || e.count >= sorted[0].count then [e] + sorted
    else
      assert sorted == [sorted[0]] + sorted[1..];
      [sorted[0]] + Insert(e, sorted[1..])
  }

  lemma {:induction false} InsertSorted(e: Entry, sorted: seq<Entry>)
    requires NonIncreasing(sorted)
    ensures NonIncreasing(Insert(e, sorted))
    decreases |sorted|
  {
    if sorted != [] && e.count < sorted[0].count {
      InsertSorted(e, sorted[1..]);
      var rest := Insert(e, sorted[1..]);
      forall k | 0 <= k < |rest| ensures sorted[0].count >= rest[k].count {
        if rest[k] != e {
          var j :| 0 <= j < |sorted[1..]| && sorted[1..][j] == rest[k];
          assert sorted[j + 1] == rest[k];
        }
      }
    }
  }

  /** `sorted { $0.count > $1.count }` on the table's entries. */
  function SortByCount(entries: seq<Entry>): (r: seq<Entry>)
    ensures multiset(r) == multiset(entries)
    ensures Total(r) == Total(entries)
  {
    if entries == [] then []
    else
      assert entries == [entries[0]] + entries[1..];
      Insert(entries[0], SortByCount(entries[1..]))
  }

  lemma {:induction false} SortByCountSorted(entries: seq<Entry>)
    ensures NonIncreasing(SortByCount(entries))
    decreases |entries|
  {
    if entries != [] {
      SortByCountSorted(entries[1..]);
      InsertSorted(entries[0], SortByCount(entries[1..]));
    }
  }

  /** The frequency table of `s`, most frequent first. */
  function Ranked(s: seq<string>): seq<Entry>
  {
    SortByCount(Tally(s))
  }

  /** Two tables holding the same entries have the same length and the same keys. */
  lemma SameEntries(t: seq<Entry>, r: seq<Entry>)
    requires multiset(r) == multiset(t)
    ensures |r| == |t|
    ensures forall e :: e in r <==> e in t
    ensures forall x :: x in Keys(r) <==> x in Keys(t)
  {
    assert |r| == |multiset(r)| == |multiset(t)| == |t|;
    forall e ensures e in r <==> e in t {
      assert e in r <==> e in multiset(r);
      assert e in t <==> e in multiset(t);
    }
    forall x | x in Keys(r) ensures x in Keys(t) {
      var i :| 0 <= i < |r| && Keys(r)[i] == x;
      assert r[i] in t;
      var j :| 0 <= j < |t| && t[j] == r[i];
      assert Keys(t)[j] == x;
    }
    forall x | x in Keys(t) ensures x in Keys(r) {
      var j :| 0 <= j < |t| && Keys(t)[j] == x;
      assert t[j] in r;
      var i :| 0 <= i < |r| && r[i] == t[j];
      assert Keys(r)[i] == x;
    }
  }

  /** Every entry of a table built by `CountsOf` carries its key's number of occurrences. */
  lemma CountsOfEntry(keys: seq<string>, s: seq<string>, e: Entry)
    requires e in CountsOf(keys, s)
    ensures e.count == Count(s, e.key) && e.key in keys
  {
    var j :| 0 <= j < |keys| && CountsOf(keys, s)[j] == e;
  }

  /**
   * The ranked table lists each element of `s` once with its number of occurrences, most
   * frequent first, and its counts add up to the length of `s`.
   */
  lemma RankedFacts(s: seq<string>)
    ensures NonIncreasing(Ranked(s))
    ensures |Ranked(s)| == |Tally(s)|
    ensures forall x :: x in Keys(Ranked(s)) <==> x in s
    ensures forall i :: 0 <= i < |Ranked(s)| ==> Ranked(s)[i].count == Count(s, Ranked(s)[i].key) >= 1
    ensures Total(Ranked(s)) == |s|
  {
    var t := Tally(s);
    var r := SortByCount(t);
    TallyFacts(s);
    SortByCountSorted(t);
    SameEntries(t, r);
    forall i | 0 <= i < |r| ensures r[i].count == Count(s, r[i].key) >= 1 {
      assert r[i] in t;
      CountsOfEntry(Dedup(s), s, r[i]);
      DedupContents(s);
      CountPositive(s, r[i].key);
    }
  }

  /**
   * `sorted { ... }.prefix(k)`: at most `k` entries, most frequent first, and every element of
   * `s` left out occurs no more often than any entry kept.
   */
  function Top(s: seq<string>, k: nat): seq<Entry>
  {
    Take(Ranked(s), k)
  }

  lemma TopFacts(s: seq<string>, k: nat)
    ensures |Top(s, k)| <= k && NonIncreasing(Top(s, k))
    ensures |Top(s, k)| == if k < |Tally(s)| then k else |Tally(s)|
    ensures forall i :: 0 <= i < |Top(s, k)| ==> Top(s, k)[i].count == Count(s, Top(s, k)[i].key) >= 1
    ensures |s| > 0 && k > 0 ==> |Top(s, k)| > 0
  {
    RankedFacts(s);
    if |s| > 0 && k > 0 {
      assert s[0] in Keys(Ranked(s));
    }
  }

  /** Every element of `s` left out of the top `k` occurs no more often than any entry kept. */
  lemma TopOutranksRest(s: seq<string>, k: nat, x: string, i: nat)
    requires x in s && x !in Keys(Top(s, k)) && i < |Top(s, k)|
    ensures Count(s, x) <= Top(s, k)[i].count
  {
    var r := Ranked(s);
    var top := Top(s, k);
    RankedFacts(s);
    assert forall m :: 0 <= m < |top| ==> Keys(top)[m] == Keys(r)[m];
    var j :| 0 <= j < |r| && Keys(r)[j] == x;
  }

  /**
   * `counts.sorted { ... }.first?.key ?? fallback`: an element of `s` occurring at least as
   * often as any other, or the fallback when `s` is empty.
   */
  function MostFrequent(s: seq<string>, fallback: string): string
  {
    if Ranked(s) == [] then fallback else Ranked(s)[0].key
  }

  lemma MostFrequentFacts(s: seq<string>, fallback: string)
    ensures s == [] ==> MostFrequent(s, fallback) == fallback
    ensures s != [] ==> MostFrequent(s, fallback) in s
    ensures s != [] ==> forall x :: x in s ==> Count(s, x) <= Count(s, MostFrequent(s, fallback))
  {
    var r := Ranked(s);
    RankedFacts(s);
    if s == [] {
      assert |r| == 0;
    } else {
      assert s[0] in Keys(r);
      assert r != [];
      var top := r[0];
      assert Keys(r)[0] == top.key;
      forall x | x in s ensures Count(s, x) <= Count(s, top.key) {
        var j :| 0 <= j < |r| && Keys(r)[j] == x;
        assert r[j].count <= top.count;
      }
    }
  }

  /** The counts, in table order. */
  function Counts(entries: seq<Entry>): (r: seq<int>)
    ensures |r| == |entries| && forall i :: 0 <= i < |r| ==> r[i] == entries[i].count
  {
    seq(|entries|, i requires 0 <= i < |entries| => entries[i].count)
  }
}
