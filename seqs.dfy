/** Order-preserving filters and subsequences, the shape of Swift's `filter` and `compactMap`. */
module Seqs {
  import opened Wrappers

  /** Swift's `filter`: the elements satisfying `p`, in their original order. */
  function Filter<T(!new)>(s: seq<T>, p: T -> bool): (r: seq<T>)
    ensures |r| <= |s|
    ensures forall x :: x in r <==> x in s && p(x)
    decreases |s|
  {
    if s == [] then [] else (if p(s[0]) then [s[0]] else []) + Filter(s[1..], p)
  }

  /** Swift's `compactMap`: the present results of `f`, in the order of their arguments. */
  function CompactMap<T, U>(s: seq<T>, f: T -> Option<U>): (r: seq<U>)
    ensures |r| <= |s|
    decreases |s|
  {
    if s == [] then [] else Present(f(s[0])) + CompactMap(s[1..], f)
  }

  /** Every element of the result is the present result of some argument. */
  lemma {:induction false} CompactMapFrom<T, U>(s: seq<T>, f: T -> Option<U>, i: nat)
    requires i < |CompactMap(s, f)|
    ensures exists j :: 0 <= j < |s| && f(s[j]) == Some(CompactMap(s, f)[i])
    decreases |s|
  {
    var head := Present(f(s[0]));
    if i >= |head| {
      CompactMapFrom(s[1..], f, i - |head|);
      var j :| 0 <= j < |s[1..]| && f(s[1..][j]) == Some(CompactMap(s[1..], f)[i - |head|]);
      assert s[j + 1] == s[1..][j];
    }
  }

  /** Every argument whose result is present contributes that result. */
  lemma {:induction false} CompactMapHas<T, U>(s: seq<T>, f: T -> Option<U>, j: nat)
    requires j < |s| && f(s[j]).Some?
    ensures f(s[j]).value in CompactMap(s, f)
    decreases |s|
  {
    if j > 0 {
      CompactMapHas(s[1..], f, j - 1);
      assert s[1..][j - 1] == s[j];
    }
  }

  /** `compactMap` keeps exactly one result per argument whose result is present. */
  lemma {:induction false} CompactMapLength<T(!new), U>(s: seq<T>, f: T -> Option<U>, present: T -> bool)
    requires forall x :: present(x) == f(x).Some?
    ensures |CompactMap(s, f)| == |Filter(s, present)|
    decreases |s|
  {
    if s != [] {
      CompactMapLength(s[1..], f, present);
    }
  }

  lemma {:induction false} CompactMapConcat<T, U>(a: seq<T>, b: seq<T>, f: T -> Option<U>)
    ensures CompactMap(a + b, f) == CompactMap(a, f) + CompactMap(b, f)
    decreases |a|
  {
    if a != [] {
      assert (a + b)[1..] == a[1..] + b;
      CompactMapConcat(a[1..], b, f);
    } else {
      assert a + b == b;
    }
  }

  /** Extending the arguments by one appends that argument's result, if present. */
  lemma CompactMapSnoc<T, U>(s: seq<T>, i: nat, f: T -> Option<U>)
    requires i < |s|
    ensures CompactMap(s[..i + 1], f) == CompactMap(s[..i], f) + Present(f(s[i]))
  {
    assert s[..i + 1] == s[..i] + [s[i]];
    CompactMapConcat(s[..i], [s[i]], f);
    assert CompactMap([s[i]], f) == Present(f(s[i]));
  }

  /** `a` can be obtained from `b` by deleting elements. */
  ghost predicate IsSubsequence<T>(a: seq<T>, b: seq<T>)
    decreases |b|
  {
    if a == [] then true
    else if b == [] then false
    else (a[0] == b[0] && IsSubsequence(a[1..], b[1..])) || IsSubsequence(a, b[1..])
  }

  lemma {:induction false} FilterIsSubsequence<T(!new)>(s: seq<T>, p: T -> bool)
    ensures IsSubsequence(Filter(s, p), s)
    decreases |s|
  {
    if s != [] {
      FilterIsSubsequence(s[1..], p);
      var r := Filter(s, p);
      if p(s[0]) {
        assert r == [s[0]] + Filter(s[1..], p);
        assert r[1..] == Filter(s[1..], p);
      } else {
        assert r == Filter(s[1..], p);
      }
    }
  }

  lemma {:induction false} FilterConcat<T(!new)>(a: seq<T>, b: seq<T>, p: T -> bool)
    ensures Filter(a + b, p) == Filter(a, p) + Filter(b, p)
    decreases |a|
  {
    if a != [] {
      assert (a + b)[1..] == a[1..] + b;
      FilterConcat(a[1..], b, p);
    } else {
      assert a + b == b;
    }
  }

  /** Filtering keeps nothing when no element passes. */
  lemma {:induction false} FilterNone<T(!new)>(s: seq<T>, p: T -> bool)
    requires forall k :: 0 <= k < |s| ==> !p(s[k])
    ensures Filter(s, p) == []
    decreases |s|
  {
    if s != [] {
      FilterNone(s[1..], p);
    }
  }

  /** Filtering keeps everything when every element passes. */
  lemma {:induction false} FilterAll<T(!new)>(s: seq<T>, p: T -> bool)
    requires forall k :: 0 <= k < |s| ==> p(s[k])
    ensures Filter(s, p) == s
    decreases |s|
  {
    if s != [] {
      FilterAll(s[1..], p);
      assert [s[0]] + s[1..] == s;
    }
  }

  /** The elements of `s`, without repetition. */
  function Elements<T>(s: seq<T>): set<T> { set x | x in s }

  lemma {:induction false} ElementsCard<T>(s: seq<T>)
    ensures |Elements(s)| <= |s|
    ensures s != [] ==> |Elements(s)| >= 1
    decreases |s|
  {
    if s != [] {
      ElementsCard(s[1..]);
      assert Elements(s) == Elements(s[1..]) + {s[0]};
    }
  }

  /** No element occurs twice. */
  predicate NoDuplicates<T(==)>(s: seq<T>)
  {
    forall i, j :: 0 <= i < j < |s| ==> s[i] != s[j]
  }

  /** The first element of highest `score`. */
  function ArgMax<T>(s: seq<T>, score: T -> real): (r: T)
    requires s != []
    ensures r in s
    ensures forall x :: x in s ==> score(x) <= score(r)
  {
    if |s| == 1 then s[0]
    else
      var rest := ArgMax(s[1..], score);
      if score(s[0]) >= score(rest) then s[0] else rest
  }

  /** Swift's `prefix(n)`: at most the first `n` elements. */
  function Take<T>(s: seq<T>, n: nat): (r: seq<T>)
    ensures |r| == if |s| < n then |s| else n
    ensures r == s[..|r|]
  {
    if |s| <= n then s else s[..n]
  }

  /** Appending a new element keeps a sequence free of duplicates. */
  lemma NoDuplicatesSnoc<T>(s: seq<T>, x: T)
    requires NoDuplicates(s) && x !in s
    ensures NoDuplicates(s + [x])
  {
    var r := s + [x];
    forall i, j | 0 <= i < j < |r| ensures r[i] != r[j] {
      if j == |s| {
        assert r[i] == s[i];
      }
    }
  }

  /** A prefix of a sequence without duplicates has none either. */
  lemma TakeNoDuplicates<T>(s: seq<T>, n: nat)
    requires NoDuplicates(s)
    ensures NoDuplicates(Take(s, n))
  {
    var r := Take(s, n);
    assert forall i :: 0 <= i < |r| ==> r[i] == s[i];
  }

  /** The elements of `s`, each at its first occurrence, in order (Foundation's `NSOrderedSet(array:)`). */
  function Dedup<T(==)>(s: seq<T>): (r: seq<T>)
    ensures |r| <= |s|
    decreases |s|
  {
    if s == [] then []
    else
      var r := Dedup(s[..|s| - 1]);
      if s[|s| - 1] in r then r else r + [s[|s| - 1]]
  }

  /** Deduplication keeps every element and repeats none. */
  lemma {:induction false} DedupContents<T>(s: seq<T>)
    ensures NoDuplicates(Dedup(s))
    ensures forall x :: x in Dedup(s) <==> x in s
    decreases |s|
  {
    if s != [] {
      var init := s[..|s| - 1];
      DedupContents(init);
      assert s == init + [s[|s| - 1]];
    }
  }

  /** A sequence without repetitions is left as it is. */
  lemma {:induction false} DedupOfDistinct<T>(s: seq<T>)
    requires NoDuplicates(s)
    ensures Dedup(s) == s
    decreases |s|
  {
    if s != [] {
      var init := s[..|s| - 1];
      DedupOfDistinct(init);
      assert s[|s| - 1] !in init;
      assert init + [s[|s| - 1]] == s;
    }
  }

  /** Deduplicating a longer list only appends to the deduplicated prefix. */
  lemma {:induction false} DedupPrefix<T>(a: seq<T>, b: seq<T>)
    ensures |Dedup(a)| <= |Dedup(a + b)|
    ensures Dedup(a + b)[..|Dedup(a)|] == Dedup(a)
    decreases |b|
  {
    if b == [] {
      assert a + b == a;
    } else {
      var ab := a + b;
      assert ab[..|ab| - 1] == a + b[..|b| - 1];
      DedupPrefix(a, b[..|b| - 1]);
    }
  }

  lemma {:induction false} SubsequenceSnoc<T>(a: seq<T>, b: seq<T>, x: T)
    requires IsSubsequence(a, b)
    ensures IsSubsequence(a, b + [x])
    ensures IsSubsequence(a + [x], b + [x])
    decreases |b|
  {
    if b == [] {
      assert a == [];
      assert IsSubsequence([x][1..], ([] + [x])[1..]);
    } else if a == [] {
      SubsequenceSnoc(a, b[1..], x);
      assert a + [x] == [x];
      assert (b + [x])[1..] == b[1..] + [x];
    } else {
      assert (b + [x])[1..] == b[1..] + [x];
      assert (a + [x])[1..] == a[1..] + [x];
      if a[0] == b[0] && IsSubsequence(a[1..], b[1..]) {
        SubsequenceSnoc(a[1..], b[1..], x);
      } else {
        SubsequenceSnoc(a, b[1..], x);
      }
    }
  }

  /** Deduplication keeps the surviving elements in their original order. */
  lemma {:induction false} DedupIsSubsequence<T>(s: seq<T>)
    ensures IsSubsequence(Dedup(s), s)
    decreases |s|
  {
    if s != [] {
      var init := s[..|s| - 1];
      DedupIsSubsequence(init);
      SubsequenceSnoc(Dedup(init), init, s[|s| - 1]);
      assert init + [s[|s| - 1]] == s;
    }
  }

  /** A prefix of a subsequence is a subsequence. */
  lemma {:induction false} PrefixIsSubsequence<T>(p: seq<T>, a: seq<T>, b: seq<T>)
    requires |p| <= |a| && p == a[..|p|]
    requires IsSubsequence(a, b)
    ensures IsSubsequence(p, b)
    decreases |b|
  {
    if p != [] && b != [] {
      if a[0] == b[0] && IsSubsequence(a[1..], b[1..]) {
        PrefixIsSubsequence(p[1..], a[1..], b[1..]);
      } else {
        PrefixIsSubsequence(p, a, b[1..]);
      }
    }
  }

  /** Deduplicating a longer list leaves the deduplicated prefix at its front. */
  lemma DedupTakePrefix<T>(a: seq<T>, b: seq<T>)
    ensures Take(Dedup(a + b), |Dedup(a)|) == Dedup(a)
  {
    DedupPrefix(a, b);
  }

  /** Deduplicating one more element appends it exactly when it is new. */
  lemma DedupSnoc<T>(a: seq<T>, x: T)
    ensures Dedup(a + [x]) == if x in Dedup(a) then Dedup(a) else Dedup(a) + [x]
  {
    assert (a + [x])[..|a|] == a;
  }

  /** The element of an `Option`, as a sequence of length zero or one. */
  function Present<T>(o: Option<T>): (r: seq<T>)
    ensures o.Some? ==> r == [o.value]
    ensures o.None? ==> r == []
  {
    match o
    case Some(x) => [x]
    case None => []
  }

  /** `xs.max() ?? fallback`. */
  function MaxOr(xs: seq<int>, fallback: int): (r: int)
    ensures xs == [] ==> r == fallback
    ensures xs != [] ==> r in xs
    ensures forall i :: 0 <= i < |xs| ==> xs[i] <= r
  {
    if xs == [] then fallback
    else if |xs| == 1 then xs[0]
    else
      var rest := MaxOr(xs[1..], fallback);
      assert rest in xs[1..];
      if xs[0] >= rest then xs[0] else rest
  }

  /** `xs.reduce(0, +)`. */
  function Sum(xs: seq<int>): int
  {
    if xs == [] then 0 else Sum(xs[..|xs| - 1]) + xs[|xs| - 1]
  }
}
