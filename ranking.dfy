/**
 * The dashboard's hashtag bookkeeping: the insertion-ordered `hashtagsMap`
 * (tag -> count), its stable sort by descending count, and the top ten.
 */
module Ranking {

  /** One entry of `hashtagsMap`. */
  datatype TagCount = TagCount(tag: string, count: nat)

  const TopCount: nat := 10

  function Tags(freq: seq<TagCount>): (ts: seq<string>)
    decreases |freq|
    ensures |ts| == |freq|
    ensures forall i :: 0 <= i < |freq| ==> ts[i] == freq[i].tag
  {
    if freq == [] then [] else [freq[0].tag] + Tags(freq[1..])
  }

  /** A Map holds each key once. */
  predicate DistinctTags(freq: seq<TagCount>) {
    forall i, j :: 0 <= i < j < |freq| ==> freq[i].tag != freq[j].tag
  }

  /** The count the map holds for `tag`, zero when it holds none. */
  function CountIn(freq: seq<TagCount>, tag: string): nat
    decreases |freq|
  {
    if freq == [] then 0
    else if freq[0].tag == tag then freq[0].count
    else CountIn(freq[1..], tag)
  }

  /**
   * Counting one more `tag`: an existing key keeps its
   * position and gains one; a new key goes last with count 1.
   */
  function Bump(freq: seq<TagCount>, tag: string): (r: seq<TagCount>)
    ensures Tags(r) == if tag in Tags(freq) then Tags(freq) else Tags(freq) + [tag]
    decreases |freq|
  {
    if freq == [] then [TagCount(tag, 1)]
    else if freq[0].tag == tag then [TagCount(tag, freq[0].count + 1)] + freq[1..]
    else
      var rest := Bump(freq[1..], tag);
      TagsCons(freq[0], freq[1..]);
      TagsCons(freq[0], rest);
      [freq[0]] + rest
  }

  lemma TagsCons(e: TagCount, rest: seq<TagCount>)
    ensures Tags([e] + rest) == [e.tag] + Tags(rest)
  {
    assert ([e] + rest)[1..] == rest;
  }

  /** Counting `tag` adds one to its count and leaves every other count. */
  lemma {:induction false} BumpCounts(freq: seq<TagCount>, tag: string)
    ensures forall t :: CountIn(Bump(freq, tag), t) == CountIn(freq, t) + (if t == tag then 1 else 0)
    decreases |freq|
  {
    if freq != [] && freq[0].tag != tag {
      BumpCounts(freq[1..], tag);
      TagsCons(freq[0], Bump(freq[1..], tag));
    }
  }

  /** Counting a tag keeps the keys distinct. */
  lemma BumpKeepsDistinct(freq: seq<TagCount>, tag: string)
    requires DistinctTags(freq)
    ensures DistinctTags(Bump(freq, tag))
  {
    var r := Bump(freq, tag);
    var ts := Tags(freq);
    assert forall i :: 0 <= i < |r| ==> r[i].tag == Tags(r)[i];
    if tag !in ts {
      forall i, j | 0 <= i < j < |r| ensures r[i].tag != r[j].tag {
        if j < |freq| {
          assert r[i].tag == ts[i] && r[j].tag == ts[j];
        } else {
          assert r[j].tag == tag && r[i].tag == ts[i];
        }
      }
    } else {
      forall i, j | 0 <= i < j < |r| ensures r[i].tag != r[j].tag {
        assert r[i].tag == ts[i] && r[j].tag == ts[j];
      }
    }
  }

  /** The map after counting `tags` one by one, from an empty map. */
  function Tally(tags: seq<string>): (freq: seq<TagCount>)
    ensures |freq| <= |tags|
    ensures freq == [] <==> tags == []
    decreases |tags|
  {
    if tags == [] then [] else Bump(Tally(tags[..|tags| - 1]), tags[|tags| - 1])
  }

  /** The distinct elements of `ts` in order of first occurrence. */
  function FirstOccurrences(ts: seq<string>): seq<string>
    decreases |ts|
  {
    if ts == [] then []
    else
      var init := ts[..|ts| - 1];
      if ts[|ts| - 1] in init then FirstOccurrences(init) else FirstOccurrences(init) + [ts[|ts| - 1]]
  }

  lemma {:induction false} TallyDistinct(tags: seq<string>)
    ensures DistinctTags(Tally(tags))
    decreases |tags|
  {
    if tags != [] {
      TallyDistinct(tags[..|tags| - 1]);
      BumpKeepsDistinct(Tally(tags[..|tags| - 1]), tags[|tags| - 1]);
    }
  }

  lemma {:induction false} FirstOccurrencesMembers(ts: seq<string>)
    ensures forall t :: t in FirstOccurrences(ts) <==> t in ts
    decreases |ts|
  {
    if ts != [] {
      var init := ts[..|ts| - 1];
      FirstOccurrencesMembers(init);
      assert ts == init + [ts[|ts| - 1]];
    }
  }

  lemma {:induction false} TallyKeys(tags: seq<string>)
    ensures Tags(Tally(tags)) == FirstOccurrences(tags)
    decreases |tags|
  {
    if tags != [] {
      var init := tags[..|tags| - 1];
      TallyKeys(init);
      FirstOccurrencesMembers(init);
    }
  }

  lemma TallyOrder(tags: seq<string>)
    ensures Tags(Tally(tags)) == FirstOccurrences(tags)
    ensures forall t :: t in Tags(Tally(tags)) <==> t in tags
  {
    TallyKeys(tags);
    FirstOccurrencesMembers(tags);
  }

  lemma {:induction false} TallyOccurrences(tags: seq<string>)
    ensures forall t :: CountIn(Tally(tags), t) == multiset(tags)[t]
    decreases |tags|
  {
    if tags != [] {
      var init := tags[..|tags| - 1];
      TallyOccurrences(init);
      BumpCounts(Tally(init), tags[|tags| - 1]);
      assert tags == init + [tags[|tags| - 1]];
    }
  }

  /**
   * The tally holds each tag once, in order of first occurrence, with the
   * number of times it occurs in `tags`.
   */
  lemma TallyCounts(tags: seq<string>)
    ensures DistinctTags(Tally(tags))
    ensures Tags(Tally(tags)) == FirstOccurrences(tags)
    ensures forall t :: CountIn(Tally(tags), t) == multiset(tags)[t]
    ensures forall t :: t in Tags(Tally(tags)) <==> t in tags
  {
    TallyDistinct(tags);
    TallyOrder(tags);
    TallyOccurrences(tags);
  }

  /** In a map with distinct keys, an entry's count is what `get` returns for its tag. */
  lemma {:induction false} EntryCount(freq: seq<TagCount>, i: nat)
    requires DistinctTags(freq) && i < |freq|
    ensures CountIn(freq, freq[i].tag) == freq[i].count
    decreases i
  {
    if i > 0 {
      EntryCount(freq[1..], i - 1);
    }
  }

  /** `a` stands at an earlier position of `s` than `b`. */
  ghost predicate Precedes<T>(s: seq<T>, a: T, b: T) {
    exists p, q :: 0 <= p < q < |s| && s[p] == a && s[q] == b
  }

  /** Counts never go up along `s`. */
  predicate NonIncreasing(s: seq<TagCount>) {
    forall i, j :: 0 <= i < j < |s| ==> s[i].count >= s[j].count
  }

  /** Entries of equal count appear in `s` in the order they have in `original`. */
  ghost predicate StableWrt(s: seq<TagCount>, original: seq<TagCount>) {
    forall i, j :: 0 <= i < j < |s| && s[i].count == s[j].count ==> Precedes(original, s[i], s[j])
  }

  /** Where `InsertByCount` places `x`: past the leading entries whose count is above its own. */
  function InsertPosition(x: TagCount, sorted: seq<TagCount>): (k: nat)
    ensures k <= |sorted|
    ensures forall i :: 0 <= i < k ==> sorted[i].count > x.count
    ensures k < |sorted| ==> sorted[k].count <= x.count
    decreases |sorted|
  {
    if sorted == [] || sorted[0].count <= x.count then 0
    else 1 + InsertPosition(x, sorted[1..])
  }

  /** `x` placed before the first entry whose count is not above its own. */
  function InsertByCount(x: TagCount, sorted: seq<TagCount>): (r: seq<TagCount>)
    ensures |r| == |sorted| + 1
    ensures multiset(r) == multiset(sorted) + multiset{x}
    ensures forall y :: y in r <==> y == x || y in sorted
  {
    var k := InsertPosition(x, sorted);
    assert sorted == sorted[..k] + sorted[k..];
    sorted[..k] + [x] + sorted[k..]
  }

  /**
   * The map's entries in insertion order, sorted by a stable sort
   * by descending count (JavaScript's sort is stable).
   */
  function SortByCount(es: seq<TagCount>): (r: seq<TagCount>)
    ensures multiset(r) == multiset(es)
    ensures |r| == |es|
    decreases |es|
  {
    if es == [] then []
    else
      assert es == [es[0]] + es[1..];
      InsertByCount(es[0], SortByCount(es[1..]))
  }

  lemma InsertKeepsNonIncreasing(x: TagCount, sorted: seq<TagCount>)
    requires NonIncreasing(sorted)
    ensures NonIncreasing(InsertByCount(x, sorted))
  {
    var k := InsertPosition(x, sorted);
    var r := InsertByCount(x, sorted);
    forall i, j | 0 <= i < j < |r| ensures r[i].count >= r[j].count {
      if i < k && j < k {
        assert r[i] == sorted[i] && r[j] == sorted[j];
      } else if i < k && j == k {
        assert r[i] == sorted[i];
      } else if i < k {
        assert r[i] == sorted[i] && r[j] == sorted[j - 1];
      } else if i == k {
        assert r[j] == sorted[j - 1] && sorted[k].count >= sorted[j - 1].count;
      } else {
        assert r[i] == sorted[i - 1] && r[j] == sorted[j - 1];
      }
    }
  }

  lemma InsertKeepsStable(x: TagCount, sorted: seq<TagCount>, original: seq<TagCount>)
    requires StableWrt(sorted, original)
    requires forall y :: y in sorted && y.count == x.count ==> Precedes(original, x, y)
    ensures StableWrt(InsertByCount(x, sorted), original)
  {
    var k := InsertPosition(x, sorted);
    var r := InsertByCount(x, sorted);
    assert forall i :: 0 <= i < k ==> r[i] == sorted[i];
    assert r[k] == x;
    assert forall i :: k < i < |r| ==> r[i] == sorted[i - 1];
    forall i, j | 0 <= i < j < |r| && r[i].count == r[j].count
      ensures Precedes(original, r[i], r[j])
    {
      if i == k {
        assert r[j] in sorted;
      } else if j != k {
        var a := if i < k then i else i - 1;
        var b := if j < k then j else j - 1;
        assert r[i] == sorted[a] && r[j] == sorted[b];
      }
    }
  }

  lemma {:induction false} PrecedesInTail<T>(s: seq<T>, a: T, b: T)
    requires s != [] && Precedes(s[1..], a, b)
    ensures Precedes(s, a, b)
  {
    var p, q :| 0 <= p < q < |s[1..]| && s[1..][p] == a && s[1..][q] == b;
    assert s[p + 1] == a && s[q + 1] == b;
  }

  /**
   * The sort is a permutation, puts counts in non-increasing order, and keeps
   * entries of equal count in their original order.
   */
  lemma {:induction false} SortByCountOrder(es: seq<TagCount>)
    ensures NonIncreasing(SortByCount(es))
    ensures StableWrt(SortByCount(es), es)
    decreases |es|
  {
    if es != [] {
      var sorted := SortByCount(es[1..]);
      SortByCountOrder(es[1..]);
      forall i, j | 0 <= i < j < |sorted| && sorted[i].count == sorted[j].count
        ensures Precedes(es, sorted[i], sorted[j])
      {
        PrecedesInTail(es, sorted[i], sorted[j]);
      }
      forall y | y in sorted && y.count == es[0].count
        ensures Precedes(es, es[0], y)
      {
        assert y in multiset(es[1..]);
        var k :| 0 <= k < |es[1..]| && es[1..][k] == y;
        assert es[k + 1] == y;
      }
      InsertKeepsNonIncreasing(es[0], sorted);
      InsertKeepsStable(es[0], sorted, es);
    }
  }

  lemma {:induction false} SortKeepsDistinct(es: seq<TagCount>)
    requires DistinctTags(es)
    ensures DistinctTags(SortByCount(es))
    decreases |es|
  {
    if es != [] {
      var sorted := SortByCount(es[1..]);
      SortKeepsDistinct(es[1..]);
      forall y | y in sorted ensures y.tag != es[0].tag {
        assert y in multiset(es[1..]);
        var k :| 0 <= k < |es[1..]| && es[1..][k] == y;
        assert es[k + 1] == y;
      }
      InsertKeepsDistinct(es[0], sorted);
    }
  }

  lemma InsertKeepsDistinct(x: TagCount, sorted: seq<TagCount>)
    requires DistinctTags(sorted)
    requires forall y :: y in sorted ==> y.tag != x.tag
    ensures DistinctTags(InsertByCount(x, sorted))
  {
    var k := InsertPosition(x, sorted);
    var r := InsertByCount(x, sorted);
    assert forall i :: 0 <= i < k ==> r[i] == sorted[i];
    assert r[k] == x;
    assert forall i :: k < i < |r| ==> r[i] == sorted[i - 1];
    forall i, j | 0 <= i < j < |r| ensures r[i].tag != r[j].tag {
      if i == k {
        assert r[j] in sorted;
      } else if j == k {
        assert r[i] in sorted;
      } else {
        var a := if i < k then i else i - 1;
        var b := if j < k then j else j - 1;
        assert r[i] == sorted[a] && r[j] == sorted[b];
      }
    }
  }

  function Min(a: nat, b: nat): nat {
    if a <= b then a else b
  }

  /** The tags of the first ten entries of the ranking. */
  function TopHashtags(freq: seq<TagCount>): (top: seq<string>)
    ensures |top| == Min(TopCount, |freq|)
  {
    Tags(SortByCount(freq)[..Min(TopCount, |freq|)])
  }

  /** Each ranked entry is an entry of the map, with the count `get` returns for its tag. */
  lemma RankedEntriesFromMap(freq: seq<TagCount>)
    requires DistinctTags(freq)
    ensures forall i :: 0 <= i < |SortByCount(freq)| ==>
      SortByCount(freq)[i] in freq && CountIn(freq, SortByCount(freq)[i].tag) == SortByCount(freq)[i].count
  {
    var ranked := SortByCount(freq);
    forall i | 0 <= i < |ranked|
      ensures ranked[i] in freq && CountIn(freq, ranked[i].tag) == ranked[i].count
    {
      assert ranked[i] in multiset(freq);
      var k :| 0 <= k < |freq| && freq[k] == ranked[i];
      EntryCount(freq, k);
    }
  }

  /** The top list has at most ten tags, none twice, all from the map. */
  lemma TopHashtagsShape(freq: seq<TagCount>)
    requires DistinctTags(freq)
    ensures var top := TopHashtags(freq);
      && |top| == Min(TopCount, |freq|)
      && (forall i, j :: 0 <= i < j < |top| ==> top[i] != top[j])
      && (forall i :: 0 <= i < |top| ==> top[i] in Tags(freq))
  {
    var ranked := SortByCount(freq);
    var top := TopHashtags(freq);
    SortKeepsDistinct(freq);
    RankedEntriesFromMap(freq);
    forall i | 0 <= i < |top| ensures top[i] in Tags(freq) {
      var k :| 0 <= k < |freq| && freq[k] == ranked[i];
      assert Tags(freq)[k] == top[i];
    }
  }

  /**
   * Along the top list counts never go up, and tags of equal count keep the
   * map's insertion order.
   */
  lemma TopHashtagsOrder(freq: seq<TagCount>)
    requires DistinctTags(freq)
    ensures var top := TopHashtags(freq);
      && (forall i, j :: 0 <= i < j < |top| ==> CountIn(freq, top[i]) >= CountIn(freq, top[j]))
      && (forall i, j :: 0 <= i < j < |top| && CountIn(freq, top[i]) == CountIn(freq, top[j]) ==>
            Precedes(Tags(freq), top[i], top[j]))
  {
    var ranked := SortByCount(freq);
    var top := TopHashtags(freq);
    SortByCountOrder(freq);
    RankedEntriesFromMap(freq);
    forall i, j | 0 <= i < j < |top| && CountIn(freq, top[i]) == CountIn(freq, top[j])
      ensures Precedes(Tags(freq), top[i], top[j])
    {
      assert ranked[i].count == ranked[j].count;
      var p, q :| 0 <= p < q < |freq| && freq[p] == ranked[i] && freq[q] == ranked[j];
      assert Tags(freq)[p] == top[i] && Tags(freq)[q] == top[j];
    }
  }

  /** `t` is ranked somewhere past the top list. */
  ghost predicate RankedAfterTop(freq: seq<TagCount>, t: string) {
    exists m :: |TopHashtags(freq)| <= m < |SortByCount(freq)| && SortByCount(freq)[m].tag == t
  }

  /** Every tag of the map is in the top list or ranked after all of it. */
  lemma TopOrRankedLater(freq: seq<TagCount>)
    ensures forall t :: t in Tags(freq) ==> t in TopHashtags(freq) || RankedAfterTop(freq, t)
  {
    var ranked := SortByCount(freq);
    var top := TopHashtags(freq);
    forall t | t in Tags(freq)
      ensures t in top || RankedAfterTop(freq, t)
    {
      var k :| 0 <= k < |freq| && Tags(freq)[k] == t;
      assert freq[k] in multiset(ranked);
      var m :| 0 <= m < |ranked| && ranked[m] == freq[k];
      if m < |top| {
        assert ranked[..|top|][m] == ranked[m];
        assert top[m] == t;
      } else {
        assert |top| <= m < |ranked| && ranked[m].tag == t;
      }
    }
  }

  /** No tag left out of the top list has a higher count than a tag in it. */
  lemma TopHashtagsKeepHighest(freq: seq<TagCount>)
    requires DistinctTags(freq)
    ensures var top := TopHashtags(freq);
      forall t, i :: t in Tags(freq) && t !in top && 0 <= i < |top| ==> CountIn(freq, t) <= CountIn(freq, top[i])
  {
    var ranked := SortByCount(freq);
    var top := TopHashtags(freq);
    SortByCountOrder(freq);
    RankedEntriesFromMap(freq);
    TopOrRankedLater(freq);
    forall t, i | t in Tags(freq) && t !in top && 0 <= i < |top|
      ensures CountIn(freq, t) <= CountIn(freq, top[i])
    {
      assert RankedAfterTop(freq, t);
      var m :| |top| <= m < |ranked| && ranked[m].tag == t;
      assert ranked[i].count >= ranked[m].count;
    }
  }

  /**
   * The top list of the tally of `tags`: at most ten distinct tags of
   * `tags`, by non-increasing number of occurrences, ties in order of first
   * occurrence, and no tag left out occurs more often than one kept.
   */
  lemma TopOfTally(tags: seq<string>)
    ensures var top := TopHashtags(Tally(tags));
      && |top| <= TopCount
      && (forall i, j :: 0 <= i < j < |top| ==> top[i] != top[j])
      && (forall i :: 0 <= i < |top| ==> top[i] in tags)
      && (forall i, j :: 0 <= i < j < |top| ==> multiset(tags)[top[i]] >= multiset(tags)[top[j]])
      && (forall i, j :: 0 <= i < j < |top| && multiset(tags)[top[i]] == multiset(tags)[top[j]] ==>
            Precedes(FirstOccurrences(tags), top[i], top[j]))
      && (forall t, i :: t in tags && t !in top && 0 <= i < |top| ==> multiset(tags)[t] <= multiset(tags)[top[i]])
  {
    var freq := Tally(tags);
    TallyCounts(tags);
    TopHashtagsShape(freq);
    TopHashtagsOrder(freq);
    TopHashtagsKeepHighest(freq);
  }
}
