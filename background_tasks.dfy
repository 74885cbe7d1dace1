/**
 * Feature extraction and the submission store: the hashtag scanner,
 * and `processSubmission`, which writes the field record `submission:{id}`
 * and then indexes the id in the timeline `user:{userId}:submissions`.
 */
module BackgroundTasks {
  import opened Wrappers
  import opened Text
  import opened Store
  import SortedSet

  /** The end of the maximal run of word characters that starts at `j`. */
  function WordEnd(s: string, j: nat): (e: nat)
    requires j <= |s|
    ensures j <= e <= |s|
    ensures forall k :: j <= k < e ==> IsWordChar(s[k])
    ensures e == |s| || !IsWordChar(s[e])
    decreases |s| - j
  {
    if j < |s| && IsWordChar(s[j]) then WordEnd(s, j + 1) else j
  }

  /** A hashtag as the scanner returns it: one or more word characters. */
  predicate IsTag(t: string) {
    |t| > 0 && forall k :: 0 <= k < |t| ==> IsWordChar(t[k])
  }

  /**
   * Every match of the hashtag pattern (a `#`, then word characters) from position `i`, each with its
   * `#` stripped. A `#` followed by a word character starts a match that takes
   * every word character after it; the scan resumes after the match.
   */
  function ScanHashtags(s: string, i: nat): (tags: seq<string>)
    requires i <= |s|
    ensures forall k :: 0 <= k < |tags| ==> IsTag(tags[k])
    decreases |s| - i
  {
    if i + 1 >= |s| then []
    else if s[i] == '#' && IsWordChar(s[i + 1]) then
      var e := WordEnd(s, i + 1);
      [s[i + 1..e]] + ScanHashtags(s, e)
    else ScanHashtags(s, i + 1)
  }

  /** `extractHashtags(content)`: every tag is made of word characters only, so none holds a comma. */
  function ExtractHashtags(content: string): (tags: seq<string>)
    ensures forall k :: 0 <= k < |tags| ==> tags[k] != "" && ',' !in tags[k]
  {
    var tags := ScanHashtags(content, 0);
    assert forall k :: 0 <= k < |tags| ==> IsTag(tags[k]);
    tags
  }

  /** Position `j` holds a `#` with a word character right after it. */
  predicate StartsTag(s: string, j: nat) {
    j + 1 < |s| && s[j] == '#' && IsWordChar(s[j + 1])
  }

  /** Every position from `i` on that starts a tag, in increasing order. */
  function TagStarts(s: string, i: nat): (ps: seq<nat>)
    requires i <= |s|
    ensures forall j: nat :: j in ps <==> i <= j && StartsTag(s, j)
    ensures forall a, b :: 0 <= a < b < |ps| ==> ps[a] < ps[b]
    decreases |s| - i
  {
    if i == |s| then []
    else if StartsTag(s, i) then
      var rest := TagStarts(s, i + 1);
      assert forall b :: 0 <= b < |rest| ==> rest[b] in rest;
      [i] + rest
    else TagStarts(s, i + 1)
  }

  /** The maximal word-character run after the `#` at `j`. */
  function TagAt(s: string, j: nat): string
    requires StartsTag(s, j)
  {
    s[j + 1..WordEnd(s, j + 1)]
  }

  function TagsAt(s: string, ps: seq<nat>): (tags: seq<string>)
    requires forall k :: 0 <= k < |ps| ==> StartsTag(s, ps[k])
    ensures |tags| == |ps|
    ensures forall k :: 0 <= k < |ps| ==> tags[k] == TagAt(s, ps[k])
    decreases |ps|
  {
    if ps == [] then [] else [TagAt(s, ps[0])] + TagsAt(s, ps[1..])
  }

  /** No position inside a run of word characters starts a tag. */
  lemma {:induction false} WordRunHoldsNoStart(s: string, j: nat, e: nat)
    requires j <= e <= |s|
    requires forall k :: j <= k < e ==> IsWordChar(s[k])
    ensures TagStarts(s, j) == TagStarts(s, e)
    decreases e - j
  {
    if j < e {
      assert !StartsTag(s, j);
      WordRunHoldsNoStart(s, j + 1, e);
    }
  }

  /**
   * The scan from `i` yields, in order, the tag at every tag start from `i`
   * on: skipping over a match never skips a `#`.
   */
  lemma {:induction false} ScanFindsEveryStart(s: string, i: nat)
    requires i <= |s|
    ensures ScanHashtags(s, i) == TagsAt(s, TagStarts(s, i))
    decreases |s| - i
  {
    if i + 1 >= |s| {
      if i < |s| {
        assert !StartsTag(s, i);
        assert TagStarts(s, i + 1) == [];
      }
    } else if s[i] == '#' && IsWordChar(s[i + 1]) {
      var e := WordEnd(s, i + 1);
      ScanFindsEveryStart(s, e);
      WordRunHoldsNoStart(s, i + 1, e);
      var rest := TagStarts(s, e);
      assert StartsTag(s, i);
      assert TagStarts(s, i) == [i] + TagStarts(s, i + 1);
      assert ([i] + rest)[1..] == rest;
    } else {
      ScanFindsEveryStart(s, i + 1);
    }
  }

  /**
   * `extractHashtags` returns, in order of occurrence and with duplicates
   * kept, the maximal word-character run after each `#` that is followed by a
   * word character.
   */
  lemma ExtractHashtagsFindsEveryTag(content: string)
    ensures ExtractHashtags(content) == TagsAt(content, TagStarts(content, 0))
  {
    ScanFindsEveryStart(content, 0);
  }

  /** Content without a `#word` yields no tags, and only such content does; no tags are stored as "". */
  lemma NoTagsIffNoTagStart(content: string)
    ensures ExtractHashtags(content) == [] <==> forall j: nat :: !StartsTag(content, j)
    ensures ExtractHashtags(content) == [] ==> Join(ExtractHashtags(content), ',') == ""
  {
    ExtractHashtagsFindsEveryTag(content);
    var ps := TagStarts(content, 0);
    if ps != [] {
      assert ps[0] in ps;
    }
  }

  /** `extractHashtags("#a #b #a")` is `["a", "b", "a"]`. */
  lemma RepeatedTagsKept()
    ensures ExtractHashtags("#a #b #a") == ["a", "b", "a"]
  {
    var s := "#a #b #a";
    assert s[0] == '#' && s[1] == 'a' && s[2] == ' ' && s[3] == '#' && s[4] == 'b';
    assert s[5] == ' ' && s[6] == '#' && s[7] == 'a' && |s| == 8;
    assert WordEnd(s, 2) == 2 && WordEnd(s, 5) == 5 && WordEnd(s, 8) == 8;
    assert WordEnd(s, 1) == 2 && WordEnd(s, 4) == 5 && WordEnd(s, 7) == 8;
    assert s[1..2] == "a" && s[4..5] == "b" && s[7..8] == "a";
    assert ScanHashtags(s, 8) == [];
    assert ScanHashtags(s, 7) == [];
    assert ScanHashtags(s, 6) == ["a"];
    assert ScanHashtags(s, 5) == ["a"];
    assert ScanHashtags(s, 3) == ["b", "a"];
    assert ScanHashtags(s, 2) == ["b", "a"];
  }

  function SubmissionKey(id: string): string {
    "submission:" + id
  }

  function TimelineKey(userId: string): string {
    "user:" + userId + ":submissions"
  }

  /**
   * The record `processSubmission` writes: the fields as given, the tags
   * comma-joined, the sentiment as computed for the content.
   */
  function RecordFor(platform: string, content: string, timestamp: string, sentiment: real): (rec: Submission)
    ensures rec.hashtags == "" <==> ExtractHashtags(content) == []
    ensures ExtractHashtags(content) != [] ==> Split(rec.hashtags, ',') == ExtractHashtags(content)
  {
    var tags := ExtractHashtags(content);
    assert tags != [] ==> Split(Join(tags, ','), ',') == tags && Join(tags, ',') != "" by {
      if tags != [] {
        SplitOfJoin(tags, ',');
        assert tags[0] != "";
      }
    }
    Submission(platform, content, timestamp, Join(tags, ','), sentiment)
  }

  /** Which store write, if any, reports an error. */
  datatype Fault = NoFault | RecordWriteFails | IndexWriteFails

  /** The error `processSubmission` rethrows. */
  datatype StoreError = StoreError

  /**
   * `processSubmission` on the store state `s`: HSET the record, then ZADD
   * the id to the user's timeline with the timestamp's epoch `score`. A failed
   * write ends the call with the error; a write after it is not attempted.
   */
  function Processed(s: StoreState, platform: string, content: string, timestamp: string, score: real,
                     id: string, userId: string, sentiment: real, fault: Fault): (r: (StoreState, Outcome<StoreError>))
    ensures r.1 == Pass <==> fault == NoFault
    ensures r.1.Fail? ==> r.0.zsets == s.zsets
  {
    var rec := RecordFor(platform, content, timestamp, sentiment);
    match fault
    case RecordWriteFails => (s, Fail(StoreError))
    case IndexWriteFails => (WithRecord(s, SubmissionKey(id), rec), Fail(StoreError))
    case NoFault => (WithMember(WithRecord(s, SubmissionKey(id), rec), TimelineKey(userId), id, score), Pass)
  }

  method ProcessSubmission(redis: Redis, platform: string, content: string, timestamp: string, score: real,
                           id: string, userId: string, sentiment: real, fault: Fault)
    returns (outcome: Outcome<StoreError>)
    requires redis.Valid()
    modifies redis
    ensures redis.Valid()
    ensures (redis.State(), outcome) == Processed(old(redis.State()), platform, content, timestamp, score, id, userId, sentiment, fault)
  {
    var hashtags := ExtractHashtags(content);
    var submissionKey := SubmissionKey(id);
    var userSubmissionsKey := TimelineKey(userId);

    if fault == RecordWriteFails {
      return Fail(StoreError);
    }
    redis.HSet(submissionKey, Submission(platform, content, timestamp, Join(hashtags, ','), sentiment));

    if fault == IndexWriteFails {
      return Fail(StoreError);
    }
    redis.ZAdd(userSubmissionsKey, id, score);
    return Pass;
  }

  /**
   * After a successful call the record holds the four fields as given or
   * derived, and the id is in the user's timeline with the given score.
   */
  lemma ProcessedStoresRecordAndIndex(s: StoreState, platform: string, content: string, timestamp: string, score: real,
                                      id: string, userId: string, sentiment: real)
    ensures var r := Processed(s, platform, content, timestamp, score, id, userId, sentiment, NoFault);
      && r.1 == Pass
      && RecordAt(r.0, SubmissionKey(id)) == Some(Submission(platform, content, timestamp, Join(ExtractHashtags(content), ','), sentiment))
      && SortedSet.Entry(id, score) in SetAt(r.0, TimelineKey(userId))
      && (forall e :: e in SetAt(r.0, TimelineKey(userId)) && e.member == id ==> e.score == score)
  {
  }

  /**
   * A failed record write changes nothing; a failed timeline write leaves
   * the record in place and the timeline as it was. Both report the error.
   */
  lemma ProcessedFailures(s: StoreState, platform: string, content: string, timestamp: string, score: real,
                          id: string, userId: string, sentiment: real)
    ensures Processed(s, platform, content, timestamp, score, id, userId, sentiment, RecordWriteFails) == (s, Fail(StoreError))
    ensures var r := Processed(s, platform, content, timestamp, score, id, userId, sentiment, IndexWriteFails);
      && r.1 == Fail(StoreError)
      && RecordAt(r.0, SubmissionKey(id)) == Some(RecordFor(platform, content, timestamp, sentiment))
      && r.0.zsets == s.zsets
  {
  }

  /** Only `submission:{id}` and `user:{userId}:submissions` can change; counters and the clock never do. */
  lemma ProcessedTouchesOnlyItsKeys(s: StoreState, platform: string, content: string, timestamp: string, score: real,
                                    id: string, userId: string, sentiment: real, fault: Fault)
    ensures var t := Processed(s, platform, content, timestamp, score, id, userId, sentiment, fault).0;
      && (forall k :: k != SubmissionKey(id) ==> RecordAt(t, k) == RecordAt(s, k))
      && (forall k :: k != TimelineKey(userId) ==> SetAt(t, k) == SetAt(s, k))
      && t.counts == s.counts && t.expiry == s.expiry && t.now == s.now
  {
  }

  /** Every id in every timeline has its record. */
  predicate TimelinesBacked(s: StoreState) {
    forall key, e :: key in s.zsets && e in s.zsets[key] ==> SubmissionKey(e.member) in s.hashes
  }

  /**
   * The record is written before the id is indexed, so whatever write fails,
   * no timeline gains an id without a record.
   */
  lemma ProcessedKeepsTimelinesBacked(s: StoreState, platform: string, content: string, timestamp: string, score: real,
                                      id: string, userId: string, sentiment: real, fault: Fault)
    requires TimelinesBacked(s)
    ensures TimelinesBacked(Processed(s, platform, content, timestamp, score, id, userId, sentiment, fault).0)
  {
    var t := Processed(s, platform, content, timestamp, score, id, userId, sentiment, fault).0;
    if fault == NoFault {
      var mid := WithRecord(s, SubmissionKey(id), RecordFor(platform, content, timestamp, sentiment));
      forall key, e | key in t.zsets && e in t.zsets[key]
        ensures SubmissionKey(e.member) in t.hashes
      {
        if key == TimelineKey(userId) {
          assert e in SortedSet.Add(SetAt(mid, key), id, score);
        } else {
          assert SetAt(t, key) == SetAt(s, key);
        }
      }
    }
  }
}
