/**
 * The two HTTP handlers of the service, on an explicit store: the submit
 * endpoint (validate, rate-limit, store) and the dashboard endpoint
 * (read the user's timeline back and aggregate it).
 */
module App {
  import opened Wrappers
  import opened Text
  import opened Store
  import SortedSet
  import RateLimiter
  import opened BackgroundTasks
  import opened Ranking

  /** A header, body field or query parameter that JavaScript treats as truthy: there and not empty. */
  predicate Present(o: Option<string>) {
    o.Some? && o.value != ""
  }

  // ---------------------------------------------------------------------
  // Submit
  // ---------------------------------------------------------------------

  /** What the submit handler reads from the request: two headers and two body fields. */
  datatype SubmitRequest = SubmitRequest(
    userId: Option<string>,
    tier: Option<string>,
    platform: Option<string>,
    content: Option<string>)

  /** The submit handler's replies: 400, 429 with `Retry-After`, 200 with the new id, 500. */
  datatype SubmitResponse = BadRequest | TooManyRequests(retryAfter: int) | Accepted(submissionId: string) | InternalError

  /** The tier header, or `free` when it is missing or empty. */
  function TierOf(req: SubmitRequest): (tier: string)
    ensures tier != ""
    ensures Present(req.tier) ==> tier == req.tier.value
  {
    if Present(req.tier) then req.tier.value else "free"
  }

  /** The user id header, the platform and the content are all present and non-empty. */
  predicate WellFormedRequest(req: SubmitRequest) {
    Present(req.userId) && Present(req.platform) && Present(req.content)
  }

  /**
   * The submit handler on store state `s`. The new submission's id, its
   * timestamp (and that timestamp's epoch `score`), the content's sentiment
   * and which store write fails, if any, are given.
   */
  function SubmitOutcome(s: StoreState, table: RateLimiter.TierTable, req: SubmitRequest, id: string,
                         timestamp: string, score: real, sentiment: real, fault: Fault): (r: (StoreState, SubmitResponse))
    ensures r.1 == BadRequest <==> !WellFormedRequest(req)
    ensures r.1.Accepted? ==> r.1 == Accepted(id) && fault == NoFault
    ensures r.1 == InternalError ==> fault != NoFault
  {
    if !WellFormedRequest(req) then (s, BadRequest)
    else
      var checked := RateLimiter.Check(s, table, req.userId.value, TierOf(req));
      if checked.decision.Limited? then (checked.after, TooManyRequests(checked.decision.retryAfter))
      else
        var processed := Processed(checked.after, req.platform.value, req.content.value, timestamp, score,
                                   id, req.userId.value, sentiment, fault);
        if processed.1.Fail? then (processed.0, InternalError) else (processed.0, Accepted(id))
  }

  method Submit(redis: Redis, table: RateLimiter.TierTable, req: SubmitRequest, id: string,
                timestamp: string, score: real, sentiment: real, fault: Fault)
    returns (response: SubmitResponse)
    requires redis.Valid()
    modifies redis
    ensures redis.Valid()
    ensures (redis.State(), response) == SubmitOutcome(old(redis.State()), table, req, id, timestamp, score, sentiment, fault)
  {
    var tier := TierOf(req);
    if !Present(req.userId) || !Present(req.platform) || !Present(req.content) {
      return BadRequest;
    }
    var userId := req.userId.value;

    var limited, retryAfter := RateLimiter.IsRateLimited(redis, table, userId, tier);
    if limited {
      return TooManyRequests(retryAfter.value);
    }

    var outcome := ProcessSubmission(redis, req.platform.value, req.content.value, timestamp, score, id, userId, sentiment, fault);
    if outcome.Fail? {
      return InternalError;
    }
    return Accepted(id);
  }

  /** A request missing its user id, platform or content is refused with 400 and changes nothing, and only such a request is. */
  lemma MalformedSubmitChangesNothing(s: StoreState, table: RateLimiter.TierTable, req: SubmitRequest, id: string,
                                      timestamp: string, score: real, sentiment: real, fault: Fault)
    ensures var r := SubmitOutcome(s, table, req, id, timestamp, score, sentiment, fault);
      && (r.1 == BadRequest <==> !WellFormedRequest(req))
      && (r.1 == BadRequest ==> r.0 == s)
  {
  }

  /**
   * A rate-limited request is answered 429 with the minute window's remaining
   * TTL; its counters still went up, and no record or timeline changed.
   */
  lemma LimitedSubmitStoresNothing(s: StoreState, table: RateLimiter.TierTable, req: SubmitRequest, id: string,
                                   timestamp: string, score: real, sentiment: real, fault: Fault)
    requires WellFormedRequest(req)
    requires RateLimiter.Check(s, table, req.userId.value, TierOf(req)).decision.Limited?
    ensures var r := SubmitOutcome(s, table, req, id, timestamp, score, sentiment, fault);
      var mk := RateLimiter.MinuteKey(req.userId.value, TierOf(req));
      && r.1 == TooManyRequests(RemainingTtl(r.0, mk))
      && CountOf(r.0, mk) == CountOf(s, mk) + 1
      && r.0.hashes == s.hashes && r.0.zsets == s.zsets
  {
    RateLimiter.AdmitTouchesOnlyItsCounters(s, RateLimiter.LimitsFor(table, TierOf(req)), req.userId.value, TierOf(req));
  }

  /** A request without a tier header, or with an empty one, is handled exactly as one whose tier is `free`. */
  lemma MissingTierIsFree(s: StoreState, table: RateLimiter.TierTable, userId: Option<string>, tier: Option<string>,
                          platform: Option<string>, content: Option<string>, id: string,
                          timestamp: string, score: real, sentiment: real, fault: Fault)
    requires !Present(tier)
    ensures SubmitOutcome(s, table, SubmitRequest(userId, tier, platform, content), id, timestamp, score, sentiment, fault)
         == SubmitOutcome(s, table, SubmitRequest(userId, Some("free"), platform, content), id, timestamp, score, sentiment, fault)
  {
  }

  /**
   * 200 is returned exactly when the request is well formed, admitted and
   * both writes succeed; then the record is stored under the returned id and
   * the id is in the user's timeline.
   */
  lemma AcceptedSubmitIsStored(s: StoreState, table: RateLimiter.TierTable, req: SubmitRequest, id: string,
                               timestamp: string, score: real, sentiment: real, fault: Fault)
    ensures var r := SubmitOutcome(s, table, req, id, timestamp, score, sentiment, fault);
      && (r.1.Accepted? <==> WellFormedRequest(req) && fault == NoFault
                              && RateLimiter.Check(s, table, req.userId.value, TierOf(req)).decision.Allowed?)
      && (r.1.Accepted? ==>
            && r.1.submissionId == id
            && RecordAt(r.0, SubmissionKey(id)) == Some(RecordFor(req.platform.value, req.content.value, timestamp, sentiment))
            && id in SortedSet.Members(SetAt(r.0, TimelineKey(req.userId.value))))
  {
    var r := SubmitOutcome(s, table, req, id, timestamp, score, sentiment, fault);
    if r.1.Accepted? {
      var checked := RateLimiter.Check(s, table, req.userId.value, TierOf(req));
      ProcessedStoresRecordAndIndex(checked.after, req.platform.value, req.content.value, timestamp, score,
                                    id, req.userId.value, sentiment);
      var z := SetAt(r.0, TimelineKey(req.userId.value));
      var k :| 0 <= k < |z| && z[k] == SortedSet.Entry(id, score);
      assert SortedSet.Members(z)[k] == id;
    }
  }

  /** Whatever happens to a request, no timeline ends up holding an id without its record. */
  lemma SubmitKeepsTimelinesBacked(s: StoreState, table: RateLimiter.TierTable, req: SubmitRequest, id: string,
                                   timestamp: string, score: real, sentiment: real, fault: Fault)
    requires TimelinesBacked(s)
    ensures TimelinesBacked(SubmitOutcome(s, table, req, id, timestamp, score, sentiment, fault).0)
  {
    if WellFormedRequest(req) {
      var checked := RateLimiter.Check(s, table, req.userId.value, TierOf(req));
      RateLimiter.AdmitTouchesOnlyItsCounters(s, RateLimiter.LimitsFor(table, TierOf(req)), req.userId.value, TierOf(req));
      assert TimelinesBacked(checked.after);
      if checked.decision.Allowed? {
        ProcessedKeepsTimelinesBacked(checked.after, req.platform.value, req.content.value, timestamp, score,
                                      id, req.userId.value, sentiment, fault);
      }
    }
  }

  // ---------------------------------------------------------------------
  // Dashboard
  // ---------------------------------------------------------------------

  /** The dashboard's query: `user_id` and the optional `platform` filter. */
  datatype DashboardRequest = DashboardRequest(userId: Option<string>, platform: Option<string>)

  /** The 200 body: `mentions_count`, `top_hashtags`, `sentiment_score`. */
  datatype DashboardView = DashboardView(mentionsCount: nat, topHashtags: seq<string>, sentimentScore: real)

  /** 400 without a user id; otherwise the view. */
  datatype DashboardResponse = MissingUserId | Report(view: DashboardView)

  /**
   * A fetched record is counted unless a non-empty platform filter is given
   * and the record's platform differs; a missing record has no platform, so
   * it is counted only without a filter.
   */
  function Matches(rec: Option<Submission>, filter: Option<string>): (counted: bool)
    ensures !Present(filter) ==> counted
    ensures rec.None? ==> (counted <==> !Present(filter))
  {
    !Present(filter) || (rec.Some? && rec.value.platform == filter.value)
  }

  /** The records that pass the filter, in timeline order. */
  function Kept(recs: seq<Option<Submission>>, filter: Option<string>): (kept: seq<Option<Submission>>)
    ensures |kept| <= |recs|
    ensures !Present(filter) ==> kept == recs
    decreases |recs|
  {
    if recs == [] then []
    else
      var init := Kept(recs[..|recs| - 1], filter);
      var last := recs[|recs| - 1];
      assert recs == recs[..|recs| - 1] + [last];
      if Matches(last, filter) then init + [last] else init
  }

  /** The kept records are exactly the fetched records that match. */
  lemma {:induction false} KeptMembers(recs: seq<Option<Submission>>, filter: Option<string>)
    ensures forall r :: r in Kept(recs, filter) <==> r in recs && Matches(r, filter)
    decreases |recs|
  {
    if recs != [] {
      var init := recs[..|recs| - 1];
      KeptMembers(init, filter);
      assert recs == init + [recs[|recs| - 1]];
    }
  }

  /** The tags a record contributes: its `hashtags` field split on commas, empty pieces skipped. */
  function TagsOf(rec: Option<Submission>): (tags: seq<string>)
    ensures forall i :: 0 <= i < |tags| ==> tags[i] != "" && ',' !in tags[i]
  {
    if rec.None? || rec.value.hashtags == "" then []
    else NonEmpty(Split(rec.value.hashtags, ','))
  }

  /** The tags of all `recs`, in order; this is the order `hashtagsMap` first sees them in. */
  function AllTags(recs: seq<Option<Submission>>): seq<string>
    decreases |recs|
  {
    if recs == [] then [] else AllTags(recs[..|recs| - 1]) + TagsOf(recs[|recs| - 1])
  }

  /** The sum of the records' sentiment scores; a missing record adds nothing. */
  function TotalSentiment(recs: seq<Option<Submission>>): real
    decreases |recs|
  {
    if recs == [] then 0.0
    else
      var last := recs[|recs| - 1];
      TotalSentiment(recs[..|recs| - 1]) + (if last.Some? then last.value.sentiment else 0.0)
  }

  /** The mean of `count` scores summing to `total`; zero when there are none. */
  function Mean(total: real, count: nat): (m: real)
    ensures count > 0 ==> m * (count as real) == total
    ensures count == 0 ==> m == 0.0
  {
    if count > 0 then total / (count as real) else 0.0
  }

  /** The aggregate over fetched records under a platform filter. */
  function Aggregate(recs: seq<Option<Submission>>, filter: Option<string>): (view: DashboardView)
    ensures view.mentionsCount <= |recs|
    ensures !Present(filter) ==> view.mentionsCount == |recs|
    ensures |view.topHashtags| <= TopCount
    ensures view.mentionsCount == 0 ==> view.topHashtags == [] && view.sentimentScore == 0.0
  {
    var kept := Kept(recs, filter);
    DashboardView(|kept|, TopHashtags(Tally(AllTags(kept))), Mean(TotalSentiment(kept), |kept|))
  }

  /** The record of each id, in order, as HGETALL returns it. */
  function Fetched(s: StoreState, ids: seq<string>): (recs: seq<Option<Submission>>)
    ensures |recs| == |ids|
    ensures forall k :: 0 <= k < |ids| ==> recs[k] == RecordAt(s, SubmissionKey(ids[k]))
  {
    seq(|ids|, k requires 0 <= k < |ids| => RecordAt(s, SubmissionKey(ids[k])))
  }

  /** The dashboard handler on store state `s`. */
  function DashboardFor(s: StoreState, req: DashboardRequest): (response: DashboardResponse)
    ensures response.MissingUserId? <==> !Present(req.userId)
    ensures response.Report? ==>
      response.view.mentionsCount <= |SortedSet.Members(SetAt(s, TimelineKey(req.userId.value)))|
  {
    if !Present(req.userId) then MissingUserId
    else
      var ids := SortedSet.Members(SetAt(s, TimelineKey(req.userId.value)));
      Report(Aggregate(Fetched(s, ids), req.platform))
  }

  lemma PrefixStep<T>(s: seq<T>, i: nat)
    requires i < |s|
    ensures s[..i + 1] == s[..i] + [s[i]]
  {
  }

  /** Appending one record to the fetched ones. */
  lemma KeptAppend(recs: seq<Option<Submission>>, r: Option<Submission>, filter: Option<string>)
    ensures Kept(recs + [r], filter) == if Matches(r, filter) then Kept(recs, filter) + [r] else Kept(recs, filter)
  {
    assert (recs + [r])[..|recs|] == recs;
  }

  /** Appending one record to the counted ones. */
  lemma CountedAppend(kept: seq<Option<Submission>>, r: Option<Submission>)
    ensures AllTags(kept + [r]) == AllTags(kept) + TagsOf(r)
    ensures TotalSentiment(kept + [r]) == TotalSentiment(kept) + (if r.Some? then r.value.sentiment else 0.0)
  {
    assert (kept + [r])[..|kept|] == kept;
  }

  /** Appending one piece of a split `hashtags` field. */
  lemma NonEmptyAppend(pieces: seq<string>, p: string)
    ensures NonEmpty(pieces + [p]) == if p == "" then NonEmpty(pieces) else NonEmpty(pieces) + [p]
  {
    assert (pieces + [p])[..|pieces|] == pieces;
  }

  lemma TallyAppend(tags: seq<string>, t: string)
    ensures Tally(tags + [t]) == Bump(Tally(tags), t)
  {
    assert (tags + [t])[..|tags|] == tags;
  }

  /** One piece of the inner loop: an empty piece leaves the map, another is bumped. */
  lemma BumpPiecesStep(before: seq<string>, done: seq<string>, piece: string)
    ensures Tally(before + NonEmpty(done + [piece])) ==
      if piece == "" then Tally(before + NonEmpty(done)) else Bump(Tally(before + NonEmpty(done)), piece)
  {
    NonEmptyAppend(done, piece);
    if piece != "" {
      var counted := before + NonEmpty(done);
      assert before + (NonEmpty(done) + [piece]) == counted + [piece];
      TallyAppend(counted, piece);
    }
  }

  /** The inner loop: bump each non-empty piece of a split `hashtags` field in the map. */
  method BumpPieces(hashtagsMap: seq<TagCount>, ghost before: seq<string>, tags: seq<string>)
    returns (updated: seq<TagCount>)
    requires hashtagsMap == Tally(before)
    ensures updated == Tally(before + NonEmpty(tags))
  {
    updated := hashtagsMap;
    assert before + NonEmpty(tags[..0]) == before;
    for j := 0 to |tags|
      invariant updated == Tally(before + NonEmpty(tags[..j]))
    {
      PrefixStep(tags, j);
      BumpPiecesStep(before, tags[..j], tags[j]);
      if tags[j] != "" {
        updated := Bump(updated, tags[j]);
      }
    }
    assert tags[..|tags|] == tags;
  }

  /** The loop's three accumulators hold the count, tag map and sentiment sum of `kept`. */
  ghost predicate Summarizes(kept: seq<Option<Submission>>, count: nat, hashtagsMap: seq<TagCount>, total: real) {
    count == |kept| && hashtagsMap == Tally(AllTags(kept)) && total == TotalSentiment(kept)
  }

  /** One counted submission: one more mention, its tags bumped, its sentiment added. */
  method CountSubmission(ghost kept: seq<Option<Submission>>, submission: Option<Submission>,
                         count: nat, hashtagsMap: seq<TagCount>, total: real)
    returns (count': nat, hashtagsMap': seq<TagCount>, total': real)
    requires Summarizes(kept, count, hashtagsMap, total)
    ensures Summarizes(kept + [submission], count', hashtagsMap', total')
  {
    CountedAppend(kept, submission);
    count' := count + 1;
    if submission.Some? && submission.value.hashtags != "" {
      var tags := Split(submission.value.hashtags, ',');
      hashtagsMap' := BumpPieces(hashtagsMap, AllTags(kept), tags);
    } else {
      assert AllTags(kept) + TagsOf(submission) == AllTags(kept);
      hashtagsMap' := hashtagsMap;
    }
    total' := total;
    if submission.Some? {
      total' := total + submission.value.sentiment;
    }
  }

  /**
   * The handler as written: read the timeline, fetch each record, skip those
   * the filter rejects, count the rest, bump each non-empty tag in the
   * insertion-ordered map, sum the sentiments, then rank and average.
   */
  method Dashboard(redis: Redis, req: DashboardRequest) returns (response: DashboardResponse)
    ensures response == DashboardFor(redis.State(), req)
  {
    if !Present(req.userId) {
      return MissingUserId;
    }
    var ids := redis.ZRange(TimelineKey(req.userId.value));
    ghost var recs := Fetched(redis.State(), ids);

    var hashtagsMap: seq<TagCount> := [];
    var totalSentiment := 0.0;
    var validSubmissions := 0;

    for i := 0 to |ids|
      invariant Summarizes(Kept(recs[..i], req.platform), validSubmissions, hashtagsMap, totalSentiment)
    {
      var submission := redis.HGetAll(SubmissionKey(ids[i]));
      assert recs[i] == submission;
      PrefixStep(recs, i);
      KeptAppend(recs[..i], submission, req.platform);
      if Matches(submission, req.platform) {
        validSubmissions, hashtagsMap, totalSentiment :=
          CountSubmission(Kept(recs[..i], req.platform), submission, validSubmissions, hashtagsMap, totalSentiment);
      }
    }
    assert recs[..|ids|] == recs;

    response := Report(DashboardView(validSubmissions, TopHashtags(hashtagsMap), Mean(totalSentiment, validSubmissions)));
  }

  /** An empty `platform` parameter is no filter at all. */
  lemma EmptyFilterIsNoFilter(recs: seq<Option<Submission>>)
    ensures Aggregate(recs, Some("")) == Aggregate(recs, None)
  {
  }

  /** Without a filter every timeline entry is a mention, a missing record included. */
  lemma UnfilteredCountsEveryEntry(recs: seq<Option<Submission>>)
    ensures Aggregate(recs, None).mentionsCount == |recs|
  {
  }

  lemma {:induction false} RejectedRecordNotKept(front: seq<Option<Submission>>, r: Option<Submission>,
                                                back: seq<Option<Submission>>, filter: Option<string>)
    requires !Matches(r, filter)
    ensures Kept(front + [r] + back, filter) == Kept(front + back, filter)
    decreases |back|
  {
    if back == [] {
      KeptAppend(front, r, filter);
      assert front + [r] + back == front + [r];
      assert front + back == front;
    } else {
      var init := back[..|back| - 1];
      var last := back[|back| - 1];
      RejectedRecordNotKept(front, r, init, filter);
      KeptAppend(front + [r] + init, last, filter);
      KeptAppend(front + init, last, filter);
      assert front + [r] + back == (front + [r] + init) + [last];
      assert front + back == (front + init) + [last];
    }
  }

  /** A record the filter rejects changes nothing in the aggregate, wherever it stands. */
  lemma RejectedRecordIgnored(front: seq<Option<Submission>>, r: Option<Submission>,
                              back: seq<Option<Submission>>, filter: Option<string>)
    requires !Matches(r, filter)
    ensures Aggregate(front + [r] + back, filter) == Aggregate(front + back, filter)
  {
    RejectedRecordNotKept(front, r, back, filter);
  }

  /** The timeline positions whose record passes the filter. */
  function MatchingPositions(recs: seq<Option<Submission>>, filter: Option<string>): set<int> {
    set i | 0 <= i < |recs| && Matches(recs[i], filter)
  }

  lemma MatchingPositionsAppend(init: seq<Option<Submission>>, r: Option<Submission>, filter: Option<string>)
    ensures |init| !in MatchingPositions(init, filter)
    ensures MatchingPositions(init + [r], filter) ==
      MatchingPositions(init, filter) + (if Matches(r, filter) then {|init|} else {})
  {
    var recs := init + [r];
    forall i | 0 <= i < |init| ensures recs[i] == init[i] {
    }
  }

  lemma {:induction false} KeptCountsMatches(recs: seq<Option<Submission>>, filter: Option<string>)
    ensures |Kept(recs, filter)| == |MatchingPositions(recs, filter)|
    decreases |recs|
  {
    if recs != [] {
      var init := recs[..|recs| - 1];
      var last := recs[|recs| - 1];
      assert recs == init + [last];
      KeptCountsMatches(init, filter);
      KeptAppend(init, last, filter);
      MatchingPositionsAppend(init, last, filter);
    }
  }

  /** `mentions_count` is the number of timeline entries whose record passes the filter. */
  lemma MentionsCountMatches(recs: seq<Option<Submission>>, filter: Option<string>)
    ensures Aggregate(recs, filter).mentionsCount == |MatchingPositions(recs, filter)|
  {
    KeptCountsMatches(recs, filter);
  }

  /**
   * A tag's frequency in the map is its number of occurrences among the
   * counted records' tags, repeats within one record included.
   */
  lemma TagFrequency(recs: seq<Option<Submission>>, filter: Option<string>, t: string)
    ensures CountIn(Tally(AllTags(Kept(recs, filter))), t) == multiset(AllTags(Kept(recs, filter)))[t]
    ensures t in Tags(Tally(AllTags(Kept(recs, filter)))) <==> t in AllTags(Kept(recs, filter))
  {
    TallyCounts(AllTags(Kept(recs, filter)));
  }

  /** With nothing matching, the view is zero mentions, no hashtags and a zero score. */
  lemma {:induction false} NoMatchesGiveEmptyView(recs: seq<Option<Submission>>, filter: Option<string>)
    requires forall r :: r in recs ==> !Matches(r, filter)
    ensures Kept(recs, filter) == []
    ensures Aggregate(recs, filter) == DashboardView(0, [], 0.0)
    decreases |recs|
  {
    if recs != [] {
      var init := recs[..|recs| - 1];
      assert recs == init + [recs[|recs| - 1]];
      KeptAppend(init, recs[|recs| - 1], filter);
      NoMatchesGiveEmptyView(init, filter);
    }
  }

  /**
   * The hashtags a record was stored with are the ones the dashboard reads
   * back: joining with commas and splitting again loses nothing, because a
   * tag is never empty and never holds a comma.
   */
  lemma StoredHashtagsRoundTrip(platform: string, content: string, timestamp: string, sentiment: real)
    ensures TagsOf(Some(RecordFor(platform, content, timestamp, sentiment))) == ExtractHashtags(content)
  {
    var tags := ExtractHashtags(content);
    if tags != [] {
      SplitOfJoin(tags, ',');
      NonEmptyKeepsNonEmpty(tags);
      assert tags[0] != "";
      JoinNonEmpty(tags, ',');
    }
  }

  lemma {:induction false} JoinNonEmpty(pieces: seq<string>, sep: char)
    requires |pieces| >= 1 && pieces[0] != ""
    ensures Join(pieces, sep) != ""
    decreases |pieces|
  {
    if |pieces| > 1 {
      assert Join(pieces, sep) == pieces[0] + [sep] + Join(pieces[1..], sep);
    }
  }

  /**
   * The top hashtags: at most ten distinct tags, each occurring in a
   * counted record, ranked by how often they occur there, ties broken by
   * which tag was seen first, and no tag left out occurs more often than
   * one kept.
   */
  lemma DashboardTopHashtags(recs: seq<Option<Submission>>, filter: Option<string>)
    ensures var all := AllTags(Kept(recs, filter));
      var top := Aggregate(recs, filter).topHashtags;
      && |top| <= TopCount
      && (forall i, j :: 0 <= i < j < |top| ==> top[i] != top[j])
      && (forall i :: 0 <= i < |top| ==> top[i] in all)
      && (forall i, j :: 0 <= i < j < |top| ==> multiset(all)[top[i]] >= multiset(all)[top[j]])
      && (forall i, j :: 0 <= i < j < |top| && multiset(all)[top[i]] == multiset(all)[top[j]] ==>
            Precedes(FirstOccurrences(all), top[i], top[j]))
      && (forall t, i :: t in all && t !in top && 0 <= i < |top| ==> multiset(all)[t] <= multiset(all)[top[i]])
  {
    var all := AllTags(Kept(recs, filter));
    assert Aggregate(recs, filter).topHashtags == TopHashtags(Tally(all));
    TopOfTally(all);
  }

  /**
   * After a submission is accepted, the user's dashboard filtered on its
   * platform counts it.
   */
  lemma AcceptedSubmissionIsCounted(s: StoreState, table: RateLimiter.TierTable, req: SubmitRequest, id: string,
                                    timestamp: string, score: real, sentiment: real)
    requires SubmitOutcome(s, table, req, id, timestamp, score, sentiment, NoFault).1.Accepted?
    ensures var t := SubmitOutcome(s, table, req, id, timestamp, score, sentiment, NoFault).0;
      var resp := DashboardFor(t, DashboardRequest(req.userId, req.platform));
      resp.Report? && resp.view.mentionsCount >= 1
  {
    var t := SubmitOutcome(s, table, req, id, timestamp, score, sentiment, NoFault).0;
    AcceptedSubmitIsStored(s, table, req, id, timestamp, score, sentiment, NoFault);
    var ids := SortedSet.Members(SetAt(t, TimelineKey(req.userId.value)));
    var recs := Fetched(t, ids);
    var k :| 0 <= k < |ids| && ids[k] == id;
    var rec := RecordFor(req.platform.value, req.content.value, timestamp, sentiment);
    assert recs[k] == Some(rec);
    assert Matches(Some(rec), req.platform);
    KeptMembers(recs, req.platform);
    assert Some(rec) in Kept(recs, req.platform);
  }
}
