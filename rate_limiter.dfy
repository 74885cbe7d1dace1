/**
 * The fixed-window, two-counter rate limiter: per user and tier label, a
 * minute counter and an hour counter in the store, each given its TTL on the
 * increment that creates it and never again, and a per-tier pair of ceilings.
 */
module RateLimiter {
  import opened Wrappers
  import opened Store

  const MinuteWindow: int := 60
  const HourWindow: int := 3600

  /** The ceilings of one tier. */
  datatype Limits = Limits(perMinute: int, perHour: int)

  /** The ceilings of the three known tiers. */
  datatype TierTable = TierTable(free: Limits, standard: Limits, premium: Limits)

  /**
   * The six environment settings after `parseInt`: `None` is NaN, i.e. the
   * variable is unset or does not start with a number.
   */
  datatype RateConfig = RateConfig(
    freePerMinute: Option<int>, freePerHour: Option<int>,
    standardPerMinute: Option<int>, standardPerHour: Option<int>,
    premiumPerMinute: Option<int>, premiumPerHour: Option<int>)

  /** A parsed setting, or the fallback when it is not a number or is 0 (both falsy in JavaScript). */
  function OrDefault(parsed: Option<int>, fallback: int): int {
    if parsed.Some? && parsed.value != 0 then parsed.value else fallback
  }

  /** The `RATE_LIMITS` table built from the configuration. */
  function RateLimits(cfg: RateConfig): (table: TierTable)
    ensures table.free.perMinute != 0 && table.free.perHour != 0
    ensures table.standard.perMinute != 0 && table.standard.perHour != 0
    ensures table.premium.perMinute != 0 && table.premium.perHour != 0
  {
    TierTable(
      Limits(OrDefault(cfg.freePerMinute, 10), OrDefault(cfg.freePerHour, 100)),
      Limits(OrDefault(cfg.standardPerMinute, 50), OrDefault(cfg.standardPerHour, 500)),
      Limits(OrDefault(cfg.premiumPerMinute, 200), OrDefault(cfg.premiumPerHour, 2000)))
  }

  /** A configuration with no variable set. */
  const Unconfigured := RateConfig(None, None, None, None, None, None)

  /**
   * A setting that is unset, unparseable or 0 leaves the default; any other
   * parsed value, negative ones included, replaces it.
   */
  lemma ConfiguredLimitFallback(cfg: RateConfig)
    ensures cfg.freePerMinute.None? || cfg.freePerMinute == Some(0) ==> RateLimits(cfg).free.perMinute == 10
    ensures cfg.freePerHour.None? || cfg.freePerHour == Some(0) ==> RateLimits(cfg).free.perHour == 100
    ensures cfg.standardPerMinute.None? || cfg.standardPerMinute == Some(0) ==> RateLimits(cfg).standard.perMinute == 50
    ensures cfg.standardPerHour.None? || cfg.standardPerHour == Some(0) ==> RateLimits(cfg).standard.perHour == 500
    ensures cfg.premiumPerMinute.None? || cfg.premiumPerMinute == Some(0) ==> RateLimits(cfg).premium.perMinute == 200
    ensures cfg.premiumPerHour.None? || cfg.premiumPerHour == Some(0) ==> RateLimits(cfg).premium.perHour == 2000
    ensures forall n :: n != 0 && cfg.freePerMinute == Some(n) ==> RateLimits(cfg).free.perMinute == n
    ensures forall n :: n != 0 && cfg.freePerHour == Some(n) ==> RateLimits(cfg).free.perHour == n
    ensures forall n :: n != 0 && cfg.standardPerMinute == Some(n) ==> RateLimits(cfg).standard.perMinute == n
    ensures forall n :: n != 0 && cfg.standardPerHour == Some(n) ==> RateLimits(cfg).standard.perHour == n
    ensures forall n :: n != 0 && cfg.premiumPerMinute == Some(n) ==> RateLimits(cfg).premium.perMinute == n
    ensures forall n :: n != 0 && cfg.premiumPerHour == Some(n) ==> RateLimits(cfg).premium.perHour == n
    ensures RateLimits(Unconfigured) == TierTable(Limits(10, 100), Limits(50, 500), Limits(200, 2000))
  {
  }

  /** The tier labels that have their own entry in the table. */
  predicate IsKnownTier(tier: string) {
    tier == "free" || tier == "standard" || tier == "premium"
  }

  /**
   * The table's ceilings for `tier`, as intended: a label without its
   * own entry uses the free ceilings.
   */
  function LimitsFor(table: TierTable, tier: string): (limits: Limits)
    ensures !IsKnownTier(tier) ==> limits == table.free
  {
    if tier == "standard" then table.standard
    else if tier == "premium" then table.premium
    else table.free
  }

  /** The property names every JavaScript object inherits from `Object.prototype`. */
  const ObjectPrototypeMembers: set<string> := {
    "constructor", "__proto__", "hasOwnProperty", "isPrototypeOf", "propertyIsEnumerable",
    "toLocaleString", "toString", "valueOf",
    "__defineGetter__", "__defineSetter__", "__lookupGetter__", "__lookupSetter__"}

  /** What the property read `RATE_LIMITS[tier]` yields. */
  datatype TableLookup = OwnEntry(limits: Limits) | InheritedMember | Missing

  function LookupAsWritten(table: TierTable, tier: string): (found: TableLookup)
    ensures found.OwnEntry? <==> IsKnownTier(tier)
    ensures found.OwnEntry? ==> found.limits == LimitsFor(table, tier)
    ensures found.InheritedMember? <==> tier in ObjectPrototypeMembers
  {
    if tier == "free" then OwnEntry(table.free)
    else if tier == "standard" then OwnEntry(table.standard)
    else if tier == "premium" then OwnEntry(table.premium)
    else if tier in ObjectPrototypeMembers then InheritedMember
    else Missing
  }

  /**
   * The limit test as written: `RATE_LIMITS[tier] || RATE_LIMITS.free`, then
   * `minuteCount > limits.per_minute || hourCount > limits.per_hour`. An
   * inherited member is truthy, so it is used as the limits object; it has no
   * `per_minute` or `per_hour`, and a number compared with `undefined` is never
   * greater.
   */
  function RejectsAsWritten(table: TierTable, tier: string, minuteCount: int, hourCount: int): (rejects: bool)
    ensures rejects ==> minuteCount > LimitsFor(table, tier).perMinute || hourCount > LimitsFor(table, tier).perHour
  {
    match LookupAsWritten(table, tier)
    case OwnEntry(l) => minuteCount > l.perMinute || hourCount > l.perHour
    case InheritedMember => false
    case Missing => minuteCount > table.free.perMinute || hourCount > table.free.perHour
  }

  /** As written, a tier label such as `constructor` is never limited, however high the counts. */
  lemma PrototypeTierNeverLimitedAsWritten(table: TierTable, minuteCount: int, hourCount: int)
    ensures forall tier :: tier in ObjectPrototypeMembers ==> !RejectsAsWritten(table, tier, minuteCount, hourCount)
  {
  }

  /**
   * Away from the inherited names the test as written and the corrected
   * `LimitsFor` decide alike; on `constructor` with a hundred times the free
   * ceiling they part.
   */
  lemma AsWrittenDiffersOnlyOnPrototypeNames(table: TierTable, tier: string, minuteCount: int, hourCount: int)
    ensures tier !in ObjectPrototypeMembers ==>
      (RejectsAsWritten(table, tier, minuteCount, hourCount) <==>
        minuteCount > LimitsFor(table, tier).perMinute || hourCount > LimitsFor(table, tier).perHour)
    ensures !RejectsAsWritten(RateLimits(Unconfigured), "constructor", 1000, 1000)
      && 1000 > LimitsFor(RateLimits(Unconfigured), "constructor").perMinute
  {
    if tier !in ObjectPrototypeMembers && !IsKnownTier(tier) {
      assert LookupAsWritten(table, tier) == Missing;
    }
  }

  /**
   * With the corrected lookup a `constructor` tier is held to the free
   * ceilings: once its minute counter has reached `free.perMinute`, the next
   * call is rejected.
   */
  lemma PrototypeTierLimitedAsFree(s: StoreState, table: TierTable, userId: string)
    requires CountOf(s, MinuteKey(userId, "constructor")) >= table.free.perMinute
    ensures Check(s, table, userId, "constructor").decision.Limited?
  {
  }

  function MinuteKey(userId: string, tier: string): string {
    "rate_limit:" + userId + ":" + tier + ":minute"
  }

  function HourKey(userId: string, tier: string): string {
    "rate_limit:" + userId + ":" + tier + ":hour"
  }

  /** The window a counter key belongs to, read off its `:minute` suffix. */
  predicate IsMinuteKey(key: string) {
    |key| >= 7 && key[|key| - 7..] == ":minute"
  }

  function WindowOf(key: string): int {
    if IsMinuteKey(key) then MinuteWindow else HourWindow
  }

  lemma KeyWindows(userId: string, tier: string)
    ensures IsMinuteKey(MinuteKey(userId, tier))
    ensures !IsMinuteKey(HourKey(userId, tier))
    ensures MinuteKey(userId, tier) != HourKey(userId, tier)
  {
    var m := MinuteKey(userId, tier);
    var h := HourKey(userId, tier);
    assert m[|m| - 7..] == ":minute";
    assert h[|h| - 1] == 'r';
  }

  /** The outcome of one call: admitted, or rejected with a retry hint in seconds. */
  datatype Decision = Allowed | Limited(retryAfter: int)

  /** One call's effect: the store after it and its decision. */
  datatype Call = Call(after: StoreState, decision: Decision)

  /** Several calls' effect: the store after them and their decisions in call order. */
  datatype Run = Run(after: StoreState, decisions: seq<Decision>)

  /**
   * The store writes of one call: INCR of the minute counter, INCR of the
   * hour counter, then EXPIRE on each counter whose INCR returned 1. Both
   * counters go up by one, and a TTL is set only by the increment that
   * creates its counter.
   */
  function Counted(s: StoreState, mk: string, hk: string): (t: StoreState)
    requires mk != hk
    ensures t.counts == s.counts[mk := CountOf(s, mk) + 1][hk := CountOf(s, hk) + 1]
    ensures CountOf(s, mk) + 1 == 1 ==> mk in t.expiry && t.expiry[mk] == s.now + MinuteWindow
    ensures CountOf(s, hk) + 1 == 1 ==> hk in t.expiry && t.expiry[hk] == s.now + HourWindow
    ensures CountOf(s, mk) + 1 != 1 ==> (mk in t.expiry <==> mk in s.expiry)
    ensures CountOf(s, mk) + 1 != 1 && mk in s.expiry ==> t.expiry[mk] == s.expiry[mk]
    ensures CountOf(s, hk) + 1 != 1 ==> (hk in t.expiry <==> hk in s.expiry)
    ensures CountOf(s, hk) + 1 != 1 && hk in s.expiry ==> t.expiry[hk] == s.expiry[hk]
    ensures t.now == s.now && t.hashes == s.hashes && t.zsets == s.zsets
  {
    var minuteCount, hourCount := CountOf(s, mk) + 1, CountOf(s, hk) + 1;
    var e1 := if minuteCount == 1 then s.expiry[mk := s.now + MinuteWindow] else s.expiry;
    var e2 := if hourCount == 1 then e1[hk := s.now + HourWindow] else e1;
    s.(counts := s.counts[mk := minuteCount][hk := hourCount], expiry := e2)
  }

  /**
   * `Counted` is the four commands in the order the limiter issues them:
   * INCR minute, INCR hour, EXPIRE minute 60 if that INCR returned 1,
   * EXPIRE hour 3600 if that INCR returned 1.
   */
  lemma CountedIsTheCommands(s: StoreState, mk: string, hk: string)
    requires mk != hk
    ensures var s1 := Incremented(s, mk);
      var s2 := Incremented(s1, hk);
      var s3 := if CountOf(s1, mk) == 1 then WithExpiry(s2, mk, MinuteWindow) else s2;
      Counted(s, mk, hk) == if CountOf(s2, hk) == 1 then WithExpiry(s3, hk, HourWindow) else s3
  {
  }

  /** `Counted` leaves every other key's TTL as it was. */
  lemma CountedFrame(s: StoreState, mk: string, hk: string)
    requires mk != hk
    ensures var t := Counted(s, mk, hk);
      && (forall k :: k != mk && k != hk ==> (k in t.expiry <==> k in s.expiry))
      && (forall k :: k != mk && k != hk && k in s.expiry ==> t.expiry[k] == s.expiry[k])
  {
  }

  /** `Counted` keeps the store well formed. */
  lemma CountedWellFormed(s: StoreState, mk: string, hk: string)
    requires mk != hk
    requires WellFormed(s)
    ensures WellFormed(Counted(s, mk, hk))
  {
  }


  /**
   * One call of `isRateLimited` with ceilings `limits` for the caller whose
   * counters are `mk` (minute) and `hk` (hour): the store writes of `Counted`,
   * then a rejection when either count is above its ceiling, with the minute
   * counter's remaining TTL as the retry hint.
   */
  function AdmitAt(s: StoreState, limits: Limits, mk: string, hk: string): (r: Call)
    requires mk != hk
    ensures r.decision.Limited? <==> CountOf(s, mk) + 1 > limits.perMinute || CountOf(s, hk) + 1 > limits.perHour
    ensures r.decision.Limited? ==> r.decision.retryAfter == RemainingTtl(r.after, mk)
  {
    var t := Counted(s, mk, hk);
    if CountOf(s, mk) + 1 > limits.perMinute || CountOf(s, hk) + 1 > limits.perHour then
      Call(t, Limited(RemainingTtl(t, mk)))
    else
      Call(t, Allowed)
  }

  /**
   * One call of `isRateLimited(userId, tier)` with ceilings `limits`: both
   * counters go up by one, and the call is rejected when either count is
   * above its ceiling, with the minute counter's remaining TTL as the hint.
   */
  function Admit(s: StoreState, limits: Limits, userId: string, tier: string): (r: Call)
    ensures var mk, hk := MinuteKey(userId, tier), HourKey(userId, tier);
      && CountOf(r.after, mk) == CountOf(s, mk) + 1
      && CountOf(r.after, hk) == CountOf(s, hk) + 1
      && (r.decision.Limited? <==> CountOf(s, mk) + 1 > limits.perMinute || CountOf(s, hk) + 1 > limits.perHour)
      && (r.decision.Limited? ==> r.decision.retryAfter == RemainingTtl(r.after, mk))
  {
    KeyWindows(userId, tier);
    AdmitAt(s, limits, MinuteKey(userId, tier), HourKey(userId, tier))
  }

  /** `isRateLimited(userId, tier)` against the table, on the store state `s`. */
  function Check(s: StoreState, table: TierTable, userId: string, tier: string): (c: Call)
    ensures CountOf(c.after, MinuteKey(userId, tier)) == CountOf(s, MinuteKey(userId, tier)) + 1
    ensures CountOf(c.after, HourKey(userId, tier)) == CountOf(s, HourKey(userId, tier)) + 1
    ensures c.decision.Limited? <==>
      CountOf(s, MinuteKey(userId, tier)) + 1 > LimitsFor(table, tier).perMinute
      || CountOf(s, HourKey(userId, tier)) + 1 > LimitsFor(table, tier).perHour
    ensures c.decision.Limited? ==> c.decision.retryAfter == RemainingTtl(c.after, MinuteKey(userId, tier))
  {
    Admit(s, LimitsFor(table, tier), userId, tier)
  }

  /**
   * The limiter as the source runs it: two INCRs, the conditional EXPIREs,
   * and a TTL read on rejection. Returns the `[isLimited, retryAfter]` pair.
   */
  method IsRateLimited(redis: Redis, table: TierTable, userId: string, tier: string)
    returns (limited: bool, retryAfter: Option<int>)
    requires redis.Valid()
    modifies redis
    ensures redis.Valid()
    ensures redis.State() == Check(old(redis.State()), table, userId, tier).after
    ensures limited <==> Check(old(redis.State()), table, userId, tier).decision.Limited?
    ensures limited ==> retryAfter == Some(Check(old(redis.State()), table, userId, tier).decision.retryAfter)
    ensures !limited ==> retryAfter == None
  {
    var limits := LimitsFor(table, tier);
    var minuteKey := MinuteKey(userId, tier);
    var hourKey := HourKey(userId, tier);
    KeyWindows(userId, tier);
    CountedIsTheCommands(redis.State(), minuteKey, hourKey);

    var minuteCount := redis.Incr(minuteKey);
    var hourCount := redis.Incr(hourKey);

    if minuteCount == 1 {
      var _ := redis.Expire(minuteKey, MinuteWindow);
    }
    if hourCount == 1 {
      var _ := redis.Expire(hourKey, HourWindow);
    }

    if minuteCount > limits.perMinute || hourCount > limits.perHour {
      var ttl := redis.Ttl(minuteKey);
      return true, Some(ttl);
    }
    return false, None;
  }

  /**
   * Both counters go up on every call, before the check: a rejected call is
   * counted too. The call touches no other counter, no other TTL, no record,
   * no timeline and not the clock.
   */
  lemma AdmitTouchesOnlyItsCounters(s: StoreState, limits: Limits, userId: string, tier: string)
    ensures var t := Admit(s, limits, userId, tier).after;
      var mk, hk := MinuteKey(userId, tier), HourKey(userId, tier);
      && t.counts == s.counts[mk := CountOf(s, mk) + 1][hk := CountOf(s, hk) + 1]
      && (forall k :: k != mk && k != hk ==> (k in t.expiry <==> k in s.expiry))
      && (forall k :: k != mk && k != hk && k in s.expiry ==> t.expiry[k] == s.expiry[k])
      && t.now == s.now && t.hashes == s.hashes && t.zsets == s.zsets
  {
    KeyWindows(userId, tier);
    CountedFrame(s, MinuteKey(userId, tier), HourKey(userId, tier));
  }

  /**
   * A counter gets its TTL only from the increment whose result is 1; any
   * other increment leaves its expiry as it was, so the window is never
   * extended.
   */
  lemma TtlSetOnlyByFirstIncrement(s: StoreState, limits: Limits, userId: string, tier: string)
    ensures var t := Admit(s, limits, userId, tier).after;
      var mk, hk := MinuteKey(userId, tier), HourKey(userId, tier);
      && (CountOf(s, mk) + 1 == 1 ==> mk in t.expiry && t.expiry[mk] == s.now + MinuteWindow)
      && (CountOf(s, hk) + 1 == 1 ==> hk in t.expiry && t.expiry[hk] == s.now + HourWindow)
      && (CountOf(s, mk) + 1 != 1 ==> (mk in t.expiry <==> mk in s.expiry))
      && (CountOf(s, mk) + 1 != 1 && mk in s.expiry ==> t.expiry[mk] == s.expiry[mk])
      && (CountOf(s, hk) + 1 != 1 ==> (hk in t.expiry <==> hk in s.expiry))
      && (CountOf(s, hk) + 1 != 1 && hk in s.expiry ==> t.expiry[hk] == s.expiry[hk])
  {
    KeyWindows(userId, tier);
  }

  /**
   * The state the limiter keeps when it is the only writer of counters:
   * every counter has a TTL no longer than its window.
   */
  predicate WindowsFixed(s: StoreState) {
    && WellFormed(s)
    && forall k :: k in s.counts ==> k in s.expiry && s.expiry[k] <= s.now + WindowOf(k)
  }

  lemma {:induction false} AdmitKeepsWindowsFixed(s: StoreState, limits: Limits, userId: string, tier: string)
    requires WindowsFixed(s)
    ensures WindowsFixed(Admit(s, limits, userId, tier).after)
  {
    var t := Admit(s, limits, userId, tier).after;
    var mk, hk := MinuteKey(userId, tier), HourKey(userId, tier);
    KeyWindows(userId, tier);
    AdmitTouchesOnlyItsCounters(s, limits, userId, tier);
    TtlSetOnlyByFirstIncrement(s, limits, userId, tier);
    CountedWellFormed(s, mk, hk);
    forall k | k in t.counts
      ensures k in t.expiry && t.expiry[k] <= t.now + WindowOf(k)
    {
      if k == mk || k == hk {
        assert CountOf(s, k) + 1 == 1 <==> k !in s.counts;
      } else {
        assert k in s.counts;
      }
    }
  }

  lemma {:induction false} AdvanceKeepsWindowsFixed(s: StoreState, dt: nat)
    requires WindowsFixed(s)
    ensures WindowsFixed(Advanced(s, dt))
  {
    AdvancedWellFormed(s, dt);
  }

  /**
   * On rejection the retry hint is the minute counter's remaining TTL, which
   * lies between 1 and 60 seconds.
   */
  lemma {:induction false} RetryAfterWithinMinute(s: StoreState, limits: Limits, userId: string, tier: string)
    requires WindowsFixed(s)
    requires Admit(s, limits, userId, tier).decision.Limited?
    ensures 0 < Admit(s, limits, userId, tier).decision.retryAfter <= MinuteWindow
  {
    KeyWindows(userId, tier);
    TtlSetOnlyByFirstIncrement(s, limits, userId, tier);
    AdmitKeepsWindowsFixed(s, limits, userId, tier);
  }

  /** The total length of a list of pauses, in seconds. */
  function Sum(gaps: seq<nat>): nat
    decreases |gaps|
  {
    if gaps == [] then 0 else gaps[0] + Sum(gaps[1..])
  }

  /**
   * Calls in a row by the caller with counters `mk` and `hk`, the i-th made
   * after a pause of `gaps[i]` seconds; the decisions in call order.
   */
  function AdmitMany(s: StoreState, limits: Limits, mk: string, hk: string, gaps: seq<nat>): Run
    requires mk != hk
    decreases |gaps|, 1
  {
    if gaps == [] then Run(s, []) else AdmitThenRest(s, limits, mk, hk, gaps)
  }

  /** A non-empty run: the first call after its pause, then the rest of the run from the store it leaves. */
  function AdmitThenRest(s: StoreState, limits: Limits, mk: string, hk: string, gaps: seq<nat>): Run
    requires mk != hk && gaps != []
    decreases |gaps|, 0
  {
    var first := AdmitAt(Advanced(s, gaps[0]), limits, mk, hk);
    var rest := AdmitMany(first.after, limits, mk, hk, gaps[1..]);
    Run(rest.after, [first.decision] + rest.decisions)
  }

  /**
   * The decision of the call that brings both counters to `count` while the
   * minute counter has `left` seconds to live.
   */
  function Expected(limits: Limits, count: int, left: int): (d: Decision)
    ensures d.Limited? <==> count > limits.perMinute || count > limits.perHour
    ensures d.Limited? ==> d.retryAfter == left
  {
    if count > limits.perMinute || count > limits.perHour then Limited(left) else Allowed
  }

  /**
   * The first call from absent counters opens both windows at the time it
   * is made: both counters become 1, the minute counter lives 60 seconds and
   * the hour counter 3600, and the decision is that for count 1 with the
   * full minute left.
   */
  lemma AdmitOpensWindows(s: StoreState, limits: Limits, mk: string, hk: string, dt: nat)
    requires mk != hk
    requires CountOf(s, mk) == 0 && CountOf(s, hk) == 0
    ensures var r := AdmitAt(Advanced(s, dt), limits, mk, hk);
      && CountOf(r.after, mk) == 1 && CountOf(r.after, hk) == 1
      && r.after.now == s.now + dt
      && mk in r.after.expiry && r.after.expiry[mk] == s.now + dt + MinuteWindow
      && hk in r.after.expiry && r.after.expiry[hk] == s.now + dt + HourWindow
      && r.decision == Expected(limits, 1, MinuteWindow)
  {
    var a := Advanced(s, dt);
    assert CountOf(a, mk) == 0 && CountOf(a, hk) == 0;
  }

  /**
   * Both of the caller's counters stand at `c`; the minute counter's window
   * opened at `w`, and neither counter expires within the next `span`
   * seconds.
   */
  predicate InWindow(st: StoreState, mk: string, hk: string, c: int, w: int, span: nat) {
    && CountOf(st, mk) == c && CountOf(st, hk) == c && c >= 1
    && mk in st.expiry && st.expiry[mk] == w + MinuteWindow
    && st.now + span < w + MinuteWindow
    && hk in st.expiry && st.now + span < st.expiry[hk]
  }

  /**
   * A call `dt` seconds on, inside the minute window opened at `w` and
   * before the hour counter expires: neither counter has expired, both go up
   * by one, neither TTL moves, and the retry hint is the rest of the minute.
   */
  lemma AdmitInsideWindow(st: StoreState, limits: Limits, mk: string, hk: string, c: int, w: int, dt: nat, span: nat)
    requires mk != hk
    requires InWindow(st, mk, hk, c, w, dt + span)
    ensures var r := AdmitAt(Advanced(st, dt), limits, mk, hk);
      && InWindow(r.after, mk, hk, c + 1, w, span)
      && r.after.now == st.now + dt
      && r.decision == Expected(limits, c + 1, w + MinuteWindow - (st.now + dt))
  {
    var a := Advanced(st, dt);
    AdvancedSurvivors(st, dt);
    assert CountOf(a, mk) == c && CountOf(a, hk) == c;
  }

  /**
   * The decisions of calls made after the pauses `gaps` from time `now`,
   * from both counters at `c`, while the minute window ends at `end`.
   */
  function ExpectedRun(limits: Limits, c: int, end: int, now: int, gaps: seq<nat>): (ds: seq<Decision>)
    ensures |ds| == |gaps|
    decreases |gaps|
  {
    if gaps == [] then []
    else [Expected(limits, c + 1, end - (now + gaps[0]))] + ExpectedRun(limits, c + 1, end, now + gaps[0], gaps[1..])
  }

  lemma ExpectedRunStep(limits: Limits, c: int, end: int, now: int, next: int, gaps: seq<nat>)
    requires gaps != [] && next == now + gaps[0]
    ensures ExpectedRun(limits, c, end, now, gaps)
      == [Expected(limits, c + 1, end - next)] + ExpectedRun(limits, c + 1, end, next, gaps[1..])
  {
  }

  /** The i-th call of such a run brings the counters to c + i + 1 and is made `Sum(gaps[..i + 1])` seconds on. */
  lemma {:induction false} ExpectedRunAt(limits: Limits, c: int, end: int, now: int, gaps: seq<nat>, i: nat)
    requires i < |gaps|
    ensures ExpectedRun(limits, c, end, now, gaps)[i] == Expected(limits, c + i + 1, end - (now + Sum(gaps[..i + 1])))
    decreases |gaps|
  {
    assert gaps[..i + 1][1..] == gaps[1..][..i];
    if i > 0 {
      ExpectedRunAt(limits, c + 1, end, now + gaps[0], gaps[1..], i - 1);
    }
  }

  /**
   * The first of a run of calls inside the window: it leaves the store
   * `next`, from which the rest of the run goes on, and decides `d`.
   */
  lemma RunStep(st: StoreState, limits: Limits, mk: string, hk: string, c: int, w: int, gaps: seq<nat>)
    returns (next: StoreState, d: Decision)
    requires mk != hk && gaps != []
    requires InWindow(st, mk, hk, c, w, Sum(gaps))
    ensures InWindow(next, mk, hk, c + 1, w, Sum(gaps[1..]))
    ensures next.now == st.now + gaps[0]
    ensures d == Expected(limits, c + 1, w + MinuteWindow - next.now)
    ensures AdmitMany(st, limits, mk, hk, gaps).decisions == [d] + AdmitMany(next, limits, mk, hk, gaps[1..]).decisions
  {
    var first := AdmitAt(Advanced(st, gaps[0]), limits, mk, hk);
    AdmitInsideWindow(st, limits, mk, hk, c, w, gaps[0], Sum(gaps[1..]));
    next, d := first.after, first.decision;
  }

  /**
   * Calls inside the minute window opened at `w`, from both counters at
   * `c`, decide as `ExpectedRun`: each is rejected exactly when the count it
   * brings is above a ceiling, with the minute left at the time it is made.
   */
  lemma {:induction false} AdmitManyInsideWindow(st: StoreState, limits: Limits, mk: string, hk: string, c: int, w: int, gaps: seq<nat>)
    requires mk != hk
    requires InWindow(st, mk, hk, c, w, Sum(gaps))
    ensures AdmitMany(st, limits, mk, hk, gaps).decisions == ExpectedRun(limits, c, w + MinuteWindow, st.now, gaps)
    decreases |gaps|
  {
    if gaps != [] {
      var next, d := RunStep(st, limits, mk, hk, c, w, gaps);
      AdmitManyInsideWindow(next, limits, mk, hk, c + 1, w, gaps[1..]);
      ExpectedRunStep(limits, c, w + MinuteWindow, st.now, next.now, gaps);
      PrependBoth(AdmitMany(st, limits, mk, hk, gaps).decisions, ExpectedRun(limits, c, w + MinuteWindow, st.now, gaps), d,
        AdmitMany(next, limits, mk, hk, gaps[1..]).decisions, ExpectedRun(limits, c + 1, w + MinuteWindow, next.now, gaps[1..]));
    } else {
      assert AdmitMany(st, limits, mk, hk, gaps).decisions == [];
      assert ExpectedRun(limits, c, w + MinuteWindow, st.now, gaps) == [];
    }
  }

  /** Two runs that start with the same decision and go on alike are equal. */
  lemma PrependBoth(run: seq<Decision>, expected: seq<Decision>, d: Decision, runRest: seq<Decision>, expectedRest: seq<Decision>)
    requires run == [d] + runRest && expected == [d] + expectedRest && runRest == expectedRest
    ensures run == expected
  {
  }

  /**
   * From absent counters, with `0 <= perMinute <= perHour`, of
   * `perMinute + 1` calls spread over less than a minute from the first,
   * the first `perMinute` are admitted and the last is rejected with a
   * retry hint of what is left of that minute (between 1 and 60 seconds).
   * `Admit` for a user and tier is `AdmitAt` at that caller's two keys,
   * which `KeyWindows` shows are distinct.
   */
  lemma {:induction false} FirstWindowAdmitsExactlyPerMinute(s: StoreState, limits: Limits, mk: string, hk: string, gaps: seq<nat>)
    requires mk != hk
    requires CountOf(s, mk) == 0 && CountOf(s, hk) == 0
    requires 0 <= limits.perMinute <= limits.perHour
    requires |gaps| == limits.perMinute + 1
    requires Sum(gaps[1..]) < MinuteWindow
    ensures var ds := AdmitMany(s, limits, mk, hk, gaps).decisions;
      && |ds| == |gaps|
      && (forall i :: 0 <= i < limits.perMinute ==> ds[i] == Allowed)
      && ds[limits.perMinute] == Limited(MinuteWindow - Sum(gaps[1..]))
      && 0 < ds[limits.perMinute].retryAfter <= MinuteWindow
  {
    var first := AdmitAt(Advanced(s, gaps[0]), limits, mk, hk);
    AdmitOpensWindows(s, limits, mk, hk, gaps[0]);
    AdmitManyInsideWindow(first.after, limits, mk, hk, 1, s.now + gaps[0], gaps[1..]);
    assert AdmitMany(s, limits, mk, hk, gaps).decisions
      == [first.decision] + ExpectedRun(limits, 1, s.now + gaps[0] + MinuteWindow, s.now + gaps[0], gaps[1..]);
    OpeningRun(limits, gaps, first.decision, s.now + gaps[0]);
  }

  /** An opening call and the calls after it inside its minute, read as the first-window outcome. */
  lemma OpeningRun(limits: Limits, gaps: seq<nat>, d: Decision, w: int)
    requires 0 <= limits.perMinute <= limits.perHour
    requires |gaps| == limits.perMinute + 1
    requires d == Expected(limits, 1, MinuteWindow)
    ensures var ds := [d] + ExpectedRun(limits, 1, w + MinuteWindow, w, gaps[1..]);
      && (forall i :: 0 <= i < limits.perMinute ==> ds[i] == Allowed)
      && ds[limits.perMinute] == Limited(MinuteWindow - Sum(gaps[1..]))
  {
    var rest := ExpectedRun(limits, 1, w + MinuteWindow, w, gaps[1..]);
    var ds := [d] + rest;
    forall i | 0 < i < |gaps|
      ensures ds[i] == Expected(limits, i + 1, w + MinuteWindow - (w + Sum(gaps[1..][..i])))
    {
      ExpectedRunAt(limits, 1, w + MinuteWindow, w, gaps[1..], i - 1);
    }
    assert gaps[1..][..limits.perMinute] == gaps[1..];
  }



  /**
   * Fixed window: once 60 seconds have passed, the minute counter is gone,
   * so the next call counts 1 in a fresh minute window, and a caller blocked
   * only by the minute ceiling is admitted again.
   */
  lemma {:induction false} MinuteWindowResets(s: StoreState, limits: Limits, userId: string, tier: string, dt: nat)
    requires WindowsFixed(s)
    requires dt >= MinuteWindow
    ensures MinuteKey(userId, tier) !in Advanced(s, dt).counts
    ensures var r := Admit(Advanced(s, dt), limits, userId, tier);
      && CountOf(r.after, MinuteKey(userId, tier)) == 1
      && (limits.perMinute >= 1 && CountOf(s, HourKey(userId, tier)) < limits.perHour ==> r.decision == Allowed)
  {
    KeyWindows(userId, tier);
    var mk, hk := MinuteKey(userId, tier), HourKey(userId, tier);
    if hk in Advanced(s, dt).counts {
      assert CountOf(Advanced(s, dt), hk) == CountOf(s, hk);
    }
  }

  /** An unknown tier label is limited exactly like `free`. */
  lemma UnknownTierUsesFree(s: StoreState, table: TierTable, userId: string, tier: string)
    requires !IsKnownTier(tier)
    ensures Check(s, table, userId, tier) == Admit(s, table.free, userId, tier)
  {
  }

  /**
   * Counters are per key string: calls for one (user, tier) pair never move
   * another pair's counters, unless the two pairs spell the same keys.
   */
  lemma CallsAreIsolated(s: StoreState, limits: Limits, userId: string, tier: string, otherUser: string, otherTier: string)
    requires MinuteKey(otherUser, otherTier) != MinuteKey(userId, tier)
    ensures var t := Admit(s, limits, userId, tier).after;
      && CountOf(t, MinuteKey(otherUser, otherTier)) == CountOf(s, MinuteKey(otherUser, otherTier))
      && CountOf(t, HourKey(otherUser, otherTier)) == CountOf(s, HourKey(otherUser, otherTier))
  {
    KeyWindows(userId, tier);
    KeyWindows(otherUser, otherTier);
    var p := "rate_limit:" + userId + ":" + tier;
    var q := "rate_limit:" + otherUser + ":" + otherTier;
    assert MinuteKey(userId, tier) == p + ":minute" && HourKey(userId, tier) == p + ":hour";
    assert MinuteKey(otherUser, otherTier) == q + ":minute" && HourKey(otherUser, otherTier) == q + ":hour";
    SuffixCancels(p, q, ":hour");
  }

  lemma SuffixCancels(p: string, q: string, suffix: string)
    ensures p + suffix == q + suffix ==> p == q
  {
    if p + suffix == q + suffix {
      assert |p| == |q|;
      assert p == (p + suffix)[..|p|];
      assert q == (q + suffix)[..|q|];
    }
  }

  /** The key format is not injective: a `:` inside a user id can make two pairs share counters. */
  lemma SharedKeysWhenIdsHoldColons()
    ensures MinuteKey("a:b", "free") == MinuteKey("a", "b:free")
    ensures HourKey("a:b", "free") == HourKey("a", "b:free")
  {
  }
}
