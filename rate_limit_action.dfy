/**
 * `RateLimitAction`: per-configuration buckets that count hits, in total and per
 * client, over a window of `limitMinutes`, and refuse a request with 429 once a
 * count passes its limit. The clock is the parameter `now` (milliseconds).
 */
module RateLimit {
  import opened Wrappers
  import opened Strings

  /** A bucket's limits: the window in milliseconds, per-client hits and total hits (negative: no limit). */
  datatype Limits = Limits(limitMillis: int, limitUserHits: int, limitTotalHits: int)

  /** A bucket's counters: when the window started, the hits of each client, and the total. */
  datatype BucketState = BucketState(resetAt: int, userHits: map<string, int>, totalHits: int)

  function LimitsOf(limitMinutes: int, limitUserHits: int, limitTotalHits: int): Limits
  {
    Limits(limitMinutes * 60000, limitUserHits, limitTotalHits)
  }

  /** `expired`: the window started more than `limitMillis` before `now`. */
  predicate IsExpired(l: Limits, s: BucketState, now: int)
  {
    s.resetAt < now - l.limitMillis
  }

  /** The counters right after `reset` at `now`. */
  function Fresh(now: int): BucketState
  {
    BucketState(now, map[], 0)
  }

  function Count(hits: map<string, int>, client: string): int
  {
    if client in hits then hits[client] else 0
  }

  /**
   * `hit` as the bucket is meant to count: reset an expired window, count the hit in
   * the total (when there is a total limit) and for the client (when there is a
   * per-client limit), and refuse it once either count passes its limit. The total
   * is counted even for a refused hit, and a hit refused on the total is not counted
   * for the client.
   */
  function HitStep(l: Limits, s: BucketState, client: string, now: int): (r: (bool, BucketState))
    ensures r.1.resetAt == (if IsExpired(l, s, now) then now else s.resetAt)
  {
    var s1 := if IsExpired(l, s, now) then Fresh(now) else s;
    var s2 := if l.limitTotalHits >= 0 then s1.(totalHits := s1.totalHits + 1) else s1;
    if l.limitTotalHits >= 0 && s2.totalHits > l.limitTotalHits then (false, s2)
    else if l.limitUserHits > 0 then
      var n := Count(s2.userHits, client) + 1;
      (n <= l.limitUserHits, s2.(userHits := s2.userHits[client := n]))
    else (true, s2)
  }

  /** `hit` as written: the total moves by `+= -1`, so it never rises above zero. */
  function HitStepAsWritten(l: Limits, s: BucketState, client: string, now: int): (r: (bool, BucketState))
    ensures r.1.resetAt == (if IsExpired(l, s, now) then now else s.resetAt)
  {
    var s1 := if IsExpired(l, s, now) then Fresh(now) else s;
    var s2 := if l.limitTotalHits >= 0 then s1.(totalHits := s1.totalHits + -1) else s1;
    if l.limitTotalHits >= 0 && s2.totalHits > l.limitTotalHits then (false, s2)
    else if l.limitUserHits > 0 then
      var n := Count(s2.userHits, client) + 1;
      (n <= l.limitUserHits, s2.(userHits := s2.userHits[client := n]))
    else (true, s2)
  }

  // ---------------------------------------------------------------------------
  // Properties of a hit
  // ---------------------------------------------------------------------------

  /** An expired window is reset first: the hit behaves as on a fresh bucket. */
  lemma ExpiredHitResets(l: Limits, s: BucketState, client: string, now: int)
    requires IsExpired(l, s, now)
    ensures HitStep(l, s, client, now) == HitStep(l, Fresh(now), client, now)
  {
  }

  /** Within a window, once the total has reached its limit, every further hit is refused. */
  lemma TotalLimitEnforced(l: Limits, s: BucketState, client: string, now: int)
    requires !IsExpired(l, s, now) && 0 <= l.limitTotalHits <= s.totalHits
    ensures !HitStep(l, s, client, now).0
    ensures HitStep(l, s, client, now).1.totalHits == s.totalHits + 1
  {
  }

  /** Within a window, once a client has used its hits, its further hits are refused. */
  lemma UserLimitEnforced(l: Limits, s: BucketState, client: string, now: int)
    requires !IsExpired(l, s, now) && 0 < l.limitUserHits <= Count(s.userHits, client)
    ensures !HitStep(l, s, client, now).0
  {
  }

  /** Other clients' counts are untouched by a hit in the same window. */
  lemma OtherClientsUntouched(l: Limits, s: BucketState, client: string, other: string, now: int)
    requires !IsExpired(l, s, now) && other != client
    ensures Count(HitStep(l, s, client, now).1.userHits, other) == Count(s.userHits, other)
  {
  }

  /** A run of hits at one instant: how many were let through, and the counters afterwards. */
  function Hits(l: Limits, s: BucketState, clients: seq<string>, now: int): (r: (nat, BucketState))
    decreases |clients|
  {
    if clients == [] then (0, s)
    else
      var step := HitStep(l, s, clients[0], now);
      var rest := Hits(l, step.1, clients[1..], now);
      ((if step.0 then 1 else 0) + rest.0, rest.1)
  }

  /**
   * Within one window, no more hits are let through than the total limit leaves:
   * counted from a fresh bucket, at most `limitTotalHits` of any run of hits pass.
   */
  lemma {:induction false} TotalLimitBoundsRun(l: Limits, s: BucketState, clients: seq<string>, now: int)
    requires !IsExpired(l, s, now) && l.limitTotalHits >= 0 && s.totalHits >= 0
    ensures Hits(l, s, clients, now).0 <= if s.totalHits >= l.limitTotalHits then 0 else l.limitTotalHits - s.totalHits
    decreases |clients|
  {
    if clients != [] {
      var step := HitStep(l, s, clients[0], now);
      assert step.1.resetAt == s.resetAt && step.1.totalHits == s.totalHits + 1;
      TotalLimitBoundsRun(l, step.1, clients[1..], now);
    }
  }

  /** `hit` as written never refuses on the total: the counter only goes down. */
  lemma TotalNeverRefusesAsWritten(l: Limits, s: BucketState, client: string, now: int)
    requires s.totalHits <= 0 && l.limitTotalHits >= 0 && l.limitUserHits <= 0
    ensures HitStepAsWritten(l, s, client, now).0
    ensures HitStepAsWritten(l, s, client, now).1.totalHits <= 0
  {
  }

  /** Without a total limit the two steps agree: the sign slip only touches the total. */
  lemma HitStepsAgreeWithoutTotalLimit(l: Limits, s: BucketState, client: string, now: int)
    requires l.limitTotalHits < 0
    ensures HitStepAsWritten(l, s, client, now) == HitStep(l, s, client, now)
  {
  }

  /** As written too, a client that has used its hits is refused within the window. */
  lemma UserLimitEnforcedAsWritten(l: Limits, s: BucketState, client: string, now: int)
    requires !IsExpired(l, s, now) && 0 < l.limitUserHits <= Count(s.userHits, client)
    ensures !HitStepAsWritten(l, s, client, now).0
  {
  }

  /** With a total limit of 0 every hit should be refused; as written the first one goes through. */
  lemma TotalLimitZeroCounterexample(now: int)
    ensures HitStepAsWritten(Limits(60000, -1, 0), Fresh(now), "client", now).0
    ensures !HitStep(Limits(60000, -1, 0), Fresh(now), "client", now).0
  {
  }

  // ---------------------------------------------------------------------------
  // Bucket keys
  // ---------------------------------------------------------------------------

  /**
   * The bucket key as written: `new StringBuffer(limitMinutes)` only sets the
   * buffer's capacity (and throws for a negative one), so the minutes are not in the key.
   */
  function BucketKeyAsWritten(limitMinutes: int, limitUserHits: int, limitTotalHits: int): (r: Result<string>)
    ensures r.Ok? <==> limitMinutes >= 0
  {
    if limitMinutes < 0 then Err(Error(500, "NegativeArraySizeException"))
    else Ok(HitsKey(limitUserHits, limitTotalHits))
  }

  /** The key `run` builds for a window that is not negative. */
  function HitsKey(limitUserHits: int, limitTotalHits: int): string
  {
    "-" + IntToString(limitUserHits) + "-" + IntToString(limitTotalHits)
  }

  /** Two configurations that differ only in their window share a bucket as written. */
  lemma BucketKeyCollisionAsWritten()
    ensures BucketKeyAsWritten(1, 5, 100) == BucketKeyAsWritten(5, 5, 100)
  {
  }

  /** As written, the key still names the per-client and total limits: configurations that share a bucket agree on both. */
  lemma BucketKeyAsWrittenNamesHits(m1: int, u1: int, t1: int, m2: int, u2: int, t2: int)
    requires BucketKeyAsWritten(m1, u1, t1).Ok? && BucketKeyAsWritten(m2, u2, t2).Ok?
    requires BucketKeyAsWritten(m1, u1, t1) == BucketKeyAsWritten(m2, u2, t2)
    ensures u1 == u2 && t1 == t2
  {
    var b1, c1 := IntToString(u1), IntToString(t1);
    var b2, c2 := IntToString(u2), IntToString(t2);
    var k1, k2 := BucketKeyAsWritten(m1, u1, t1).value, BucketKeyAsWritten(m2, u2, t2).value;
    assert k1 == ['-'] + (b1 + ['-'] + c1);
    assert k2 == ['-'] + (b2 + ['-'] + c2);
    assert k1[1..] == b1 + ['-'] + c1;
    assert k2[1..] == b2 + ['-'] + c2;
    SplitAtSeparator(b1, c1, b2, c2, '-');
    IntToStringInjective(u1, u2);
    IntToStringInjective(t1, t2);
  }

  /** The bucket key meant: the three limits, separated by `-`. */
  function BucketKey(limitMinutes: int, limitUserHits: int, limitTotalHits: int): string
  {
    IntToString(limitMinutes) + "-" + IntToString(limitUserHits) + "-" + IntToString(limitTotalHits)
  }

  /** The key names its configuration: different limits never share a bucket. */
  lemma BucketKeyInjective(m1: int, u1: int, t1: int, m2: int, u2: int, t2: int)
    requires BucketKey(m1, u1, t1) == BucketKey(m2, u2, t2)
    ensures m1 == m2 && u1 == u2 && t1 == t2
  {
    var a1, b1, c1 := IntToString(m1), IntToString(u1), IntToString(t1);
    var a2, b2, c2 := IntToString(m2), IntToString(u2), IntToString(t2);
    BucketKeyParts(m1, u1, t1);
    BucketKeyParts(m2, u2, t2);
    SplitAtSeparator(a1, b1 + ['-'] + c1, a2, b2 + ['-'] + c2, '-');
    SplitAtSeparator(b1, c1, b2, c2, '-');
    IntToStringInjective(m1, m2);
    IntToStringInjective(u1, u2);
    IntToStringInjective(t1, t2);
  }

  lemma BucketKeyParts(m: int, u: int, t: int)
    ensures BucketKey(m, u, t) == IntToString(m) + ['-'] + (IntToString(u) + ['-'] + IntToString(t))
  {
    var a, b, c := IntToString(m), IntToString(u), IntToString(t);
    assert "-" == ['-'];
    assert a + "-" + b + "-" + c == a + ['-'] + (b + ['-'] + c);
  }

  // ---------------------------------------------------------------------------
  // The objects
  // ---------------------------------------------------------------------------

  /** A bucket: its limits, fixed at creation, and its counters, which `hit` updates in place. */
  class Bucket {
    const limits: Limits
    var resetAt: int
    var userHits: map<string, int>
    var totalHits: int

    function State(): BucketState
      reads this
    {
      BucketState(resetAt, userHits, totalHits)
    }

    constructor(limitMinutes: int, limitUserHits: int, limitTotalHits: int)
      ensures limits == LimitsOf(limitMinutes, limitUserHits, limitTotalHits)
      ensures State() == BucketState(0, map[], 0)
    {
      limits := LimitsOf(limitMinutes, limitUserHits, limitTotalHits);
      resetAt := 0;
      userHits := map[];
      totalHits := 0;
    }

    /** `reset`: a new window starting at `now`, with no hits counted. */
    method Reset(now: int)
      modifies this
      ensures State() == Fresh(now)
    {
      resetAt := now;
      totalHits := 0;
      userHits := map[];
    }

    /** `hit` as written, with the total moved by `+= -1` (`HitStep` is the step meant). */
    method Hit(client: string, now: int) returns (ok: bool)
      modifies this
      ensures (ok, State()) == HitStepAsWritten(limits, old(State()), client, now)
    {
      if resetAt < now - limits.limitMillis {
        Reset(now);
      }
      if limits.limitTotalHits >= 0 {
        totalHits := totalHits + -1;
        if totalHits > limits.limitTotalHits {
          return false;
        }
      }
      if limits.limitUserHits > 0 {
        var num := if client in userHits then userHits[client] else 0;
        num := num + 1;
        userHits := userHits[client := num];
        if num > limits.limitUserHits {
          return false;
        }
      }
      return true;
    }
  }

  /** The action: default limits, and one bucket per configuration seen. */
  class RateLimitAction {
    var limitMinutes: int
    var limitUserHits: int
    var limitTotalHits: int
    var buckets: map<string, Bucket>

    /** Every bucket carries the per-client and total limits its key names; the window is not in the key. */
    ghost predicate Valid()
      reads this, set k | k in buckets :: buckets[k]
    {
      forall u, t :: HitsKey(u, t) in buckets ==>
        buckets[HitsKey(u, t)].limits.limitUserHits == u && buckets[HitsKey(u, t)].limits.limitTotalHits == t
    }

    constructor()
      ensures Valid()
      ensures limitMinutes == 1 && limitUserHits == -1 && limitTotalHits == -1 && buckets == map[]
    {
      limitMinutes := 1;
      limitUserHits := -1;
      limitTotalHits := -1;
      buckets := map[];
    }

    /**
     * `run`: the chain's configuration overrides the defaults; the request is counted
     * in the bucket its key names, created on first use, and refused with 429 when the
     * bucket says so. The key is built as written: a negative window fails, and
     * configurations that differ only in their window share the first one's bucket.
     */
    method Run(minutesConfig: Option<int>, userHitsConfig: Option<int>, totalHitsConfig: Option<int>,
               client: string, now: int) returns (r: Result<()>)
      requires Valid()
      modifies this, set k | k in buckets :: buckets[k]
      ensures Valid()
      ensures var m := if minutesConfig.Some? then minutesConfig.value else old(limitMinutes);
              m < 0 ==> r == Err(Error(500, "NegativeArraySizeException")) && buckets == old(buckets) &&
                        forall k :: k in buckets ==> buckets[k].State() == old(buckets[k].State())
      ensures var m := if minutesConfig.Some? then minutesConfig.value else old(limitMinutes);
              var u := if userHitsConfig.Some? then userHitsConfig.value else old(limitUserHits);
              var t := if totalHitsConfig.Some? then totalHitsConfig.value else old(limitTotalHits);
              var key := HitsKey(u, t);
              m >= 0 ==>
                key in buckets &&
                (key in old(buckets) ==> buckets == old(buckets)) &&
                (key !in old(buckets) ==> fresh(buckets[key]) && buckets == old(buckets)[key := buckets[key]] &&
                                          buckets[key].limits == LimitsOf(m, u, t)) &&
                var before := if key in old(buckets) then old(buckets[key].State()) else BucketState(0, map[], 0);
                (r.Ok?, buckets[key].State()) == HitStepAsWritten(buckets[key].limits, before, client, now) &&
                (r.Err? ==> r.error == Error(429, "slow down your request rate")) &&
                forall k :: k in old(buckets) && old(buckets)[k] != buckets[key] ==>
                  buckets[k].State() == old(buckets[k].State())
      ensures limitMinutes == old(limitMinutes) && limitUserHits == old(limitUserHits) && limitTotalHits == old(limitTotalHits)
    {
      var m := if minutesConfig.Some? then minutesConfig.value else limitMinutes;
      var u := if userHitsConfig.Some? then userHitsConfig.value else limitUserHits;
      var t := if totalHitsConfig.Some? then totalHitsConfig.value else limitTotalHits;
      var built := BucketKeyAsWritten(m, u, t);
      if built.Err? {
        return Err(built.error);
      }
      var key := built.value;
      assert key == HitsKey(u, t);
      var bucket: Bucket;
      if key in buckets {
        bucket := buckets[key];
      } else {
        bucket := new Bucket(m, u, t);
        forall u', t' | HitsKey(u', t') == key
          ensures u' == u && t' == t
        {
          BucketKeyAsWrittenNamesHits(0, u', t', m, u, t);
        }
        buckets := buckets[key := bucket];
      }
      var ok := bucket.Hit(client, now);
      r := if ok then Ok(()) else Err(Error(429, "slow down your request rate"));
    }
  }
}
