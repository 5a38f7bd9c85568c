/** The per-key token bucket in front of the gateway. Times are seconds, tokens are reals;
    rounding of floating point is not modelled. */
module RateLimiter {
  datatype Option<T> = None | Some(value: T)

  datatype Bucket = Bucket(tokens: real, at: real)

  type Buckets = map<string, Bucket>

  /** Requests a minute, and how many may come at once. */
  datatype Limit = Limit(rate: real, burst: real)

  const PER_KEY := Limit(60.0, 15.0)
  const PER_SOURCE := Limit(120.0, 30.0)

  predicate Sound(l: Limit)
  {
    l.rate > 0.0 && l.burst >= 0.0
  }

  function Min(a: real, b: real): real
  {
    if a <= b then a else b
  }

  function Ceiling(x: real): int
  {
    -((-x).Floor)
  }

  /** What accrues in `elapsed` seconds. */
  function Earned(l: Limit, elapsed: real): real
  {
    elapsed * l.rate / 60.0
  }

  function Refill(l: Limit, b: Bucket, now: real): Bucket
  {
    Bucket(Min(l.burst, b.tokens + Earned(l, now - b.at)), now)
  }

  /** A key's bucket as a call at `now` would find it. */
  function Found(l: Limit, buckets: Buckets, key: string, now: real): Bucket
  {
    Refill(l, if key in buckets then buckets[key] else Bucket(l.burst, now), now)
  }

  /** Whole seconds until the bucket will hold a token. */
  function Wait(l: Limit, tokens: real): int
    requires l.rate > 0.0
  {
    var wait := Ceiling((1.0 - tokens) / (l.rate / 60.0));
    if wait < 1 then 1 else wait
  }

  lemma EarnedAdds(l: Limit, a: real, b: real)
    ensures Earned(l, a + b) == Earned(l, a) + Earned(l, b)
  {
    assert (a + b) * l.rate == a * l.rate + b * l.rate;
  }

  lemma EarnedIsMonotone(l: Limit, a: real, b: real)
    requires Sound(l) && a <= b
    ensures Earned(l, a) <= Earned(l, b)
  {
    assert a * l.rate <= b * l.rate;
  }

  /** Refilling at a time between changes nothing. */
  lemma RefillSplits(l: Limit, b: Bucket, between: real, now: real)
    requires Sound(l) && b.at <= between <= now
    ensures Refill(l, Refill(l, b, between), now) == Refill(l, b, now)
  {
    EarnedAdds(l, between - b.at, now - between);
    EarnedIsMonotone(l, 0.0, now - between);
    assert (between - b.at) + (now - between) == now - b.at;
  }

  /** A request for a key at a time. */
  datatype Call = Call(key: string, at: real)

  predicate Admits(l: Limit, buckets: Buckets, c: Call)
  {
    Found(l, buckets, c.key, c.at).tokens >= 1.0
  }

  function After(l: Limit, buckets: Buckets, c: Call): Buckets
  {
    var found := Found(l, buckets, c.key, c.at);
    buckets[c.key := if found.tokens < 1.0 then found else found.(tokens := found.tokens - 1.0)]
  }

  function AfterAll(l: Limit, buckets: Buckets, calls: seq<Call>): Buckets
  {
    if calls == [] then buckets else
      var earlier := AfterAll(l, buckets, calls[..|calls| - 1]);
      After(l, earlier, calls[|calls| - 1])
  }

  /** How many of the calls are for `key` and admitted. */
  function Admitted(l: Limit, buckets: Buckets, calls: seq<Call>, key: string): nat
  {
    if calls == [] then 0 else
      var last := calls[|calls| - 1];
      var earlier := calls[..|calls| - 1];
      Admitted(l, buckets, earlier, key) + if last.key == key && Admits(l, AfterAll(l, buckets, earlier), last) then 1 else 0
  }

  /** The clock does not run backwards, from `start` on. */
  predicate InOrder(start: real, calls: seq<Call>)
  {
    && (forall i :: 0 <= i < |calls| ==> start <= calls[i].at)
    && (forall i, j :: 0 <= i < j < |calls| ==> calls[i].at <= calls[j].at)
  }

  function Last(start: real, calls: seq<Call>): real
  {
    if calls == [] then start else calls[|calls| - 1].at
  }

  /** No bucket is over its limit, in debt, or from the future. */
  ghost predicate Valid(l: Limit, buckets: Buckets, now: real)
  {
    forall k :: k in buckets ==> 0.0 <= buckets[k].tokens <= l.burst && buckets[k].at <= now
  }

  lemma CallKeepsValid(l: Limit, buckets: Buckets, now: real, c: Call)
    requires Sound(l) && Valid(l, buckets, now) && now <= c.at
    ensures Valid(l, After(l, buckets, c), c.at) && 0.0 <= Found(l, buckets, c.key, c.at).tokens
  {
    if c.key in buckets { EarnedIsMonotone(l, 0.0, c.at - buckets[c.key].at); }
  }

  lemma {:induction false} CallsKeepValid(l: Limit, buckets: Buckets, start: real, calls: seq<Call>)
    requires Sound(l) && Valid(l, buckets, start) && InOrder(start, calls)
    ensures Valid(l, AfterAll(l, buckets, calls), Last(start, calls))
  {
    if calls != [] {
      var earlier := calls[..|calls| - 1];
      CallsKeepValid(l, buckets, start, earlier);
      CallKeepsValid(l, AfterAll(l, buckets, earlier), Last(start, earlier), calls[|calls| - 1]);
    }
  }

  /** A call costs a key at most what it earned meanwhile. */
  lemma CallPays(l: Limit, buckets: Buckets, now: real, c: Call, key: string)
    requires Sound(l) && Valid(l, buckets, now) && now <= c.at
    ensures Found(l, After(l, buckets, c), key, c.at).tokens
         <= Found(l, buckets, key, now).tokens + Earned(l, c.at - now) - (if c.key == key && Admits(l, buckets, c) then 1.0 else 0.0)
  {
    EarnedIsMonotone(l, 0.0, c.at - now);
    assert Earned(l, 0.0) == 0.0;
    if key in buckets {
      var b := buckets[key];
      RefillSplits(l, b, now, c.at);
    }
  }

  /** In every window of every history, a key is admitted at most as often as its bucket
      held tokens at the start of the window and earned in it. */
  lemma {:induction false} WindowHolds(l: Limit, buckets: Buckets, start: real, calls: seq<Call>, key: string)
    requires Sound(l) && Valid(l, buckets, start) && InOrder(start, calls)
    ensures Admitted(l, buckets, calls, key) as real + Found(l, AfterAll(l, buckets, calls), key, Last(start, calls)).tokens
         <= Found(l, buckets, key, start).tokens + Earned(l, Last(start, calls) - start)
  {
    if calls == [] {
      assert Earned(l, 0.0) == 0.0;
    } else {
      var earlier, last := calls[..|calls| - 1], calls[|calls| - 1];
      WindowHolds(l, buckets, start, earlier, key);
      CallsKeepValid(l, buckets, start, earlier);
      CallPays(l, AfterAll(l, buckets, earlier), Last(start, earlier), last, key);
      EarnedAdds(l, Last(start, earlier) - start, last.at - Last(start, earlier));
      assert (Last(start, earlier) - start) + (last.at - Last(start, earlier)) == last.at - start;
    }
  }

  lemma {:induction false} AfterAllSplits(l: Limit, buckets: Buckets, first: seq<Call>, second: seq<Call>)
    ensures AfterAll(l, buckets, first + second) == AfterAll(l, AfterAll(l, buckets, first), second)
  {
    if second == [] {
      assert first + second == first;
    } else {
      assert (first + second)[..|first + second| - 1] == first + second[..|second| - 1];
      AfterAllSplits(l, buckets, first, second[..|second| - 1]);
    }
  }

  lemma InOrderSplits(start: real, first: seq<Call>, second: seq<Call>)
    requires InOrder(start, first + second) && second != []
    ensures InOrder(start, first) && InOrder(second[0].at, second) && start <= Last(start, first) <= second[0].at
  {
    var all := first + second;
    assert forall i :: 0 <= i < |first| ==> all[i] == first[i];
    assert forall i :: 0 <= i < |second| ==> all[|first| + i] == second[i];
    forall j | 0 <= j < |second| ensures second[0].at <= second[j].at {
      assert j > 0 ==> all[|first|].at <= all[|first| + j].at;
    }
    assert first != [] ==> all[|first| - 1].at <= all[|first|].at;
  }

  lemma FoundIsWithinBurst(l: Limit, buckets: Buckets, now: real, key: string)
    requires Sound(l) && Valid(l, buckets, now)
    ensures 0.0 <= Found(l, buckets, key, now).tokens <= l.burst
  {
    if key in buckets { EarnedIsMonotone(l, 0.0, now - buckets[key].at); }
  }

  /** The promise of the limit, for a limiter in use since it was made: between any two
      moments at most the burst and what the rate allows for the time. */
  lemma WindowBound(l: Limit, start: real, history: seq<Call>, window: seq<Call>, key: string)
    requires Sound(l) && window != [] && InOrder(start, history + window)
    ensures Admitted(l, AfterAll(l, map[], history), window, key) as real
         <= l.burst + Earned(l, window[|window| - 1].at - window[0].at)
  {
    InOrderSplits(start, history, window);
    CallsKeepValid(l, map[], start, history);
    var buckets := AfterAll(l, map[], history);
    var begin := window[0].at;
    assert Valid(l, buckets, begin);
    WindowHolds(l, buckets, begin, window, key);
    CallsKeepValid(l, buckets, begin, window);
    FoundIsWithinBurst(l, AfterAll(l, buckets, window), Last(begin, window), key);
    FoundIsWithinBurst(l, buckets, begin, key);
  }

  /** The bound is met: a new key gets its whole burst at once, and no more. */
  lemma {:induction false} BurstAtOnce(l: Limit, key: string, now: real, calls: seq<Call>)
    requires Sound(l) && forall i :: 0 <= i < |calls| ==> calls[i] == Call(key, now)
    ensures Found(l, AfterAll(l, map[], calls), key, now).tokens == l.burst - Admitted(l, map[], calls, key) as real
    ensures Admitted(l, map[], calls, key) == if |calls| <= l.burst.Floor then |calls| else l.burst.Floor
  {
    assert Earned(l, 0.0) == 0.0;
    if calls != [] {
      BurstAtOnce(l, key, now, calls[..|calls| - 1]);
    }
  }

  lemma CeilingBounds(x: real)
    ensures x <= Ceiling(x) as real < x + 1.0
  {
  }

  lemma Scales(a: real, b: real, factor: real)
    requires a < b && factor > 0.0
    ensures a * factor < b * factor
  {
  }

  lemma EarnedIsSpeed(l: Limit, elapsed: real)
    ensures Earned(l, elapsed) == elapsed * (l.rate / 60.0)
  {
    assert elapsed * l.rate / 60.0 == elapsed * (l.rate / 60.0);
  }

  /** After the named wait a token has been earned, and a second earlier it had not. */
  lemma WaitEarns(l: Limit, tokens: real)
    requires Sound(l) && tokens < 1.0
    ensures tokens + Earned(l, Wait(l, tokens) as real) >= 1.0
    ensures Wait(l, tokens) > 1 ==> tokens + Earned(l, (Wait(l, tokens) - 1) as real) < 1.0
  {
    var speed := l.rate / 60.0;
    var missing := 1.0 - tokens;
    var exact := missing / speed;
    assert exact * speed == missing;
    CeilingBounds(exact);
    var wait := Wait(l, tokens) as real;
    assert wait >= exact;
    assert wait * speed >= exact * speed;
    EarnedIsSpeed(l, wait);
    if Wait(l, tokens) > 1 {
      assert wait == Ceiling(exact) as real && wait - 1.0 < exact;
      assert (Wait(l, tokens) - 1) as real == wait - 1.0;
      Scales(wait - 1.0, exact, speed);
      EarnedIsSpeed(l, wait - 1.0);
      assert Earned(l, wait - 1.0) < missing;
      assert Earned(l, (Wait(l, tokens) - 1) as real) < missing;
    }
  }

  /** Calls that admit nothing for a key leave its bucket as time alone would. */
  lemma {:induction false} DenialsCostNothing(l: Limit, buckets: Buckets, start: real, calls: seq<Call>, key: string, now: real)
    requires Sound(l) && Valid(l, buckets, start) && InOrder(start, calls) && Last(start, calls) <= now
    requires key in buckets && Admitted(l, buckets, calls, key) == 0
    ensures key in AfterAll(l, buckets, calls)
    ensures Found(l, AfterAll(l, buckets, calls), key, now) == Found(l, buckets, key, now)
  {
    if calls != [] {
      var earlier, last := calls[..|calls| - 1], calls[|calls| - 1];
      DenialsCostNothing(l, buckets, start, earlier, key, now);
      CallsKeepValid(l, buckets, start, earlier);
      var before := AfterAll(l, buckets, earlier);
      if last.key == key {
        RefillSplits(l, before[key], last.at, now);
      }
    }
  }

  /** A denied caller that comes back after the wait it was told is let in, if none was for
      the same key meanwhile; this is so exactly for limits whose burst holds a request. */
  lemma WaitIsEnough(l: Limit, buckets: Buckets, denied: Call, between: seq<Call>, again: Call)
    requires Sound(l) && Valid(l, buckets, denied.at) && !Admits(l, buckets, denied)
    requires InOrder(denied.at, between) && Last(denied.at, between) <= again.at && again.key == denied.key
    requires var after := After(l, buckets, denied); Admitted(l, after, between, denied.key) == 0
    ensures again.at >= denied.at + Wait(l, Found(l, buckets, denied.key, denied.at).tokens) as real ==>
              (Admits(l, AfterAll(l, After(l, buckets, denied), between), again) <==> l.burst >= 1.0)
  {
    var after := After(l, buckets, denied);
    var tokens := after[denied.key].tokens;
    CallKeepsValid(l, buckets, denied.at, denied);
    DenialsCostNothing(l, after, denied.at, between, denied.key, again.at);
    WaitEarns(l, tokens);
    if again.at >= denied.at + Wait(l, tokens) as real {
      EarnedIsMonotone(l, Wait(l, tokens) as real, again.at - denied.at);
    }
  }

  /** With half a request of burst, say, a key is denied now and after every wait. */
  lemma SmallBurstNeverAdmits(l: Limit, buckets: Buckets, c: Call)
    requires l.burst < 1.0
    ensures !Admits(l, buckets, c)
  {
  }

  /** And it is told no more than a second too much. */
  lemma WaitIsNeeded(l: Limit, buckets: Buckets, denied: Call, between: seq<Call>, again: Call)
    requires Sound(l) && Valid(l, buckets, denied.at) && !Admits(l, buckets, denied)
    requires InOrder(denied.at, between) && Last(denied.at, between) <= again.at && again.key == denied.key
    requires var after := After(l, buckets, denied); Admitted(l, after, between, denied.key) == 0
    ensures var wait := Wait(l, Found(l, buckets, denied.key, denied.at).tokens);
            wait > 1 && again.at <= denied.at + wait as real - 1.0 ==> !Admits(l, AfterAll(l, After(l, buckets, denied), between), again)
  {
    var after := After(l, buckets, denied);
    var tokens := after[denied.key].tokens;
    CallKeepsValid(l, buckets, denied.at, denied);
    DenialsCostNothing(l, after, denied.at, between, denied.key, again.at);
    WaitEarns(l, tokens);
    var wait := Wait(l, tokens);
    if wait > 1 && again.at <= denied.at + wait as real - 1.0 {
      EarnedIsMonotone(l, again.at - denied.at, (wait - 1) as real);
    }
  }

  /** Keys do not share their buckets. */
  lemma {:induction false} KeysAreApart(l: Limit, buckets: Buckets, calls: seq<Call>, key: string)
    requires forall i :: 0 <= i < |calls| ==> calls[i].key != key
    ensures key in AfterAll(l, buckets, calls) <==> key in buckets
    ensures key in buckets ==> AfterAll(l, buckets, calls)[key] == buckets[key]
  {
    if calls != [] { KeysAreApart(l, buckets, calls[..|calls| - 1], key); }
  }

  /** The two limits in use: at most 60 and 120 requests a minute on top of 15 and 30, and a
      wait that is always enough. */
  lemma LimitsInUse(start: real, history: seq<Call>, window: seq<Call>, key: string)
    requires window != [] && InOrder(start, history + window) && window[|window| - 1].at - window[0].at <= 60.0
    ensures Sound(PER_KEY) && PER_KEY.burst >= 1.0 && Sound(PER_SOURCE) && PER_SOURCE.burst >= 1.0
    ensures Admitted(PER_KEY, AfterAll(PER_KEY, map[], history), window, key) <= 75
    ensures Admitted(PER_SOURCE, AfterAll(PER_SOURCE, map[], history), window, key) <= 150
  {
    var elapsed := window[|window| - 1].at - window[0].at;
    WindowBound(PER_KEY, start, history, window, key);
    EarnedIsMonotone(PER_KEY, elapsed, 60.0);
    WindowBound(PER_SOURCE, start, history, window, key);
    EarnedIsMonotone(PER_SOURCE, elapsed, 60.0);
  }

  /** A call that comes a token's time after the last one for its key is let in, exactly if
      the burst holds a request. */
  lemma SpacedIsAdmitted(l: Limit, buckets: Buckets, c: Call)
    requires Sound(l) && Valid(l, buckets, c.at)
    requires c.key in buckets ==> buckets[c.key].at + 60.0 / l.rate <= c.at
    ensures Admits(l, buckets, c) <==> l.burst >= 1.0
  {
    if c.key in buckets {
      EarnedIsMonotone(l, 60.0 / l.rate, c.at - buckets[c.key].at);
      assert (60.0 / l.rate) * l.rate == 60.0;
    }
  }

  /** In numbers, of the two limits in use: just 15 and 30 requests at once, then one as soon
      as a second, or half of one, has passed, and not before. */
  lemma RatesInUse(key: string, now: real, calls: seq<Call>, buckets: Buckets, c: Call)
    requires forall i :: 0 <= i < |calls| ==> calls[i] == Call(key, now)
    requires Valid(PER_KEY, buckets, c.at) && c.key in buckets
    ensures Admitted(PER_KEY, map[], calls, key) == if |calls| <= 15 then |calls| else 15
    ensures Admitted(PER_SOURCE, map[], calls, key) == if |calls| <= 30 then |calls| else 30
    ensures buckets[c.key].at + 1.0 <= c.at ==> Admits(PER_KEY, buckets, c)
    ensures buckets[c.key].at + 0.5 <= c.at ==> Admits(PER_SOURCE, buckets, c)
    ensures buckets[c.key].tokens == 0.0 && c.at < buckets[c.key].at + 1.0 ==> !Admits(PER_KEY, buckets, c)
    ensures buckets[c.key].tokens == 0.0 && c.at < buckets[c.key].at + 0.5 ==> !Admits(PER_SOURCE, buckets, c)
  {
    BurstAtOnce(PER_KEY, key, now, calls);
    BurstAtOnce(PER_SOURCE, key, now, calls);
    if buckets[c.key].at + 1.0 <= c.at { SpacedIsAdmitted(PER_KEY, buckets, c); }
    if buckets[c.key].at + 0.5 <= c.at { SpacedIsAdmitted(PER_SOURCE, buckets, c); }
  }

  class Limiter {
    const limit: Limit
    var buckets: Buckets

    constructor (limit: Limit)
      ensures this.limit == limit && buckets == map[]
    {
      this.limit, buckets := limit, map[];
    }

    method Allow(key: string, now: real) returns (allowed: bool, wait: int)
      requires limit.rate > 0.0
      modifies this
      ensures allowed == Admits(limit, old(buckets), Call(key, now))
      ensures buckets == After(limit, old(buckets), Call(key, now))
      ensures wait == if allowed then 0 else Wait(limit, buckets[key].tokens)
    {
      var bucket := if key in buckets then buckets[key] else Bucket(limit.burst, now);
      var elapsed := now - bucket.at;
      bucket := Bucket(Min(limit.burst, bucket.tokens + elapsed * limit.rate / 60.0), now);
      if bucket.tokens < 1.0 {
        buckets := buckets[key := bucket];
        wait := Ceiling((1.0 - bucket.tokens) / (limit.rate / 60.0));
        return false, if wait < 1 then 1 else wait;
      }
      buckets := buckets[key := bucket.(tokens := bucket.tokens - 1.0)];
      return true, 0;
    }
  }
}
