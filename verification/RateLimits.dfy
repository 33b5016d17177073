/** The token-bucket limiter (cmd/master/ratelimit.go), over the reals. */
module RateLimits {

  datatype Limit = Limit(rate: real, burst: real)  // tokens per second, and at most
  {
    /** What the environment settings guarantee. */
    predicate Valid() {
      rate > 0.0 && burst > 0.0
    }

    /** What comes in over a span of time. */
    function Gain(span: real): real {
      span * rate
    }
  }

  datatype Level = Level(tokens: real, last: real)

  type Levels = map<string, Level>

  const IDLE: real := 600.0  // ten minutes without a call, and the bucket may be pruned

  function Min(a: real, b: real): real {
    if a > b then b else a
  }

  /** The tokens that a call at this time would find; a missing bucket counts as full. */
  function Tokens(lim: Limit, m: Levels, key: string, now: real): real {
    if key in m then Min(m[key].tokens + lim.Gain(now - m[key].last), lim.burst) else lim.burst
  }

  function Allowed(lim: Limit, m: Levels, key: string, now: real): bool {
    Tokens(lim, m, key, now) >= 1.0
  }

  function Called(lim: Limit, m: Levels, key: string, now: real): Levels {
    var tokens := Tokens(lim, m, key, now);
    m[key := Level(if tokens >= 1.0 then tokens - 1.0 else tokens, now)]
  }

  function Pruned(m: Levels, now: real): Levels {
    map key | key in m && m[key].last >= now - IDLE :: m[key]
  }

  lemma CalledIs(lim: Limit, m: Levels, key: string, now: real, tokens: real, last: real)
    requires key in m ==> m[key] == Level(tokens, last)
    ensures var refilled := if key in m then tokens + (now - last) * lim.rate else lim.burst;
      var found := if refilled > lim.burst then lim.burst else refilled;
      && Allowed(lim, m, key, now) == (found >= 1.0) && key in Called(lim, m, key, now)
      && Called(lim, m, key, now)[key] == Level(if found >= 1.0 then found - 1.0 else found, now)
  {
  }

  /** A new bucket is full, so it makes no difference when it was made. */
  lemma FullIsMissing(lim: Limit, m: Levels, key: string, now: real)
    requires key !in m
    ensures Allowed(lim, m[key := Level(lim.burst, now)], key, now) == Allowed(lim, m, key, now)
    ensures Called(lim, m[key := Level(lim.burst, now)], key, now) == Called(lim, m, key, now)
  {
    assert now - now == 0.0;
  }

  // ----- the limiter itself -----

  class Bucket {
    var tokens: real
    var lastRefill: real

    constructor (tokens: real, lastRefill: real)
      ensures this.tokens == tokens && this.lastRefill == lastRefill
    {
      this.tokens, this.lastRefill := tokens, lastRefill;
    }
  }

  class RateLimiter {
    var buckets: map<string, Bucket>
    const limit: Limit

    ghost predicate Valid()
      reads this
    {
      forall k, l :: k in buckets && l in buckets && k != l ==> buckets[k] != buckets[l]
    }

    ghost function Contents(): Levels
      reads this, buckets.Values
    {
      map k | k in buckets :: Level(buckets[k].tokens, buckets[k].lastRefill)
    }

    constructor (limit: Limit)
      ensures Valid() && this.limit == limit && Contents() == map[]
    {
      this.limit := limit;
      buckets := map[];
    }

    method Allow(key: string, now: real) returns (ok: bool)
      requires Valid()
      modifies this, buckets.Values
      ensures Valid() && fresh(buckets.Values - old(buckets.Values))
      ensures ok == Allowed(limit, old(Contents()), key, now)
      ensures Contents() == Called(limit, old(Contents()), key, now)
      ensures var refilled := if key in old(buckets)
                              then old(buckets[key].tokens) + (now - old(buckets[key].lastRefill)) * limit.rate
                              else limit.burst;
        var found := if refilled > limit.burst then limit.burst else refilled;
        && ok == (found >= 1.0) && key in buckets && buckets[key].lastRefill == now
        && buckets[key].tokens == if found >= 1.0 then found - 1.0 else found
      ensures forall k :: k in old(buckets) && k != key ==>
                k in buckets && buckets[k] == old(buckets[k]) && unchanged(buckets[k])
      ensures buckets.Keys == old(buckets.Keys) + {key}
    {
      hide Called, Allowed, Tokens, RateLimiter.Contents;
      ContentsAt(key);
      ghost var tokens, last := if key in buckets then buckets[key].tokens else 0.0,
                                if key in buckets then buckets[key].lastRefill else 0.0;
      CalledIs(limit, Contents(), key, now, tokens, last);
      if key !in buckets {
        FullIsMissing(limit, Contents(), key, now);
        Open(key, now);
      }
      ok := Take(key, now);
      ContentsAt(key);
    }

    /** A new bucket is full. */
    method Open(key: string, now: real)
      requires Valid() && key !in buckets
      modifies this
      ensures Valid() && buckets.Keys == old(buckets.Keys) + {key} && fresh(buckets[key])
      ensures forall k :: k in old(buckets) ==> buckets[k] == old(buckets[k])
      ensures Contents() == old(Contents())[key := Level(limit.burst, now)] && key !in old(Contents())
    {
      var full := new Bucket(limit.burst, now);
      buckets := buckets[key := full];
    }

    lemma ContentsAt(key: string)
      ensures key in Contents() <==> key in buckets
      ensures key in buckets ==> Contents()[key] == Level(buckets[key].tokens, buckets[key].lastRefill)
    {
    }

    /** Refills the bucket, and takes a token if there is one. */
    method Take(key: string, now: real) returns (ok: bool)
      requires Valid() && key in buckets
      modifies {buckets[key]}
      ensures ok == Allowed(limit, old(Contents()), key, now)
      ensures Contents() == Called(limit, old(Contents()), key, now)
    {
      hide Limit.Gain;
      var b := buckets[key];
      assert forall k :: k in buckets && k != key ==> buckets[k] != b;
      var elapsed := now - b.lastRefill;
      b.tokens := b.tokens + limit.Gain(elapsed);
      if b.tokens > limit.burst {
        b.tokens := limit.burst;
      }
      b.lastRefill := now;
      ok := b.tokens >= 1.0;
      if ok {
        b.tokens := b.tokens - 1.0;
      }
      OneWritten(key);
    }

    /** The contents when only one bucket has changed. */
    twostate lemma OneWritten(key: string)
      requires key in buckets && buckets == old(buckets)
      requires forall k :: k in buckets && k != key ==> unchanged(buckets[k])
      ensures Contents() == old(Contents())[key := Level(buckets[key].tokens, buckets[key].lastRefill)]
    {
    }

    method Prune(now: real)
      requires Valid()
      modifies this
      ensures Valid() && buckets.Values <= old(buckets.Values)
      ensures Contents() == Pruned(old(Contents()), now)
      ensures forall k :: k in buckets <==> k in old(buckets) && now - old(buckets[k].lastRefill) <= 600.0
      ensures forall k :: k in buckets ==> buckets[k] == old(buckets[k])
    {
      var cutoff := now - IDLE;
      var todo := buckets.Keys;
      while todo != {}
        invariant Valid() && todo <= buckets.Keys <= old(buckets.Keys)
        invariant forall k :: k in buckets ==> buckets[k] == old(buckets[k])
        invariant forall k :: k in old(buckets) ==>
                    (k in buckets <==> k in todo || old(buckets[k].lastRefill) >= cutoff)
      {
        var k :| k in todo;
        if buckets[k].lastRefill < cutoff {
          buckets := buckets - {k};
        }
        todo := todo - {k};
      }
    }
  }

  // ----- runs -----

  datatype Call = Allow(key: string, at: real) | Prune(at: real)

  ghost predicate Ordered(run: seq<Call>) {
    forall i, j :: 0 <= i < j < |run| ==> run[i].at <= run[j].at
  }

  function After(lim: Limit, run: seq<Call>): Levels {
    if run == [] then map[]
    else
      var m, c := After(lim, run[..|run| - 1]), run[|run| - 1];
      if c.Allow? then Called(lim, m, c.key, c.at) else Pruned(m, c.at)
  }

  /** What Allow answers, call by call. */
  function Answers(lim: Limit, run: seq<Call>): seq<bool> {
    if run == [] then []
    else
      var init, c := run[..|run| - 1], run[|run| - 1];
      if c.Allow? then Answers(lim, init) + [Allowed(lim, After(lim, init), c.key, c.at)]
      else Answers(lim, init)
  }

  function WithoutPrunes(run: seq<Call>): seq<Call> {
    if run == [] then []
    else
      var init, c := run[..|run| - 1], run[|run| - 1];
      WithoutPrunes(init) + if c.Allow? then [c] else []
  }

  /** Every bucket holds between none and all of the tokens, and was last refilled in the past. */
  ghost predicate Sane(lim: Limit, m: Levels, now: real) {
    forall k :: k in m ==> 0.0 <= m[k].tokens <= lim.burst && m[k].last <= now
  }

  lemma GainFacts(lim: Limit, a: real, b: real)
    requires lim.Valid()
    ensures lim.Gain(a + b) == lim.Gain(a) + lim.Gain(b)
    ensures lim.Gain(0.0) == 0.0
    ensures a >= 0.0 ==> lim.Gain(a) >= 0.0
  {
  }

  lemma Later(lim: Limit, m: Levels, key: string, now: real, later: real)
    requires lim.Valid() && Sane(lim, m, now) && now <= later
    ensures Tokens(lim, m, key, later) == Min(Tokens(lim, m, key, now) + lim.Gain(later - now), lim.burst)
    ensures 0.0 <= Tokens(lim, m, key, now) <= Tokens(lim, m, key, later) <= lim.burst
    ensures Sane(lim, m, later)
  {
    GainFacts(lim, later - now, 0.0);
    if key in m {
      GainFacts(lim, now - m[key].last, later - now);
      assert now - m[key].last + (later - now) == later - m[key].last;
    }
    hide Limit.Gain;
  }

  /** A call takes one token from its own key if it is accepted, and nothing else. */
  lemma CallTakesOne(lim: Limit, m: Levels, key: string, now: real)
    requires lim.Valid() && Sane(lim, m, now)
    ensures var u := Called(lim, m, key, now);
      && Sane(lim, u, now)
      && (forall k, t :: k != key ==> Tokens(lim, u, k, t) == Tokens(lim, m, k, t))
      && Tokens(lim, u, key, now) == Tokens(lim, m, key, now) - (if Allowed(lim, m, key, now) then 1.0 else 0.0)
  {
    Later(lim, m, key, now, now);
    GainFacts(lim, 0.0, 0.0);
    assert now - now == 0.0;
    hide Limit.Gain;
  }

  /** Whatever is called, in order, the token counts stay between zero and the burst. */
  lemma {:induction false} RunSane(lim: Limit, run: seq<Call>, now: real)
    requires lim.Valid() && Ordered(run) && (run != [] ==> run[|run| - 1].at <= now)
    ensures Sane(lim, After(lim, run), now)
    decreases |run|
  {
    if run != [] {
      var init, c := run[..|run| - 1], run[|run| - 1];
      RunSane(lim, init, c.at);
      if c.Allow? {
        CallTakesOne(lim, After(lim, init), c.key, c.at);
      }
    }
  }

  // ----- the rate bound -----

  /** How many calls with this key are accepted from the i-th call on. */
  function Accepted(lim: Limit, run: seq<Call>, key: string, i: nat): nat
    requires i <= |run|
    decreases |run|
  {
    if i == |run| then 0
    else
      var init, c := run[..|run| - 1], run[|run| - 1];
      var taken := c.Allow? && c.key == key && Allowed(lim, After(lim, init), key, c.at);
      Accepted(lim, init, key, i) + if taken then 1 else 0
  }

  /** A bucket that is pruned after it would be full again was as good as full. */
  lemma PruneKeepsTokens(lim: Limit, m: Levels, key: string, now: real)
    requires lim.Valid() && Sane(lim, m, now) && lim.Gain(IDLE) >= lim.burst
    ensures Tokens(lim, Pruned(m, now), key, now) == Tokens(lim, m, key, now)
  {
    if key in m && key !in Pruned(m, now) {
      var idle := now - m[key].last;
      GainFacts(lim, idle - IDLE, IDLE);
      assert idle - IDLE + IDLE == idle;
    }
  }

  ghost predicate OnlyAllows(run: seq<Call>) {
    forall i :: 0 <= i < |run| ==> run[i].Allow?
  }

  /** One call or pruning against the tokens for a key. */
  lemma Spent(lim: Limit, m: Levels, c: Call, key: string)
    requires lim.Valid() && Sane(lim, m, c.at)
    requires c.Prune? ==> lim.Gain(IDLE) >= lim.burst
    ensures var u := if c.Allow? then Called(lim, m, c.key, c.at) else Pruned(m, c.at);
      Sane(lim, u, c.at) && Tokens(lim, u, key, c.at) == Tokens(lim, m, key, c.at)
        - (if c.Allow? && c.key == key && Allowed(lim, m, key, c.at) then 1.0 else 0.0)
  {
    if c.Allow? {
      CallTakesOne(lim, m, c.key, c.at);
    } else {
      PruneKeepsTokens(lim, m, key, c.at);
    }
  }

  /** What is accepted has been there at the start of the window, or has come in since. */
  lemma {:induction false} Budget(lim: Limit, run: seq<Call>, key: string, i: nat, now: real)
    requires lim.Valid() && Ordered(run) && i < |run| && run[|run| - 1].at <= now
    requires OnlyAllows(run) || lim.Gain(IDLE) >= lim.burst
    ensures Accepted(lim, run, key, i) as real + Tokens(lim, After(lim, run), key, now)
              <= lim.burst + lim.Gain(now - run[i].at)
    decreases |run|
  {
    var init, c := run[..|run| - 1], run[|run| - 1];
    var m := After(lim, init);
    RunSane(lim, init, c.at);
    Spent(lim, m, c, key);
    Later(lim, After(lim, run), key, c.at, now);
    GainFacts(lim, c.at - run[i].at, now - c.at);
    assert c.at - run[i].at + (now - c.at) == now - run[i].at;
    hide Limit.Gain, Tokens;
    if i < |init| {
      Budget(lim, init, key, i, c.at);
    } else {
      Later(lim, m, key, c.at, c.at);
    }
  }

  /** In any window of calls, however they are placed, at most burst + rate * length of the
      calls with one key are accepted; with pruning too, if buckets are not pruned too soon. */
  lemma RateBound(lim: Limit, run: seq<Call>, key: string, i: nat)
    requires lim.Valid() && Ordered(run) && i < |run|
    requires OnlyAllows(run) || IDLE * lim.rate >= lim.burst
    ensures Accepted(lim, run, key, i) as real <= lim.burst + (run[|run| - 1].at - run[i].at) * lim.rate
  {
    hide After, Accepted, Tokens, Sane;
    var now := run[|run| - 1].at;
    assert lim.Gain(now - run[i].at) == (now - run[i].at) * lim.rate;
    Budget(lim, run, key, i, now);
    RunSane(lim, run, now);
    Later(lim, After(lim, run), key, now, now);
  }
}
