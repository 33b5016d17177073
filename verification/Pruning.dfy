/** When pruning idle buckets (cmd/master/ratelimit.go) can be seen from outside. */
module Pruning {
  import opened RateLimits

  /** No bucket is pruned before it would be full again, or no bucket ever holds a token. */
  predicate PruneSafe(lim: Limit) {
    lim.burst < 1.0 || lim.Gain(IDLE) >= lim.burst
  }

  /** In order, and not after a given time. */
  ghost predicate Until(run: seq<Call>, now: real) {
    Ordered(run) && forall i :: 0 <= i < |run| ==> run[i].at <= now
  }

  lemma UntilExtends(run: seq<Call>, now: real, c: Call, later: real)
    requires Until(run, now) && now <= c.at <= later
    ensures Until(run + [c], later) && (run + [c])[..|run|] == run
  {
  }

  lemma {:induction false} WithoutPrunesUntil(run: seq<Call>, now: real)
    requires Until(run, now)
    ensures Until(WithoutPrunes(run), now)
    decreases |run|
  {
    if run != [] {
      var init, c := run[..|run| - 1], run[|run| - 1];
      WithoutPrunesUntil(init, c.at);
      if c.Allow? {
        UntilExtends(WithoutPrunes(init), c.at, c, now);
      }
    }
  }

  ghost predicate Alike(lim: Limit, m: Levels, u: Levels, now: real) {
    lim.burst >= 1.0 ==> forall k :: Tokens(lim, m, k, now) == Tokens(lim, u, k, now)
  }

  lemma AlikeLater(lim: Limit, m: Levels, u: Levels, now: real, later: real)
    requires lim.Valid() && Sane(lim, m, now) && Sane(lim, u, now) && now <= later && Alike(lim, m, u, now)
    ensures Alike(lim, m, u, later)
  {
    forall k
      ensures lim.burst >= 1.0 ==> Tokens(lim, m, k, later) == Tokens(lim, u, k, later)
    {
      Later(lim, m, k, now, later);
      Later(lim, u, k, now, later);
    }
  }

  lemma AlikeCall(lim: Limit, m: Levels, u: Levels, key: string, now: real)
    requires lim.Valid() && Sane(lim, m, now) && Sane(lim, u, now) && Alike(lim, m, u, now)
    ensures Allowed(lim, m, key, now) == Allowed(lim, u, key, now)
    ensures Alike(lim, Called(lim, m, key, now), Called(lim, u, key, now), now)
  {
    Later(lim, m, key, now, now);
    Later(lim, u, key, now, now);
    CallTakesOne(lim, m, key, now);
    CallTakesOne(lim, u, key, now);
  }

  /** What is pruned would have been full. */
  lemma AlikePrune(lim: Limit, m: Levels, u: Levels, now: real)
    requires lim.Valid() && Sane(lim, m, now) && Alike(lim, m, u, now) && PruneSafe(lim)
    ensures Alike(lim, Pruned(m, now), u, now)
  {
    forall k | lim.burst >= 1.0
      ensures Tokens(lim, Pruned(m, now), k, now) == Tokens(lim, u, k, now)
    {
      PruneKeepsTokens(lim, m, k, now);
    }
  }

  /** One more call or pruning, against the call alone. */
  lemma PrunesAlikeStep(lim: Limit, run: seq<Call>, calls: seq<Call>, c: Call)
    requires lim.Valid() && PruneSafe(lim) && Until(run, c.at) && Until(calls, c.at)
    requires Answers(lim, run) == Answers(lim, calls) && Alike(lim, After(lim, run), After(lim, calls), c.at)
    ensures var more := if c.Allow? then calls + [c] else calls;
      && Answers(lim, run + [c]) == Answers(lim, more)
      && Alike(lim, After(lim, run + [c]), After(lim, more), c.at)
  {
    RunSane(lim, run, c.at);
    RunSane(lim, calls, c.at);
    UntilExtends(run, c.at, c, c.at);
    UntilExtends(calls, c.at, c, c.at);
    if c.Allow? {
      AlikeCall(lim, After(lim, run), After(lim, calls), c.key, c.at);
    } else {
      AlikePrune(lim, After(lim, run), After(lim, calls), c.at);
    }
  }

  lemma NothingCalled(lim: Limit, now: real)
    ensures Answers(lim, []) == Answers(lim, WithoutPrunes([]))
    ensures Alike(lim, After(lim, []), After(lim, WithoutPrunes([])), now)
  {
  }

  lemma WithoutPrunesLast(run: seq<Call>, c: Call)
    ensures WithoutPrunes(run + [c]) == if c.Allow? then WithoutPrunes(run) + [c] else WithoutPrunes(run)
  {
    assert (run + [c])[..|run|] == run;
  }

  lemma UntilInit(run: seq<Call>, now: real)
    requires Until(run, now) && run != []
    ensures run == run[..|run| - 1] + [run[|run| - 1]] && run[|run| - 1].at <= now
    ensures Until(run, run[|run| - 1].at) && Until(run[..|run| - 1], run[|run| - 1].at)
  {
  }

  lemma UntilSane(lim: Limit, run: seq<Call>, now: real)
    requires lim.Valid() && Until(run, now)
    ensures Sane(lim, After(lim, run), now)
  {
    RunSane(lim, run, now);
  }

  lemma {:induction false} PrunesAlike(lim: Limit, run: seq<Call>, now: real)
    requires lim.Valid() && PruneSafe(lim) && Until(run, now)
    ensures Answers(lim, run) == Answers(lim, WithoutPrunes(run))
    ensures Alike(lim, After(lim, run), After(lim, WithoutPrunes(run)), now)
    decreases |run|
  {
    hide *;
    if run == [] {
      NothingCalled(lim, now);
    } else {
      var init, c := run[..|run| - 1], run[|run| - 1];
      UntilInit(run, now);
      PrunesAlike(lim, init, c.at);
      WithoutPrunesUntil(init, c.at);
      PrunesAlikeStep(lim, init, WithoutPrunes(init), c);
      WithoutPrunesLast(init, c);
      WithoutPrunesUntil(run, c.at);
      UntilSane(lim, run, c.at);
      UntilSane(lim, WithoutPrunes(run), c.at);
      AlikeLater(lim, After(lim, run), After(lim, WithoutPrunes(run)), c.at, now);
    }
  }

  // ----- and when it can be seen -----

  lemma {:induction false} OnlyAllowsKept(run: seq<Call>, more: seq<Call>)
    requires OnlyAllows(more)
    ensures WithoutPrunes(run + more) == WithoutPrunes(run) + more
    decreases |more|
  {
    hide WithoutPrunes;
    if more == [] {
      assert run + more == run;
    } else {
      var init, c := more[..|more| - 1], more[|more| - 1];
      OnlyAllowsKept(run, init);
      WithoutPrunesLast(run + init, c);
      assert run + more == run + init + [c] && init + [c] == more;
    }
  }

  /** The time it takes for a bucket to come up to one token. */
  function Wait(lim: Limit, tokens: real): real
    requires lim.Valid()
  {
    (1.0 - tokens) / lim.rate
  }

  lemma WaitGains(lim: Limit, tokens: real)
    requires lim.Valid() && tokens < 1.0
    ensures Wait(lim, tokens) > 0.0 && lim.Gain(Wait(lim, tokens)) == 1.0 - tokens
  {
  }

  /** One more call, and what it leaves. */
  lemma OneMore(lim: Limit, run: seq<Call>, key: string, now: real, at: real)
    requires lim.Valid() && Until(run, now) && now <= at
    ensures Until(run + [Allow(key, at)], at)
    ensures var left := Tokens(lim, After(lim, run), key, at);
      && left == Min(Tokens(lim, After(lim, run), key, now) + lim.Gain(at - now), lim.burst)
      && Tokens(lim, After(lim, run + [Allow(key, at)]), key, at) == (if left >= 1.0 then left - 1.0 else left)
      && Answers(lim, run + [Allow(key, at)]) == Answers(lim, run) + [left >= 1.0]
  {
    UntilExtends(run, now, Allow(key, at), at);
    RunSane(lim, run, now);
    Later(lim, After(lim, run), key, now, at);
    CallTakesOne(lim, After(lim, run), key, at);
  }

  /** From any state, calls that leave the bucket with no token at all. */
  lemma {:induction false} Drain(lim: Limit, run: seq<Call>, key: string, now: real)
    returns (more: seq<Call>, end: real)
    requires lim.Valid() && lim.burst >= 1.0 && Until(run, now)
    ensures OnlyAllows(more) && now <= end && Until(run + more, end)
    ensures Tokens(lim, After(lim, run + more), key, end) == 0.0 && key in After(lim, run + more)
    decreases Tokens(lim, After(lim, run), key, now).Floor
  {
    hide *;
    var tokens := Tokens(lim, After(lim, run), key, now);
    if tokens >= 1.0 {
      var c := Allow(key, now);
      TakeOne(lim, run, key, now);
      more, end := Drain(lim, run + [c], key, now);
      CallFirst(c, more, run);
      more := [c] + more;
    } else {
      end := now + Wait(lim, tokens);
      TakeLast(lim, run, key, now);
      more := [Allow(key, end)];
    }
  }

  lemma TakeOne(lim: Limit, run: seq<Call>, key: string, now: real)
    requires lim.Valid() && Until(run, now) && Tokens(lim, After(lim, run), key, now) >= 1.0
    ensures Until(run + [Allow(key, now)], now)
    ensures Tokens(lim, After(lim, run + [Allow(key, now)]), key, now) == Tokens(lim, After(lim, run), key, now) - 1.0
  {
    hide After, Tokens, Until;
    UntilSane(lim, run, now);
    Later(lim, After(lim, run), key, now, now);
    OneMore(lim, run, key, now, now);
  }

  /** Less than a token is left, and the next whole one is taken when it has come in. */
  lemma TakeLast(lim: Limit, run: seq<Call>, key: string, now: real)
    requires lim.Valid() && lim.burst >= 1.0 && Until(run, now) && Tokens(lim, After(lim, run), key, now) < 1.0
    ensures var end := now + Wait(lim, Tokens(lim, After(lim, run), key, now));
      var more := [Allow(key, end)];
      && OnlyAllows(more) && now <= end && Until(run + more, end)
      && Tokens(lim, After(lim, run + more), key, end) == 0.0 && key in After(lim, run + more)
  {
    hide Tokens, Until, Wait, Limit.Gain, Ordered;
    var tokens := Tokens(lim, After(lim, run), key, now);
    var end := now + Wait(lim, tokens);
    WaitGains(lim, tokens);
    assert end - now == Wait(lim, tokens);
    OneMore(lim, run, key, now, end);
    assert (run + [Allow(key, end)])[..|run|] == run;
  }

  /** Two limiters with different levels for a key can be told apart by calls alone. */
  lemma {:induction false} Distinguish(lim: Limit, p: seq<Call>, q: seq<Call>, key: string, now: real)
    returns (more: seq<Call>)
    requires lim.Valid() && lim.burst >= 1.0 && Until(p, now) && Until(q, now)
    requires Answers(lim, p) == Answers(lim, q)
    requires Tokens(lim, After(lim, p), key, now) > Tokens(lim, After(lim, q), key, now)
    ensures OnlyAllows(more) && Ordered(p + more)
    ensures Answers(lim, p + more) != Answers(lim, q + more)
    decreases Tokens(lim, After(lim, p), key, now).Floor
  {
    hide *;
    var tokens := Tokens(lim, After(lim, p), key, now);
    if tokens < 1.0 {
      more := TellApart(lim, p, q, key, now);
    } else if Tokens(lim, After(lim, q), key, now) < 1.0 {
      more := [Allow(key, now)];
      OneRefused(lim, p, q, key, now);
      CallFirst(Allow(key, now), [], p);
    } else {
      var c := Allow(key, now);
      TakeBoth(lim, p, q, key, now);
      more := Distinguish(lim, p + [c], q + [c], key, now);
      CallFirst(c, more, p);
      CallFirst(c, more, q);
      more := [c] + more;
    }
  }

  /** The fuller bucket comes up to a token first. */
  lemma TellApart(lim: Limit, p: seq<Call>, q: seq<Call>, key: string, now: real) returns (more: seq<Call>)
    requires lim.Valid() && lim.burst >= 1.0 && Until(p, now) && Until(q, now)
    requires Answers(lim, p) == Answers(lim, q)
    requires 1.0 > Tokens(lim, After(lim, p), key, now) > Tokens(lim, After(lim, q), key, now)
    ensures OnlyAllows(more) && Ordered(p + more)
    ensures Answers(lim, p + more) != Answers(lim, q + more)
  {
    var tokens := Tokens(lim, After(lim, p), key, now);
    var at := now + Wait(lim, tokens);
    WaitGains(lim, tokens);
    OneMore(lim, p, key, now, at);
    OneMore(lim, q, key, now, at);
    assert at - now == Wait(lim, tokens);
    LastDiffers(Answers(lim, p));
    more := [Allow(key, at)];
    hide After, Answers, Limit.Gain, Wait;
  }

  lemma CallFirst(c: Call, more: seq<Call>, run: seq<Call>)
    requires c.Allow? && OnlyAllows(more)
    ensures run + ([c] + more) == run + [c] + more && OnlyAllows([c] + more) && [c] + [] == [c]
  {
  }

  lemma LastDiffers(s: seq<bool>)
    ensures s + [true] != s + [false]
  {
    assert (s + [true])[|s|] != (s + [false])[|s|];
  }

  lemma OneRefused(lim: Limit, p: seq<Call>, q: seq<Call>, key: string, now: real)
    requires lim.Valid() && Until(p, now) && Until(q, now) && Answers(lim, p) == Answers(lim, q)
    requires Tokens(lim, After(lim, p), key, now) >= 1.0 > Tokens(lim, After(lim, q), key, now)
    ensures Ordered(p + [Allow(key, now)]) && OnlyAllows([])
    ensures Answers(lim, p + [Allow(key, now)]) != Answers(lim, q + [Allow(key, now)])
  {
    OneMore(lim, p, key, now, now);
    OneMore(lim, q, key, now, now);
    UntilSane(lim, p, now);
    UntilSane(lim, q, now);
    Later(lim, After(lim, p), key, now, now);
    Later(lim, After(lim, q), key, now, now);
    LastDiffers(Answers(lim, p));
  }

  lemma TakeBoth(lim: Limit, p: seq<Call>, q: seq<Call>, key: string, now: real)
    requires lim.Valid() && Until(p, now) && Until(q, now) && Answers(lim, p) == Answers(lim, q)
    requires Tokens(lim, After(lim, p), key, now) > Tokens(lim, After(lim, q), key, now) >= 1.0
    ensures var c := Allow(key, now);
      && Until(p + [c], now) && Until(q + [c], now) && Answers(lim, p + [c]) == Answers(lim, q + [c])
      && Tokens(lim, After(lim, p), key, now) - 1.0 == Tokens(lim, After(lim, p + [c]), key, now)
      && Tokens(lim, After(lim, p + [c]), key, now) > Tokens(lim, After(lim, q + [c]), key, now)
  {
    OneMore(lim, p, key, now, now);
    OneMore(lim, q, key, now, now);
    UntilSane(lim, p, now);
    UntilSane(lim, q, now);
    Later(lim, After(lim, p), key, now, now);
    Later(lim, After(lim, q), key, now, now);
  }

  /** A time after which an idle bucket may be pruned, though it would not be full again. */
  function TooSoon(lim: Limit): real
    requires lim.Valid()
  {
    (IDLE + lim.burst / lim.rate) / 2.0
  }

  lemma TooSoonFacts(lim: Limit)
    requires lim.Valid() && !PruneSafe(lim)
    ensures TooSoon(lim) > IDLE && 0.0 < lim.Gain(TooSoon(lim)) < lim.burst
  {
    var full := lim.burst / lim.rate;
    assert lim.Gain(full) == lim.burst;
    GainFacts(lim, IDLE, full);
    GainFacts(lim, TooSoon(lim), TooSoon(lim));
    assert TooSoon(lim) + TooSoon(lim) == IDLE + full;
    GainFacts(lim, IDLE - full, full);
    GainFacts(lim, full - IDLE, IDLE);
    assert IDLE - full + full == IDLE && full - IDLE + IDLE == full;
    hide Limit.Gain;
  }

  /** An empty bucket that is pruned too soon counts as full. */
  lemma PrunedTooSoon(lim: Limit, run: seq<Call>, key: string, end: real)
    requires lim.Valid() && !PruneSafe(lim) && Until(run, end)
    requires key in After(lim, run) && Tokens(lim, After(lim, run), key, end) == 0.0
    ensures var now := end + TooSoon(lim);
      && Until(run + [Prune(now)], now) && Until(run, now)
      && Answers(lim, run + [Prune(now)]) == Answers(lim, run)
      && Tokens(lim, After(lim, run + [Prune(now)]), key, now) > Tokens(lim, After(lim, run), key, now)
  {
    var now := end + TooSoon(lim);
    TooSoonFacts(lim);
    UntilExtends(run, end, Prune(now), now);
    UntilSane(lim, run, end);
    Later(lim, After(lim, run), key, end, now);
    assert now - end == TooSoon(lim);
    hide Limit.Gain, TooSoon;
  }

  lemma {:induction false} OnlyAllowsUnpruned(run: seq<Call>)
    requires OnlyAllows(run)
    ensures WithoutPrunes(run) == run
    decreases |run|
  {
    if run != [] {
      OnlyAllowsUnpruned(run[..|run| - 1]);
    }
  }

  lemma PruneVisible(lim: Limit, key: string) returns (run: seq<Call>)
    requires lim.Valid() && !PruneSafe(lim)
    ensures Ordered(run) && Answers(lim, run) != Answers(lim, WithoutPrunes(run))
  {
    hide After, Tokens, WithoutPrunes, TooSoon, Answers, Limit.Gain;
    var drained, end := Drain(lim, [], key, 0.0);
    assert [] + drained == drained;
    var now := end + TooSoon(lim);
    var pruned := drained + [Prune(now)];
    PrunedTooSoon(lim, drained, key, end);
    var more := Distinguish(lim, pruned, drained, key, now);
    OnlyAllowsUnpruned(drained);
    WithoutPrunesLast(drained, Prune(now));
    OnlyAllowsKept(pruned, more);
    run := pruned + more;
  }

  /** No sequence of calls can tell a limiter that prunes from one that does not, exactly if a
      bucket is full again by the time it may be pruned, or can never hold a token. */
  lemma PruneInvisibleIff(lim: Limit)
    requires lim.Valid()
    ensures (forall run: seq<Call> :: Ordered(run) ==> Answers(lim, run) == Answers(lim, WithoutPrunes(run)))
            <==> lim.burst < 1.0 || IDLE * lim.rate >= lim.burst
  {
    if PruneSafe(lim) {
      forall run: seq<Call> | Ordered(run)
        ensures Answers(lim, run) == Answers(lim, WithoutPrunes(run))
      {
        PrunesAlike(lim, run, if run == [] then 0.0 else run[|run| - 1].at);
      }
    } else {
      var run := PruneVisible(lim, "");
    }
  }
}
