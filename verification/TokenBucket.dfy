/** The token bucket that limits HTTP requests, over real-valued tokens and time in seconds. */
module TokenBucket {

  datatype Bucket = Bucket(tokens: real, last: real)

  datatype Limit = Limit(rate: real, burst: real)

  predicate ValidLimit(l: Limit) {
    l.rate >= 0.0 && l.burst >= 0.0
  }

  /** The tokens that flow in over a time. */
  function Inflow(d: real, rate: real): real {
    d * rate
  }

  function Min(a: real, b: real): real {
    if a < b then a else b
  }

  /** The tokens at time t, before a request is answered. */
  function Level(l: Limit, b: Bucket, t: real): real {
    Min(l.burst, b.tokens + Inflow(t - b.last, l.rate))
  }

  /** One request at time t. */
  function Request(l: Limit, b: Bucket, t: real): (Bucket, bool) {
    var n := Level(l, b, t);
    if n >= 1.0 then (Bucket(n - 1.0, t), true) else (Bucket(n, t), false)
  }

  class TokenBucketHTTP {
    var tokens: real
    var lastRefill: real
    const maxTokens: real
    const refillRate: real

    function View(): Bucket
      reads this
    {
      Bucket(tokens, lastRefill)
    }

    function Limits(): Limit {
      Limit(refillRate, maxTokens)
    }

    constructor (ratePerSecond: real, burst: real, now: real)
      ensures View() == Bucket(burst, now) && Limits() == Limit(ratePerSecond, burst)
    {
      tokens := burst;
      maxTokens := burst;
      refillRate := ratePerSecond;
      lastRefill := now;
    }

    method Allow(now: real) returns (ok: bool)
      modifies this
      ensures (View(), ok) == Request(Limits(), old(View()), now)
      ensures var full := old(tokens) + refillRate * (now - old(lastRefill));
        var refilled := if full > maxTokens then maxTokens else full;
        ok == (refilled >= 1.0) && tokens == (if ok then refilled - 1.0 else refilled) && lastRefill == now
    {
      var elapsed := now - lastRefill;
      tokens := tokens + Inflow(elapsed, refillRate);
      if tokens > maxTokens {
        tokens := maxTokens;
      }
      lastRefill := now;
      if tokens >= 1.0 {
        tokens := tokens - 1.0;
        return true;
      }
      ok := false;
    }
  }

  // ---------- Runs ----------

  /** The times of a run of requests do not decrease, from t on. */
  predicate Ordered(times: seq<real>, t: real) {
    times != [] ==> t <= times[0] && Ordered(times[1..], times[0])
  }

  function Final(l: Limit, b: Bucket, times: seq<real>): Bucket
    decreases |times|
  {
    if times == [] then b else Final(l, Request(l, b, times[0]).0, times[1..])
  }

  function Answers(l: Limit, b: Bucket, times: seq<real>): (r: seq<bool>)
    ensures |r| == |times|
    decreases |times|
  {
    if times == [] then [] else [Request(l, b, times[0]).1] + Answers(l, Request(l, b, times[0]).0, times[1..])
  }

  /** How many of the answers to requests in the window from a to c are yes. */
  function Allowed(times: seq<real>, answers: seq<bool>, a: real, c: real): nat
    requires |times| == |answers|
  {
    if times == [] then 0
    else (if answers[0] && a <= times[0] <= c then 1 else 0) + Allowed(times[1..], answers[1..], a, c)
  }

  ghost predicate Good(l: Limit, b: Bucket) {
    0.0 <= b.tokens <= l.burst
  }

  lemma Grows(rate: real, d: real)
    requires rate >= 0.0 && d >= 0.0
    ensures Inflow(d, rate) >= 0.0
  {
  }

  /** Tokens stay between zero and the maximum. */
  lemma {:induction false} TokensBounded(l: Limit, b: Bucket, times: seq<real>)
    requires ValidLimit(l) && Good(l, b) && Ordered(times, b.last)
    ensures Good(l, Final(l, b, times))
    decreases |times|
  {
    if times != [] {
      Grows(l.rate, times[0] - b.last);
      TokensBounded(l, Request(l, b, times[0]).0, times[1..]);
    }
  }

  /** What is allowed from the last refill to time c is paid for by the tokens and what flows in. */
  lemma {:induction false} AllowedFrom(l: Limit, b: Bucket, times: seq<real>, a: real, c: real)
    requires ValidLimit(l) && Good(l, b) && Ordered(times, b.last) && b.last <= c
    ensures Allowed(times, Answers(l, b, times), a, c) as real <= b.tokens + Inflow(c - b.last, l.rate)
    decreases |times|
  {
    Grows(l.rate, c - b.last);
    if times != [] {
      var t := times[0];
      var (b', ok) := Request(l, b, t);
      Grows(l.rate, t - b.last);
      if t <= c {
        AllowedFrom(l, b', times[1..], a, c);
        Split(c, t, b.last, l.rate);
      } else {
        NoneAfter(times, Answers(l, b, times), a, c);
      }
    }
  }

  lemma Split(c: real, t: real, s: real, rate: real)
    ensures Inflow(c - s, rate) == Inflow(c - t, rate) + Inflow(t - s, rate)
  {
  }

  lemma {:induction false} NoneAfter(times: seq<real>, answers: seq<bool>, a: real, c: real)
    requires |times| == |answers| && times != [] && c < times[0] && Ordered(times[1..], times[0])
    ensures Allowed(times, answers, a, c) == 0
    decreases |times|
  {
    if |times| > 1 {
      NoneAfter(times[1..], answers[1..], a, c);
    }
  }

  lemma {:induction false} WindowInflow(l: Limit, b: Bucket, times: seq<real>, a: real, c: real)
    requires ValidLimit(l) && Good(l, b) && Ordered(times, b.last) && a <= c
    ensures Allowed(times, Answers(l, b, times), a, c) as real <= l.burst + Inflow(c - a, l.rate)
    decreases |times|
  {
    Grows(l.rate, c - a);
    if times != [] {
      var t := times[0];
      var (b', ok) := Request(l, b, t);
      Grows(l.rate, t - b.last);
      if t < a {
        WindowInflow(l, b', times[1..], a, c);
      } else if t <= c {
        AllowedFrom(l, b', times[1..], a, c);
        Split(c, t, a, l.rate);
        Grows(l.rate, t - a);
      } else {
        NoneAfter(times, Answers(l, b, times), a, c);
      }
    }
  }

  lemma InflowIs(d: real, rate: real)
    ensures Inflow(d, rate) == rate * d
  {
  }

  /** In any window of any run, at most burst + rate * duration requests are allowed. */
  lemma WindowBound(l: Limit, b: Bucket, times: seq<real>, a: real, c: real)
    requires ValidLimit(l) && Good(l, b) && Ordered(times, b.last) && a <= c
    ensures Allowed(times, Answers(l, b, times), a, c) as real <= l.burst + l.rate * (c - a)
  {
    WindowInflow(l, b, times, a, c);
    InflowIs(c - a, l.rate);
  }

  lemma NoTime(rate: real)
    ensures Inflow(0.0, rate) == 0.0
  {
  }

  /** The bound is met: of requests made at once, exactly those are allowed that the tokens cover. */
  lemma {:induction false} BurstExact(l: Limit, b: Bucket, times: seq<real>, i: nat)
    requires Good(l, b) && i < |times| && forall k :: 0 <= k < |times| ==> times[k] == b.last
    ensures Answers(l, b, times)[i] <==> (i + 1) as real <= b.tokens
    decreases i
  {
    var b' := Request(l, b, times[0]).0;
    NoTime(l.rate);
    if i > 0 {
      BurstExact(l, b', times[1..], i - 1);
    }
  }

  lemma {:induction false} InflowSuffices(l: Limit, b: Bucket, times: seq<real>, i: nat)
    requires ValidLimit(l) && Good(l, b) && Ordered(times, b.last) && i < |times| && l.burst >= 1.0
    requires Inflow(times[i] - (if i == 0 then b.last else times[i - 1]), l.rate) >= 1.0
    ensures Answers(l, b, times)[i]
    decreases i
  {
    if i > 0 {
      Grows(l.rate, times[0] - b.last);
      InflowSuffices(l, Request(l, b, times[0]).0, times[1..], i - 1);
    }
  }

  /** A request that comes after one token has flowed in is allowed, whatever came before. */
  lemma WaitingSuffices(l: Limit, b: Bucket, times: seq<real>, i: nat)
    requires ValidLimit(l) && Good(l, b) && Ordered(times, b.last) && i < |times| && l.burst >= 1.0
    requires l.rate * (times[i] - (if i == 0 then b.last else times[i - 1])) >= 1.0
    ensures Answers(l, b, times)[i]
  {
    InflowIs(times[i] - (if i == 0 then b.last else times[i - 1]), l.rate);
    InflowSuffices(l, b, times, i);
  }

  // ---------- A rejected request is invisible ----------

  /** Two buckets that will hold the same tokens at every time from t on. */
  ghost predicate Alike(l: Limit, b: Bucket, d: Bucket, t: real) {
    forall u: real :: t <= u ==> Level(l, b, u) == Level(l, d, u)
  }

  /** Refilling in two goes is refilling in one. */
  lemma RejectedLeavesLevel(l: Limit, b: Bucket, t: real)
    requires ValidLimit(l) && b.last <= t && !Request(l, b, t).1
    ensures Alike(l, Request(l, b, t).0, b, t)
  {
    var n := Level(l, b, t);
    forall u: real | t <= u
      ensures Level(l, Bucket(n, t), u) == Level(l, b, u)
    {
      Split(u, t, b.last, l.rate);
      Grows(l.rate, u - t);
    }
  }

  lemma {:induction false} AlikeAnswers(l: Limit, b: Bucket, d: Bucket, t: real, times: seq<real>)
    requires Alike(l, b, d, t) && Ordered(times, t)
    ensures Answers(l, b, times) == Answers(l, d, times)
    decreases |times|
  {
    if times != [] {
      assert Level(l, b, times[0]) == Level(l, d, times[0]);
      assert Request(l, b, times[0]) == Request(l, d, times[0]);
    }
  }

  lemma AnswersUnfold(l: Limit, b: Bucket, t: real, rest: seq<real>)
    ensures Answers(l, b, [t] + rest) == [Request(l, b, t).1] + Answers(l, Request(l, b, t).0, rest)
  {
    assert ([t] + rest)[1..] == rest;
  }

  /** Leaving out element i behind the first. */
  lemma LeaveOut<T>(x: T, rest: seq<T>, i: nat)
    requires 0 < i <= |rest|
    ensures ([x] + rest)[..i] + ([x] + rest)[i + 1..] == [x] + (rest[..i - 1] + rest[i..])
  {
  }

  lemma RejectedFirst(l: Limit, b: Bucket, t: real, rest: seq<real>)
    requires ValidLimit(l) && b.last <= t && Ordered(rest, t) && !Request(l, b, t).1
    ensures Answers(l, b, rest) == Answers(l, Request(l, b, t).0, rest)
  {
    RejectedLeavesLevel(l, b, t);
    AlikeAnswers(l, Request(l, b, t).0, b, t, rest);
  }

  /** Deleting a rejected request from a run changes no other answer. */
  lemma {:induction false} RejectedIsInvisible(l: Limit, b: Bucket, times: seq<real>, i: nat)
    requires ValidLimit(l) && Ordered(times, b.last) && i < |times| && !Answers(l, b, times)[i]
    ensures Answers(l, b, times[..i] + times[i + 1..])
            == Answers(l, b, times)[..i] + Answers(l, b, times)[i + 1..]
    decreases i
  {
    var t, rest := times[0], times[1..];
    var (b', ok) := Request(l, b, t);
    assert times == [t] + rest;
    AnswersUnfold(l, b, t, rest);
    if i == 0 {
      RejectedFirst(l, b, t, rest);
      assert times[..0] + times[1..] == rest;
    } else {
      RejectedIsInvisible(l, b', rest, i - 1);
      LeaveOut(t, rest, i);
      LeaveOut(ok, Answers(l, b', rest), i);
      AnswersUnfold(l, b, t, rest[..i - 1] + rest[i..]);
    }
  }
}
