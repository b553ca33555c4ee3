/**
 The upload rate cap: a token bucket with injected time, and the seeder's wait loop over it.
 Floating-point numbers are modelled as reals; an unreachable wait is `None`.
 */
module RateCap {
  import opened Hashing
  import opened Manifests

  function Max(a: real, b: real): real {
    if a < b then b else a
  }

  function Least(a: real, b: real): real {
    if a < b then a else b
  }

  datatype Level = Level(rate: real, burst: real, tokens: real) {
    predicate Valid() {
      rate >= 0.0 && burst >= 1.0 && 0.0 <= tokens <= burst
    }

    function Refilled(elapsed: real): Level {
      if elapsed > 0.0 then this.(tokens := Least(tokens + rate * elapsed, burst)) else this
    }

    /** Whether `n` tokens can be had at all, now or ever. */
    predicate Reachable(n: real) {
      tokens >= n || (rate > 0.0 && n <= burst)
    }

    function Wait(n: real): Option<real> {
      if tokens >= n then Some(0.0)
      else if rate <= 0.0 || n > burst then None
      else Some((n - tokens) / rate)
    }
  }

  class TokenBucket {
    var rate: real
    var burst: real
    var tokens: real

    function Now(): Level
      reads this
    {
      Level(rate, burst, tokens)
    }

    /** The burst always holds one default chunk, so a chunk-sized request is reachable at any positive rate. */
    constructor (bps: real)
      ensures Now().Valid() && tokens == burst && rate == Max(bps, 0.0)
      ensures burst >= DEFAULT_CHUNK_SIZE as real && burst >= rate
    {
      rate := Max(bps, 0.0);
      burst := Max(Max(bps, 0.0), DEFAULT_CHUNK_SIZE as real);
      tokens := Max(Max(bps, 0.0), DEFAULT_CHUNK_SIZE as real);
    }

    constructor WithBurst(bps: real, size: real)
      ensures Now().Valid() && tokens == burst == Max(size, 1.0) && rate == Max(bps, 0.0)
    {
      rate := Max(bps, 0.0);
      burst := Max(size, 1.0);
      tokens := Max(size, 1.0);
    }

    method Refill(elapsed: real)
      requires Now().Valid()
      modifies this
      ensures Now() == old(Now()).Refilled(elapsed) && Now().Valid()
      ensures rate == old(rate) && burst == old(burst)
      ensures if elapsed <= 0.0 then tokens == old(tokens)
              else if old(tokens) + rate * elapsed >= burst then tokens == burst
              else tokens == old(tokens) + rate * elapsed
    {
      RefillStaysValid(Now(), elapsed);
      if elapsed > 0.0 {
        tokens := Least(tokens + rate * elapsed, burst);
      }
    }

    method TryTake(n: real) returns (taken: bool)
      requires Now().Valid()
      modifies this
      ensures taken <==> old(tokens) >= n
      ensures Now() == if taken then old(Now()).(tokens := old(tokens) - n) else old(Now())
      ensures n >= 0.0 ==> Now().Valid()
    {
      if tokens >= n {
        tokens := tokens - n;
        return true;
      }
      return false;
    }

    /** The least wait after which a request succeeds, `None` exactly when no wait suffices. */
    method TimeUntil(n: real) returns (wait: Option<real>)
      requires Now().Valid()
      ensures wait == Now().Wait(n)
      ensures wait.None? <==> !Now().Reachable(n)
      ensures wait.Some? ==> forall dt: real :: Now().Refilled(dt).tokens >= n <==> dt >= wait.value || tokens >= n
      ensures wait.Some? ==> if tokens >= n then wait.value == 0.0 else wait.value * rate == n - tokens
    {
      wait := Now().Wait(n);
      if wait.Some? {
        forall dt: real
          ensures Now().Refilled(dt).tokens >= n <==> dt >= wait.value || tokens >= n
        {
          WaitIsExact(Now(), n, dt);
        }
      }
    }

    /**
     The seeder's loop for one request with nobody else drawing from the bucket: refill by the
     elapsed time, try to take, otherwise sleep for at most five seconds (and possibly longer than
     asked). It serves the request exactly when the request is reachable after the first refill.
     */
    method WaitAndTake(n: real, firstElapsed: real, oversleep: nat -> real) returns (served: bool)
      requires Now().Valid() && n >= 0.0
      requires forall t: nat :: oversleep(t) >= 0.0
      modifies this
      ensures Now().Valid() && rate == old(rate) && burst == old(burst)
      ensures served <==> old(Now()).Refilled(firstElapsed).Reachable(n)
      ensures !served ==> Now() == old(Now()).Refilled(firstElapsed)
    {
      var elapsed, tick := firstElapsed, 0;
      while true
        invariant Now().Valid() && rate == old(rate) && burst == old(burst)
        invariant Now().Refilled(elapsed).Reachable(n) <==> old(Now()).Refilled(firstElapsed).Reachable(n)
        invariant tick == 0 ==> Now() == old(Now()) && elapsed == firstElapsed
        invariant tick > 0 ==> tokens < n <= burst && rate > 0.0
        decreases Shortfall(Now().Refilled(elapsed), n)
      {
        ghost var refilled := Now().Refilled(elapsed);
        Refill(elapsed);
        var taken := TryTake(n);
        if taken {
          return true;
        }
        var wait := TimeUntil(n);
        if wait.None? {
          return false;
        }
        elapsed := Least(wait.value, 5.0) + oversleep(tick);
        SleepHelps(refilled, n, wait.value, elapsed);
        tick := tick + 1;
      }
    }
  }

  lemma RefillStaysValid(l: Level, elapsed: real)
    requires l.Valid()
    ensures l.Refilled(elapsed).Valid() && l.tokens <= l.Refilled(elapsed).tokens
  {
  }

  /** Waiting any shorter than `Wait` fails, waiting that long or longer succeeds. */
  lemma WaitIsExact(l: Level, n: real, dt: real)
    requires l.Valid() && l.Wait(n).Some?
    ensures l.Refilled(dt).tokens >= n <==> dt >= l.Wait(n).value || l.tokens >= n
  {
    RefillStaysValid(l, dt);
    if l.tokens < n {
      var w := (n - l.tokens) / l.rate;
      QuotientPositive(n - l.tokens, l.rate);
      assert w * l.rate == n - l.tokens;
      if dt < w {
        MulStrict(dt, w, l.rate);
        assert l.rate * dt == dt * l.rate < n - l.tokens;
      } else {
        if w < dt {
          MulStrict(w, dt, l.rate);
        }
        assert l.rate * dt == dt * l.rate >= n - l.tokens;
      }
    }
  }

  /** How many five-second sleeps a request is away, with zero meaning it can be served now. */
  function Shortfall(l: Level, n: real): real {
    if l.tokens >= n || l.rate <= 0.0 then 0.0 else 1.0 + (n - l.tokens) / (5.0 * l.rate)
  }

  /** A long sleep that does not fill the bucket gains at least five seconds' worth. */
  lemma SleepGain(l: Level, n: real, elapsed: real)
    requires l.rate > 0.0 && elapsed >= 5.0 && n <= l.burst && l.Refilled(elapsed).tokens < n
    ensures l.Refilled(elapsed).tokens - l.tokens >= 5.0 * l.rate
    ensures n - l.Refilled(elapsed).tokens <= n - l.tokens - 5.0 * l.rate
  {
    LongSleepGain(l.rate, elapsed);
    assert l.Refilled(elapsed).tokens == l.tokens + l.rate * elapsed;
  }

  lemma SleepHelps(l: Level, n: real, wait: real, elapsed: real)
    requires l.Valid() && l.tokens < n && l.Wait(n) == Some(wait)
    requires elapsed >= Least(wait, 5.0)
    ensures Shortfall(l.Refilled(elapsed), n) <= Shortfall(l, n) - 1.0
    ensures 0.0 <= Shortfall(l.Refilled(elapsed), n)
  {
    QuotientPositive(n - l.tokens, l.rate);
    QuotientPositive(n - l.tokens, 5.0 * l.rate);
    WaitIsExact(l, n, elapsed);
    var after := l.Refilled(elapsed);
    if elapsed < wait {
      SleepGain(l, n, elapsed);
      QuotientDrops(n - after.tokens, n - l.tokens, 5.0 * l.rate);
      QuotientPositive(n - after.tokens, 5.0 * l.rate);
    }
  }

  lemma QuotientPositive(a: real, d: real)
    requires a > 0.0 && d > 0.0
    ensures a / d > 0.0
  {
  }

  lemma LongSleepGain(rate: real, elapsed: real)
    requires rate > 0.0 && elapsed >= 5.0
    ensures rate * elapsed >= 5.0 * rate
  {
  }

  lemma QuotientDrops(a: real, b: real, d: real)
    requires d > 0.0 && a <= b - d
    ensures a / d <= b / d - 1.0
  {
    assert a / d * d == a && b / d * d == b;
    if a / d > b / d - 1.0 {
      MulStrict(b / d - 1.0, a / d, d);
    }
  }

  lemma MulStrict(x: real, y: real, d: real)
    requires x < y && d > 0.0
    ensures x * d < y * d
  {
  }

  // ----- runs -----

  datatype Event = Refill(elapsed: real) | Take(n: real)

  function Step(l: Level, e: Event): Level {
    match e
    case Refill(dt) => l.Refilled(dt)
    case Take(n) => if l.tokens >= n then l.(tokens := l.tokens - n) else l
  }

  function TakenBy(l: Level, e: Event): real {
    if e.Take? && l.tokens >= e.n then e.n else 0.0
  }

  function Run(l: Level, events: seq<Event>): Level {
    if events == [] then l else Step(Run(l, events[..|events| - 1]), events[|events| - 1])
  }

  /** Bytes taken over a run. */
  function Taken(l: Level, events: seq<Event>): real {
    if events == [] then 0.0
    else
      var n := |events| - 1;
      Taken(l, events[..n]) + TakenBy(Run(l, events[..n]), events[n])
  }

  function Passes(e: Event): real {
    match e
    case Refill(dt) => Max(dt, 0.0)
    case Take(_) => 0.0
  }

  /** Time that passed over a run. */
  function Elapsed(events: seq<Event>): real {
    if events == [] then 0.0 else Elapsed(events[..|events| - 1]) + Passes(events[|events| - 1])
  }

  ghost predicate Sensible(events: seq<Event>) {
    forall i | 0 <= i < |events| && events[i].Take? :: events[i].n >= 0.0
  }

  /** What `rate` adds over a time span. */
  function Earned(rate: real, time: real): real {
    rate * time
  }

  lemma EarnedAdds(rate: real, a: real, b: real)
    ensures Earned(rate, a + b) == Earned(rate, a) + Earned(rate, b)
  {
  }

  lemma StepConserves(l: Level, e: Event)
    requires l.Valid() && (e.Take? ==> e.n >= 0.0)
    ensures Step(l, e).Valid() && Step(l, e).rate == l.rate && Step(l, e).burst == l.burst
    ensures TakenBy(l, e) + Step(l, e).tokens <= l.tokens + Earned(l.rate, Passes(e))
  {
  }

  /** Tokens stay within bounds, and what was taken is paid for by the starting level and the elapsed time. */
  lemma {:induction false} RunConserves(l: Level, events: seq<Event>)
    requires l.Valid() && Sensible(events)
    ensures Run(l, events).Valid() && Run(l, events).rate == l.rate && Run(l, events).burst == l.burst
    ensures Taken(l, events) + Run(l, events).tokens <= l.tokens + Earned(l.rate, Elapsed(events))
  {
    hide Earned, Step, TakenBy, Passes;
    if events == [] {
      EarnedZero(l.rate);
    } else {
      var n := |events| - 1;
      RunConserves(l, events[..n]);
      StepConserves(Run(l, events[..n]), events[n]);
      EarnedAdds(l.rate, Elapsed(events[..n]), Passes(events[n]));
    }
  }

  /** No refill of the run is cut off at the burst. */
  ghost predicate NeverFull(l: Level, events: seq<Event>) {
    forall i | 0 <= i < |events| :: Run(l, events[..i]).tokens + Earned(l.rate, Passes(events[i])) <= l.burst
  }

  lemma StepLosesNothing(l: Level, e: Event)
    requires l.Valid() && l.tokens + Earned(l.rate, Passes(e)) <= l.burst
    ensures TakenBy(l, e) + Step(l, e).tokens == l.tokens + Earned(l.rate, Passes(e))
  {
  }

  /** As long as the bucket is never full, nothing is lost: taken plus left is start plus earned. */
  lemma {:induction false} RunLosesNothing(l: Level, events: seq<Event>)
    requires l.Valid() && Sensible(events) && NeverFull(l, events)
    ensures Taken(l, events) + Run(l, events).tokens == l.tokens + Earned(l.rate, Elapsed(events))
  {
    RunConserves(l, events);
    if events == [] {
      EarnedZero(l.rate);
    } else {
      var n := |events| - 1;
      var before := Run(l, events[..n]);
      assert NeverFull(l, events[..n]) by {
        assert forall i | 0 <= i < n :: events[..n][..i] == events[..i];
      }
      RunLosesNothing(l, events[..n]);
      RunConserves(l, events[..n]);
      assert before.tokens + Earned(l.rate, Passes(events[n])) <= l.burst;
      StepLosesNothing(before, events[n]);
      hide Earned, Step, TakenBy, Passes;
      EarnedAdds(l.rate, Elapsed(events[..n]), Passes(events[n]));
    }
  }

  lemma EarnedZero(rate: real)
    ensures Earned(rate, 0.0) == 0.0
  {
  }

  /** In any window of any run at most one burst plus rate times the elapsed time is taken. */
  lemma WindowCapped(l: Level, events: seq<Event>, i: nat, j: nat)
    requires l.Valid() && Sensible(events) && i <= j <= |events|
    ensures Taken(Run(l, events[..i]), events[i..j]) <= l.burst + Earned(l.rate, Elapsed(events[i..j]))
  {
    hide Earned, Step, TakenBy, Passes;
    RunConserves(l, events[..i]);
    RunConserves(Run(l, events[..i]), events[i..j]);
  }
}
