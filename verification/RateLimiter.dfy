/** The per-key token bucket. Floats are reals and times are seconds; the clock never runs back. */
module RateLimiter {

  datatype Bucket = Bucket(tokens: real, last: real)

  type Table = map<string, Bucket>

  /** `rate` 0 is the limiter that allows everything. */
  datatype Limits = Limits(rate: real, burst: real)

  function NewLimits(perWindow: int, window: real): (l: Limits)
    ensures ValidLimits(l)
    ensures perWindow > 0 && window > 0.0 ==> l.rate * window == l.burst == perWindow as real
    ensures l.rate == 0.0 <==> perWindow <= 0 || window <= 0.0
  {
    if perWindow > 0 && window > 0.0 then
      assert perWindow as real / window > 0.0 by { Positive(perWindow as real, window); }
      Limits(perWindow as real / window, perWindow as real)
    else Limits(0.0, 0.0)
  }

  lemma Positive(a: real, b: real)
    requires a > 0.0 && b > 0.0
    ensures a / b > 0.0
  {
    if a / b <= 0.0 {
      assert a == (a / b) * b;
    }
  }

  predicate ValidLimits(l: Limits) {
    (l.rate == 0.0 && l.burst == 0.0) || (l.rate > 0.0 && l.burst >= 1.0)
  }

  function Min(a: real, b: real): (r: real) { if a > b then b else a }

  /** The tokens added between two times. */
  function Earned(l: Limits, from: real, to: real): (r: real) { (to - from) * l.rate }

  function Refilled(l: Limits, b: Bucket, now: real): (r: real) {
    Min(l.burst, b.tokens + Earned(l, b.last, now))
  }

  function Ask(l: Limits, t: Table, key: string, now: real): (r: (Table, bool)) {
    if l.rate == 0.0 then (t, true)
    else
      var b := if key in t then t[key] else Bucket(l.burst, now);
      var tokens := Refilled(l, b, now);
      if tokens < 1.0 then (t[key := Bucket(tokens, now)], false)
      else (t[key := Bucket(tokens - 1.0, now)], true)
  }

  function SweepIdle(t: Table, maxIdle: real, now: real): (r: Table) {
    map k | k in t && !(t[k].last < now - maxIdle) :: t[k]
  }

  class Limiter {
    const limits: Limits
    var buckets: Table

    constructor (perWindow: int, window: real)
      ensures limits == NewLimits(perWindow, window) && buckets == map[]
    {
      limits := NewLimits(perWindow, window);
      buckets := map[];
    }

    method Allow(key: string, now: real) returns (ok: bool)
      modifies this
      ensures (buckets, ok) == Ask(limits, old(buckets), key, now)
      ensures limits.rate == 0.0 ==> ok && buckets == old(buckets)
      ensures limits.rate != 0.0 ==>
        var had := if key in old(buckets) then old(buckets)[key].tokens + (now - old(buckets)[key].last) * limits.rate else limits.burst;
        var tokens := if had > limits.burst then limits.burst else had;
        ok == (tokens >= 1.0) && buckets == old(buckets)[key := Bucket(if ok then tokens - 1.0 else tokens, now)]
    {
      assert Earned(limits, now, now) == 0.0 * limits.rate == 0.0;
      assert key in buckets ==> Earned(limits, buckets[key].last, now) == (now - buckets[key].last) * limits.rate;
      hide Earned;
      if limits.rate == 0.0 { return true; }
      var b := Bucket(limits.burst, now);
      if key in buckets { b := buckets[key]; }
      var tokens := b.tokens + Earned(limits, b.last, now);
      if tokens > limits.burst { tokens := limits.burst; }
      ok := !(tokens < 1.0);
      if ok { tokens := tokens - 1.0; }
      buckets := buckets[key := Bucket(tokens, now)];
    }

    method Sweep(maxIdle: real, now: real)
      modifies this
      ensures buckets == SweepIdle(old(buckets), maxIdle, now)
      ensures forall k :: k in buckets <==> k in old(buckets) && old(buckets)[k].last >= now - maxIdle
      ensures forall k :: k in buckets ==> buckets[k] == old(buckets)[k]
    {
      var cutoff := now - maxIdle;
      var todo := buckets.Keys;
      ghost var target := SweepIdle(buckets, maxIdle, now);
      while todo != {}
        invariant todo <= buckets.Keys && SweepIdle(buckets, maxIdle, now) == target
        invariant forall k :: k in buckets && k !in todo ==> buckets[k].last >= cutoff
        decreases todo
      {
        var k :| k in todo;
        todo := todo - {k};
        if buckets[k].last < cutoff {
          assert SweepIdle(buckets - {k}, maxIdle, now) == SweepIdle(buckets, maxIdle, now);
          buckets := buckets - {k};
        }
      }
      assert SweepIdle(buckets, maxIdle, now) == buckets;
    }
  }

  // ------------------------------------------------------------------
  // What a table is worth to a key
  // ------------------------------------------------------------------

  /** The tokens `key` could draw on at `now`; a key without a bucket has a full one. */
  function Level(l: Limits, t: Table, key: string, now: real): (r: real) {
    if key in t then Refilled(l, t[key], now) else l.burst
  }

  ghost predicate Sound(l: Limits, t: Table, now: real) {
    forall k :: k in t ==> 0.0 <= t[k].tokens <= l.burst && t[k].last <= now
  }

  lemma Growth(l: Limits, a: real, b: real, c: real)
    requires l.rate > 0.0 && a <= b <= c
    ensures 0.0 <= Earned(l, a, b) && 0.0 <= Earned(l, b, c) && Earned(l, a, a) == 0.0
    ensures Earned(l, a, b) + Earned(l, b, c) == Earned(l, a, c)
  {
  }

  /** Over time a level rises by at most the rate, and never above the burst. */
  lemma LevelGrows(l: Limits, t: Table, key: string, now: real, later: real)
    requires l.rate > 0.0 && l.burst >= 1.0 && Sound(l, t, now) && now <= later
    ensures 0.0 <= Level(l, t, key, now) <= l.burst
    ensures Level(l, t, key, later) <= Level(l, t, key, now) + Earned(l, now, later)
    ensures Level(l, t, key, later) == Min(l.burst, Level(l, t, key, now) + Earned(l, now, later))
  {
    Growth(l, now, now, later);
    if key in t { Growth(l, t[key].last, now, later); }
  }

  /** A request is granted exactly when a whole token is there; it takes it and touches no other key. */
  lemma AskSpends(l: Limits, t: Table, key: string, now: real, other: string)
    requires l.rate > 0.0 && l.burst >= 1.0 && Sound(l, t, now)
    ensures var (t', ok) := Ask(l, t, key, now);
      && Sound(l, t', now)
      && (ok <==> Level(l, t, key, now) >= 1.0)
      && Level(l, t', other, now) == Level(l, t, other, now) - (if ok && other == key then 1.0 else 0.0)
  {
    Growth(l, now, now, now);
    if key in t { Growth(l, t[key].last, now, now); }
    if other in t { Growth(l, t[other].last, now, now); }
  }

  // ------------------------------------------------------------------
  // Runs
  // ------------------------------------------------------------------

  datatype Event =
    | Asks(key: string, at: real)
    | Sweeps(maxIdle: real, at: real)

  ghost predicate Timed(events: seq<Event>, from: real)
    decreases |events|
  {
    events == [] || (from <= events[0].at && Timed(events[1..], events[0].at))
  }

  function After(l: Limits, t: Table, e: Event): (r: (Table, bool)) {
    match e
    case Asks(key, at) => Ask(l, t, key, at)
    case Sweeps(maxIdle, at) => (SweepIdle(t, maxIdle, at), false)
  }

  /** How many requests of `key` between `from` and `to` a run grants. */
  function Granted(l: Limits, t: Table, events: seq<Event>, key: string, from: real, to: real): (n: nat)
    decreases |events|
  {
    if events == [] then 0
    else
      var e := events[0];
      var (t', ok) := After(l, t, e);
      (if ok && e == Asks(key, e.at) && from <= e.at <= to then 1 else 0) + Granted(l, t', events[1..], key, from, to)
  }

  /** Every sweep waits at least a full window, the time an empty bucket takes to fill. */
  ghost predicate Patient(l: Limits, events: seq<Event>) {
    forall i :: 0 <= i < |events| && events[i].Sweeps? ==> events[i].maxIdle * l.rate >= l.burst
  }

  /** A bucket idle for a window is full, so a patient sweep leaves every level as it was. */
  lemma PatientSweepKeepsLevels(l: Limits, t: Table, maxIdle: real, now: real, key: string, later: real)
    requires l.rate > 0.0 && l.burst >= 1.0 && Sound(l, t, now) && maxIdle * l.rate >= l.burst && now <= later
    ensures Level(l, SweepIdle(t, maxIdle, now), key, later) == Level(l, t, key, later)
  {
    if key in t && t[key].last < now - maxIdle {
      assert (later - t[key].last - maxIdle) * l.rate >= 0.0;
      assert (later - t[key].last) * l.rate >= maxIdle * l.rate;
    }
  }

  lemma EventKeepsSound(l: Limits, t: Table, e: Event)
    requires l.rate > 0.0 && l.burst >= 1.0 && Sound(l, t, e.at)
    ensures Sound(l, After(l, t, e).0, e.at)
  {
    if e.Asks? { AskSpends(l, t, e.key, e.at, e.key); }
  }

  /** What one event takes from a key's level is what it grants that key. */
  lemma EventSpends(l: Limits, t: Table, e: Event, key: string)
    requires l.rate > 0.0 && l.burst >= 1.0 && Sound(l, t, e.at) && Patient(l, [e])
    ensures var (t', ok) := After(l, t, e);
      && Sound(l, t', e.at)
      && Level(l, t', key, e.at) == Level(l, t, key, e.at) - (if ok && e == Asks(key, e.at) then 1.0 else 0.0)
  {
    EventKeepsSound(l, t, e);
    if e.Asks? { AskSpends(l, t, e.key, e.at, key); }
    else {
      assert [e][0] == e;
      PatientSweepKeepsLevels(l, t, e.maxIdle, e.at, key, e.at);
    }
  }

  lemma Chain(g: nat, rest: nat, levelNow: real, levelThen: real, levelAfter: real, before: real, after: real)
    requires rest as real <= levelAfter + after
    requires levelAfter <= levelThen - g as real && levelThen <= levelNow + before
    ensures (g + rest) as real <= levelNow + (before + after)
  {
  }

  lemma {:induction false} GrantedFromLevel(l: Limits, t: Table, events: seq<Event>, key: string, from: real, now: real, to: real)
    requires l.rate > 0.0 && l.burst >= 1.0 && Sound(l, t, now) && Timed(events, now) && Patient(l, events) && now <= to
    ensures Granted(l, t, events, key, from, to) as real <= Level(l, t, key, now) + Earned(l, now, to)
    decreases |events|
  {
    hide Earned, Refilled;
    LevelGrows(l, t, key, now, to);
    Growth(l, now, now, to);
    if events != [] {
      var e := events[0];
      if e.at > to {
        NothingGrantedLater(l, t, events, key, from, now, to);
      } else {
        var t' := After(l, t, e).0;
        assert Patient(l, [e]) && Patient(l, events[1..]);
        EventSpends(l, t, e, key);
        GrantedFromLevel(l, t', events[1..], key, from, e.at, to);
        LevelGrows(l, t, key, now, e.at);
        Growth(l, now, e.at, to);
        var rest := Granted(l, t', events[1..], key, from, to);
        var g := Granted(l, t, events, key, from, to) - rest;
        Chain(g, rest, Level(l, t, key, now), Level(l, t, key, e.at), Level(l, t', key, e.at),
              Earned(l, now, e.at), Earned(l, e.at, to));
      }
    }
  }

  lemma {:induction false} NothingGrantedLater(l: Limits, t: Table, events: seq<Event>, key: string, from: real, now: real, to: real)
    requires Timed(events, now) && (events == [] || events[0].at > to)
    ensures Granted(l, t, events, key, from, to) == 0
    decreases |events|
  {
    if events != [] {
      NothingGrantedLater(l, After(l, t, events[0]).0, events[1..], key, from, events[0].at, to);
    }
  }

  lemma {:induction false} GrantedInInterval(l: Limits, t: Table, events: seq<Event>, key: string, now: real, from: real, to: real)
    requires l.rate > 0.0 && l.burst >= 1.0 && Sound(l, t, now) && Timed(events, now) && Patient(l, events) && from <= to
    ensures Granted(l, t, events, key, from, to) as real <= l.burst + Earned(l, from, to)
    decreases |events|
  {
    hide Earned, Refilled;
    Growth(l, from, from, to);
    if events != [] {
      var e := events[0];
      if e.at < from {
        EventKeepsSound(l, t, e);
        assert Patient(l, events[1..]);
        GrantedInInterval(l, After(l, t, e).0, events[1..], key, e.at, from, to);
      } else if e.at > to {
        NothingGrantedLater(l, t, events, key, from, now, to);
      } else {
        LevelGrows(l, t, key, e.at, e.at);
        GrantedFromLevel(l, t, events, key, from, e.at, to);
        Growth(l, from, e.at, to);
      }
    }
  }

  lemma WindowFills(perWindow: int, window: real, idle: real)
    requires perWindow > 0 && 0.0 < window <= idle
    ensures var l := NewLimits(perWindow, window); idle * l.rate >= l.burst
  {
    var l := NewLimits(perWindow, window);
    assert idle * l.rate == window * l.rate + (idle - window) * l.rate;
  }

  /** In every run, and every interval of length T, a key is granted at most burst + rate * T. */
  lemma GrantsBounded(perWindow: int, window: real, events: seq<Event>, key: string, start: real, from: real, to: real)
    requires perWindow > 0 && window > 0.0 && from <= to && Timed(events, start)
    requires forall i :: 0 <= i < |events| && events[i].Sweeps? ==> events[i].maxIdle >= window
    ensures var l := NewLimits(perWindow, window);
      Granted(l, map[], events, key, from, to) as real <= perWindow as real + (to - from) * l.rate
  {
    hide NewLimits, Granted, Timed;
    var l := NewLimits(perWindow, window);
    forall i | 0 <= i < |events| && events[i].Sweeps?
      ensures events[i].maxIdle * l.rate >= l.burst
    {
      WindowFills(perWindow, window, events[i].maxIdle);
    }
    GrantedInInterval(l, map[], events, key, start, from, to);
    assert Earned(l, from, to) == (to - from) * l.rate;
  }

  // ------------------------------------------------------------------
  // Sweeping is invisible exactly when it is patient
  // ------------------------------------------------------------------

  function Verdicts(l: Limits, t: Table, events: seq<Event>): (r: seq<bool>)
    decreases |events|
  {
    if events == [] then []
    else
      var (t', ok) := After(l, t, events[0]);
      (if events[0].Asks? then [ok] else []) + Verdicts(l, t', events[1..])
  }

  function WithoutSweeps(events: seq<Event>): (r: seq<Event>) {
    if events == [] then []
    else if events[0].Sweeps? then WithoutSweeps(events[1..])
    else [events[0]] + WithoutSweeps(events[1..])
  }

  ghost predicate SameLevels(l: Limits, a: Table, b: Table, now: real) {
    forall key :: Level(l, a, key, now) == Level(l, b, key, now)
  }

  lemma SameLevelsLater(l: Limits, a: Table, b: Table, now: real, later: real)
    requires l.rate > 0.0 && l.burst >= 1.0 && Sound(l, a, now) && Sound(l, b, now) && SameLevels(l, a, b, now) && now <= later
    ensures SameLevels(l, a, b, later) && Sound(l, a, later) && Sound(l, b, later)
  {
    forall key
      ensures Level(l, a, key, later) == Level(l, b, key, later)
    {
      LevelGrows(l, a, key, now, later);
      LevelGrows(l, b, key, now, later);
    }
  }

  /** All verdicts of a run with patient sweeps equal those of the run without them. */
  lemma {:induction false} PatientSweepsInvisible(l: Limits, a: Table, b: Table, events: seq<Event>, now: real)
    requires l.rate > 0.0 && l.burst >= 1.0 && Sound(l, a, now) && Sound(l, b, now) && SameLevels(l, a, b, now)
    requires Timed(events, now) && Patient(l, events)
    ensures Verdicts(l, a, events) == Verdicts(l, b, WithoutSweeps(events))
    decreases |events|
  {
    if events != [] {
      var e := events[0];
      SameLevelsLater(l, a, b, now, e.at);
      var a' := After(l, a, e).0;
      EventKeepsSound(l, a, e);
      assert Patient(l, events[1..]);
      if e.Sweeps? {
        forall key
          ensures Level(l, a', key, e.at) == Level(l, b, key, e.at)
        {
          PatientSweepKeepsLevels(l, a, e.maxIdle, e.at, key, e.at);
        }
        PatientSweepsInvisible(l, a', b, events[1..], e.at);
      } else {
        var b' := After(l, b, e).0;
        EventKeepsSound(l, b, e);
        forall key
          ensures Level(l, a', key, e.at) == Level(l, b', key, e.at)
        {
          AskSpends(l, a, e.key, e.at, key);
          AskSpends(l, b, e.key, e.at, key);
        }
        AskSpends(l, a, e.key, e.at, e.key);
        AskSpends(l, b, e.key, e.at, e.key);
        PatientSweepsInvisible(l, a', b', events[1..], e.at);
        var rest := WithoutSweeps(events[1..]);
        assert ([e] + rest)[1..] == rest;
      }
    }
  }

  /** A sweep that waits less than the window hands tokens back to some key: the bound is tight. */
  lemma SweepInvisibleExactly(l: Limits, maxIdle: real)
    requires l.rate > 0.0 && l.burst >= 1.0 && maxIdle >= 0.0
    ensures (forall t, now :: Sound(l, t, now) ==> SameLevels(l, SweepIdle(t, maxIdle, now), t, now)) <==> maxIdle * l.rate >= l.burst
  {
    if maxIdle * l.rate >= l.burst {
      forall t, now | Sound(l, t, now)
        ensures SameLevels(l, SweepIdle(t, maxIdle, now), t, now)
      {
        forall key
          ensures Level(l, SweepIdle(t, maxIdle, now), key, now) == Level(l, t, key, now)
        {
          PatientSweepKeepsLevels(l, t, maxIdle, now, key, now);
        }
      }
    } else {
      var window := l.burst / l.rate;
      assert window * l.rate == l.burst;
      assert maxIdle < window by {
        assert maxIdle >= window ==> (maxIdle - window) * l.rate >= 0.0;
      }
      var now := (maxIdle + window) / 2.0;
      assert now * l.rate < l.burst by { assert (window - now) * l.rate > 0.0; }
      var t := map["k" := Bucket(0.0, 0.0)];
      assert Sound(l, t, now);
      assert Level(l, t, "k", now) == now * l.rate;
      assert "k" !in SweepIdle(t, maxIdle, now);
      assert Level(l, SweepIdle(t, maxIdle, now), "k", now) == l.burst;
      assert !SameLevels(l, SweepIdle(t, maxIdle, now), t, now);
    }
  }

  // ------------------------------------------------------------------
  // What is certain to be granted
  // ------------------------------------------------------------------

  /** Whether the k-th event of a run is granted. */
  function GrantedAt(l: Limits, t: Table, events: seq<Event>, k: nat): (ok: bool)
    requires k < |events|
    decreases k
  {
    if k == 0 then After(l, t, events[0]).1 else GrantedAt(l, After(l, t, events[0]).0, events[1..], k - 1)
  }

  /** The requests of `key` come at or after `free`, and each at least the time of one token after the
      one before. */
  ghost predicate Paced(l: Limits, events: seq<Event>, key: string, free: real)
    requires l.rate > 0.0
    decreases |events|
  {
    events == []
    || if events[0].Asks? && events[0].key == key then free <= events[0].at && Paced(l, events[1..], key, events[0].at + 1.0 / l.rate)
       else Paced(l, events[1..], key, free)
  }

  lemma TokenTime(l: Limits, at: real)
    requires l.rate > 0.0
    ensures Earned(l, at, at + 1.0 / l.rate) == 1.0 && at + 1.0 / l.rate > at
  {
    var d := 1.0 / l.rate;
    assert d * l.rate == 1.0;
    assert (at + d) - at == d;
    Positive(1.0, l.rate);
  }

  /** A key that spaces its requests by the time of one token is never refused. */
  lemma {:induction false} PacedNeverRefused(l: Limits, t: Table, events: seq<Event>, key: string, now: real, free: real, k: nat)
    requires l.rate > 0.0 && l.burst >= 1.0 && Sound(l, t, now) && Timed(events, now) && Patient(l, events)
    requires now <= free && Level(l, t, key, free) >= 1.0 && Paced(l, events, key, free)
    requires k < |events| && events[k].Asks? && events[k].key == key
    ensures GrantedAt(l, t, events, k)
    decreases k
  {
    var e := events[0];
    assert Patient(l, [e]) by { assert [e][0] == e; }
    assert Patient(l, events[1..]) by { assert forall i :: 0 <= i < |events| - 1 ==> events[1..][i] == events[i + 1]; }
    assert Sound(l, t, e.at);
    EventSpends(l, t, e, key);
    hide Refilled, Earned, Sound, Patient;
    if e.Asks? && e.key == key {
      PacedGrant(l, t, key, free, e.at);
      if k > 0 {
        NextIsFree(l, After(l, t, e).0, key, e.at);
        TokenTime(l, e.at);
        PacedNeverRefused(l, After(l, t, e).0, events[1..], key, e.at, e.at + 1.0 / l.rate, k - 1);
      }
    } else {
      var free' := if free < e.at then e.at else free;
      OtherEvent(l, t, e, key, now, free, free');
      PacedLater(l, events[1..], key, free, free', e.at);
      PacedNeverRefused(l, After(l, t, e).0, events[1..], key, e.at, free', k - 1);
    }
  }

  lemma PacedGrant(l: Limits, t: Table, key: string, free: real, at: real)
    requires l.rate > 0.0 && l.burst >= 1.0 && Sound(l, t, at) && free <= at && Level(l, t, key, free) >= 1.0
    ensures Ask(l, t, key, at).1
  {
    AskSpends(l, t, key, at, key);
    if key in t { EarnsMore(l, t[key].last, free, at); }
  }

  lemma EarnsMore(l: Limits, a: real, b: real, c: real)
    requires l.rate > 0.0 && b <= c
    ensures Earned(l, a, b) <= Earned(l, a, c)
  {
    assert (c - a) * l.rate == (b - a) * l.rate + (c - b) * l.rate;
  }

  lemma NextIsFree(l: Limits, t: Table, key: string, at: real)
    requires l.rate > 0.0 && l.burst >= 1.0 && Sound(l, t, at)
    ensures Level(l, t, key, at + 1.0 / l.rate) >= 1.0
  {
    TokenTime(l, at);
    LevelGrows(l, t, key, at, at + 1.0 / l.rate);
    hide Refilled, Earned, Sound;
  }

  lemma OtherEvent(l: Limits, t: Table, e: Event, key: string, now: real, free: real, free': real)
    requires l.rate > 0.0 && l.burst >= 1.0 && Sound(l, t, e.at) && Patient(l, [e]) && !(e.Asks? && e.key == key)
    requires free <= free' && e.at <= free' && Level(l, t, key, free) >= 1.0
    ensures Level(l, After(l, t, e).0, key, free') >= 1.0
  {
    if key in t { EarnsMore(l, t[key].last, free, free'); }
    assert Level(l, t, key, free') >= 1.0;
    if e.Sweeps? {
      assert [e][0] == e;
      PatientSweepKeepsLevels(l, t, e.maxIdle, e.at, key, free');
    }
  }

  lemma {:induction false} PacedLater(l: Limits, events: seq<Event>, key: string, free: real, free': real, now: real)
    requires l.rate > 0.0 && Timed(events, now) && Paced(l, events, key, free) && free' == if free < now then now else free
    ensures Paced(l, events, key, free')
    decreases |events|
  {
    if events != [] && !(events[0].Asks? && events[0].key == key) {
      var at := events[0].at;
      var free'' := if free < at then at else free;
      PacedLater(l, events[1..], key, free, free'', at);
      PacedEarlier(l, events[1..], key, free'', free');
    }
  }

  lemma {:induction false} PacedEarlier(l: Limits, events: seq<Event>, key: string, free: real, earlier: real)
    requires l.rate > 0.0 && Paced(l, events, key, free) && earlier <= free
    ensures Paced(l, events, key, earlier)
    decreases |events|
  {
    if events != [] && !(events[0].Asks? && events[0].key == key) { PacedEarlier(l, events[1..], key, free, earlier); }
  }

  /** A limiter as constructed never refuses a key that keeps to the configured rate, and refuses nobody
      at all if it was given no limit. */
  lemma KeepingTheRateIsEnough(perWindow: int, window: real, events: seq<Event>, key: string, start: real, k: nat)
    requires Timed(events, start) && k < |events| && events[k].Asks? && events[k].key == key
    requires perWindow > 0 && window > 0.0 ==>
      && Paced(NewLimits(perWindow, window), events, key, start)
      && forall i :: 0 <= i < |events| && events[i].Sweeps? ==> events[i].maxIdle >= window
    ensures GrantedAt(NewLimits(perWindow, window), map[], events, k)
  {
    var l := NewLimits(perWindow, window);
    if perWindow > 0 && window > 0.0 {
      forall i | 0 <= i < |events| && events[i].Sweeps? ensures events[i].maxIdle * l.rate >= l.burst {
        WindowFills(perWindow, window, events[i].maxIdle);
      }
      PacedNeverRefused(l, map[], events, key, start, start, k);
    } else {
      NoLimitNoRefusal(l, map[], events, k);
    }
  }

  lemma {:induction false} NoLimitNoRefusal(l: Limits, t: Table, events: seq<Event>, k: nat)
    requires l.rate == 0.0 && k < |events| && events[k].Asks?
    ensures GrantedAt(l, t, events, k)
    decreases k
  {
    if k > 0 { NoLimitNoRefusal(l, After(l, t, events[0]).0, events[1..], k - 1); }
  }
}
