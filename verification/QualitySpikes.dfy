/** Window and stabilizer together: what one odd sample in a steady stream does to the stable status. */
module QualitySpikes {
  import opened Wrappers
  import opened Quality
  import H = Hysteresis
  import E = QualityEngine

  // ------------------------------------------------------------------
  // A stream as a fold over its interval rates
  // ------------------------------------------------------------------

  function VerdictOn(ds: seq<Derived>, k: Kind, cfg: Config): (s: Status)
    requires ds != []
  {
    Analyze(k, Mean(Newest(ds, E.WindowSize(cfg))), cfg).status
  }

  /** The stabilizer after a series of interval rates. */
  function Watched(ds: seq<Derived>, k: Kind, cfg: Config): (s: H.Stab) {
    if ds == [] then H.NewStab(cfg.degradeSamples, cfg.recoverSamples)
    else H.Observe(Watched(ds[..|ds| - 1], k, cfg), VerdictOn(ds, k, cfg))
  }

  datatype Arrival = Arrival(sample: Sample, now: int, at: int)

  function Fed(arrivals: seq<Arrival>, k: Kind, cfg: Config, start: int): (st: E.Stream) {
    if arrivals == [] then E.NewStream(cfg, start)
    else
      var a := arrivals[|arrivals| - 1];
      E.Feed(Fed(arrivals[..|arrivals| - 1], k, cfg, start), k, a.sample, cfg, a.now, a.at).0
  }

  function LastOf(arrivals: seq<Arrival>): (s: Option<Sample>) {
    if arrivals == [] then None else Some(arrivals[|arrivals| - 1].sample)
  }

  /** The rates of a sample, if they reach the window. */
  function RateOf(prev: Option<Sample>, sample: Sample): (ds: seq<Derived>) {
    var d := Derive(prev, sample);
    if !d.hasData && d.enabled then [] else [d]
  }

  function Rates(arrivals: seq<Arrival>): (ds: seq<Derived>) {
    if arrivals == [] then []
    else Rates(arrivals[..|arrivals| - 1]) + RateOf(LastOf(arrivals[..|arrivals| - 1]), arrivals[|arrivals| - 1].sample)
  }

  /** The stream is where that fold is. */
  ghost predicate Mirrors(st: E.Stream, ds: seq<Derived>, prev: Option<Sample>, k: Kind, cfg: Config) {
    && st.stab == Watched(ds, k, cfg) && st.buf == Newest(ds, E.WindowSize(cfg)) && st.prev == prev
    && (ds != [] ==> st.last == Analyze(k, Mean(Newest(ds, E.WindowSize(cfg))), cfg).(status := st.stab.stable))
  }

  lemma FeedMirrors(st: E.Stream, ds: seq<Derived>, prev: Option<Sample>, k: Kind, sample: Sample, cfg: Config, now: int, at: int)
    requires Mirrors(st, ds, prev, k, cfg)
    ensures Mirrors(E.Feed(st, k, sample, cfg, now, at).0, ds + RateOf(prev, sample), Some(sample), k, cfg)
  {
    var d := Derive(prev, sample);
    E.NewestOfMore(ds, d, E.WindowSize(cfg));
    assert (ds + [d])[..|ds|] == ds && ds + [] == ds;
    assert Watched(ds + [d], k, cfg) == H.Observe(Watched(ds, k, cfg), VerdictOn(ds + [d], k, cfg));
    hide Derive, Analyze, Mean, H.Observe, Newest, Watched, E.MakeEvent;
  }

  /** An engine stream is that fold over the rates of its samples. */
  lemma {:induction false} StreamIsWatched(arrivals: seq<Arrival>, k: Kind, cfg: Config, start: int)
    ensures Mirrors(Fed(arrivals, k, cfg, start), Rates(arrivals), LastOf(arrivals), k, cfg)
  {
    if arrivals != [] {
      hide Mirrors, E.Feed, RateOf;
      var before, a := arrivals[..|arrivals| - 1], arrivals[|arrivals| - 1];
      StreamIsWatched(before, k, cfg, start);
      FeedMirrors(Fed(before, k, cfg, start), Rates(before), LastOf(before), k, a.sample, cfg, a.now, a.at);
    }
  }

  // ------------------------------------------------------------------
  // Windows of one repeated sample, and with one odd one among them
  // ------------------------------------------------------------------

  function Steady(q: Derived, n: nat): (ds: seq<Derived>) { seq(n, _ => q) }

  /** The same track and transport states. */
  predicate SameStates(p: Derived, q: Derived) {
    p.enabled == q.enabled && p.connState == q.connState && p.iceState == q.iceState
  }

  lemma {:induction false} SteadyTotals(q: Derived, n: nat, m: Metric)
    ensures Reported(Steady(q, n), m) == if Get(q, m).Some? then n else 0
    ensures Get(q, m).Some? ==> Total(Steady(q, n), m) == n as real * Get(q, m).value
  {
    if n > 0 {
      assert Steady(q, n)[..n - 1] == Steady(q, n - 1);
      SteadyTotals(q, n - 1, m);
      if Get(q, m).Some? {
        var x := Get(q, m).value;
        assert n as real * x == (n - 1) as real * x + x;
      }
    }
  }

  lemma SteadyAverage(q: Derived, n: nat, m: Metric)
    requires n > 0
    ensures Average(Steady(q, n), m) == Get(q, m)
  {
    SteadyTotals(q, n, m);
    hide Total, Reported, Steady, Get;
    if Get(q, m).Some? { Cancel(Total(Steady(q, n), m), n as real, Get(q, m).value); }
  }

  lemma Cancel(total: real, n: real, x: real)
    requires n > 0.0 && total == n * x
    ensures total / n == x
  {
  }

  lemma SteadyMean(q: Derived, n: nat)
    requires n > 0
    ensures Mean(Steady(q, n)) == q.(hasData := true)
  {
    SteadyAverage(q, n, Loss);
    SteadyAverage(q, n, Bitrate);
    SteadyAverage(q, n, Jitter);
    SteadyAverage(q, n, Rtt);
    SteadyAverage(q, n, Fps);
    SteadyAverage(q, n, FrameDrop);
    hide Average;
  }

  /** One `p` after i and before j samples `q`. */
  function Odd(q: Derived, p: Derived, i: nat, j: nat): (ds: seq<Derived>) { Steady(q, i) + [p] + Steady(q, j) }

  lemma OddTotals(q: Derived, p: Derived, i: nat, j: nat, m: Metric)
    ensures Total(Odd(q, p, i, j), m) == Total(Steady(q, i + j), m) + Total([p], m)
    ensures Reported(Odd(q, p, i, j), m) == Reported(Steady(q, i + j), m) + Reported([p], m)
  {
    TotalsAdd(Steady(q, i) + [p], Steady(q, j), m);
    TotalsAdd(Steady(q, i), [p], m);
    TotalsAdd(Steady(q, i), Steady(q, j), m);
    assert Steady(q, i) + Steady(q, j) == Steady(q, i + j);
    hide Total, Reported, Steady;
  }

  lemma OddAverage(q: Derived, p: Derived, i: nat, j: nat, m: Metric)
    ensures Average(Odd(q, p, i, j), m) == Average(Odd(q, p, i + j, 0), m)
  {
    OddTotals(q, p, i, j, m);
    OddTotals(q, p, i + j, 0, m);
    hide Total, Reported, Odd, Steady;
  }

  /** It does not matter where in the window the odd sample is. */
  lemma OddMean(q: Derived, p: Derived, i: nat, j: nat)
    requires SameStates(p, q)
    ensures Mean(Odd(q, p, i, j)) == Mean(Odd(q, p, i + j, 0))
  {
    OddAverage(q, p, i, j, Loss);
    OddAverage(q, p, i, j, Bitrate);
    OddAverage(q, p, i, j, Jitter);
    OddAverage(q, p, i, j, Rtt);
    OddAverage(q, p, i, j, Fps);
    OddAverage(q, p, i, j, FrameDrop);
    hide Average;
  }

  // ------------------------------------------------------------------
  // The verdicts of the run
  // ------------------------------------------------------------------

  /** What a full window with the odd sample in it is judged. */
  function OddVerdict(q: Derived, p: Derived, k: Kind, cfg: Config): (s: Status) {
    Analyze(k, Mean(Odd(q, p, E.WindowSize(cfg) - 1, 0)), cfg).status
  }

  function SteadyVerdict(q: Derived, k: Kind, cfg: Config): (s: Status) {
    Analyze(k, q.(hasData := true), cfg).status
  }

  lemma {:induction false} SteadyWatched(q: Derived, n: nat, k: Kind, cfg: Config)
    ensures Watched(Steady(q, n), k, cfg)
      == H.Run(H.NewStab(cfg.degradeSamples, cfg.recoverSamples), H.Repeated(SteadyVerdict(q, k, cfg), n))
  {
    if n > 0 {
      var w := E.WindowSize(cfg);
      assert Steady(q, n)[..n - 1] == Steady(q, n - 1);
      SteadyWatched(q, n - 1, k, cfg);
      assert Newest(Steady(q, n), w) == Steady(q, if n > w then w else n);
      SteadyMean(q, if n > w then w else n);
      RunMore(H.NewStab(cfg.degradeSamples, cfg.recoverSamples), SteadyVerdict(q, k, cfg), n);
      hide Analyze, Mean, H.Observe, H.Run, H.Repeated;
    }
  }

  lemma RunMore(s: H.Stab, v: Status, n: nat)
    ensures H.Run(s, H.Repeated(v, 0)) == s
    ensures n > 0 ==> H.Run(s, H.Repeated(v, n)) == H.Observe(H.Run(s, H.Repeated(v, n - 1)), v)
  {
    if n > 0 { assert H.Repeated(v, n)[..n - 1] == H.Repeated(v, n - 1) && H.Repeated(v, n)[n - 1] == v; }
    hide H.Observe;
  }

  lemma OddStep(q: Derived, p: Derived, a: nat, m: nat, k: Kind, cfg: Config)
    requires SameStates(p, q) && a >= E.WindowSize(cfg) - 1
    ensures Watched(Odd(q, p, a, m), k, cfg) ==
      H.Observe(Watched(if m == 0 then Steady(q, a) else Odd(q, p, a, m - 1), k, cfg),
                if m < E.WindowSize(cfg) then OddVerdict(q, p, k, cfg) else SteadyVerdict(q, k, cfg))
  {
    VerdictInRun(q, p, a, m, k, cfg);
    DropLast(q, p, a, m);
    hide VerdictOn, OddVerdict, SteadyVerdict, H.Observe, Odd, Steady, SameStates;
  }

  lemma DropLast(q: Derived, p: Derived, a: nat, m: nat)
    ensures var ds := Odd(q, p, a, m); ds != [] && ds[..|ds| - 1] == if m == 0 then Steady(q, a) else Odd(q, p, a, m - 1)
  {
  }

  /** While the odd sample is in the window every verdict is the odd one. */
  lemma {:induction false} OddInWindow(q: Derived, p: Derived, a: nat, m: nat, k: Kind, cfg: Config)
    requires SameStates(p, q) && a >= E.WindowSize(cfg) - 1 && m < E.WindowSize(cfg)
    ensures Watched(Odd(q, p, a, m), k, cfg) == H.Run(Watched(Steady(q, a), k, cfg), H.Repeated(OddVerdict(q, p, k, cfg), m + 1))
  {
    hide Watched, OddVerdict, SteadyVerdict, H.Observe, H.Repeated, H.Run, Odd, Steady;
    OddStep(q, p, a, m, k, cfg);
    RunMore(Watched(Steady(q, a), k, cfg), OddVerdict(q, p, k, cfg), m + 1);
    if m > 0 { OddInWindow(q, p, a, m - 1, k, cfg); }
  }

  /** Afterwards every verdict is the steady one. */
  lemma {:induction false} OddPastWindow(q: Derived, p: Derived, a: nat, m: nat, k: Kind, cfg: Config)
    requires SameStates(p, q) && a >= E.WindowSize(cfg) - 1 && m >= E.WindowSize(cfg)
    ensures var w := E.WindowSize(cfg);
      Watched(Odd(q, p, a, m), k, cfg) == H.Run(Watched(Odd(q, p, a, w - 1), k, cfg), H.Repeated(SteadyVerdict(q, k, cfg), m + 1 - w))
  {
    hide Watched, OddVerdict, SteadyVerdict, H.Observe, H.Repeated, H.Run, Odd, Steady;
    var w := E.WindowSize(cfg);
    OddStep(q, p, a, m, k, cfg);
    RunMore(Watched(Odd(q, p, a, w - 1), k, cfg), SteadyVerdict(q, k, cfg), m + 1 - w);
    if m > w { OddPastWindow(q, p, a, m - 1, k, cfg); }
  }

  lemma VerdictInRun(q: Derived, p: Derived, a: nat, m: nat, k: Kind, cfg: Config)
    requires SameStates(p, q) && a >= E.WindowSize(cfg) - 1
    ensures VerdictOn(Odd(q, p, a, m), k, cfg) == if m < E.WindowSize(cfg) then OddVerdict(q, p, k, cfg) else SteadyVerdict(q, k, cfg)
  {
    var w, ds := E.WindowSize(cfg), Odd(q, p, a, m);
    if m < w {
      assert Newest(ds, w) == Odd(q, p, w - 1 - m, m);
      OddMean(q, p, w - 1 - m, m);
    } else {
      assert Newest(ds, w) == Steady(q, w);
      SteadyMean(q, w);
    }
    hide Analyze, Mean, Odd;
  }

  // ------------------------------------------------------------------
  // The stabilizer on such a run
  // ------------------------------------------------------------------

  lemma {:induction false} SameAgain(s: H.Stab, v: Status, n: nat)
    requires v == s.stable
    ensures H.Run(s, H.Repeated(v, n)).stable == v
  {
    if n > 0 {
      RunMore(s, v, n);
      SameAgain(s, v, n - 1);
    }
  }

  /** Enough steady samples settle a new stream on their verdict. */
  lemma {:induction false} Settles(v: Status, n: nat, degrade: int, recover: int)
    requires v == Unknown || n >= H.AtLeastOne(degrade)
    ensures var s := H.Run(H.NewStab(degrade, recover), H.Repeated(v, n));
      s.stable == v && s.streak == 0 && s.degrade == degrade && s.recover == recover
  {
    H.SustainedVerdictWins(H.NewStab(degrade, recover), v, n);
    if n > 0 {
      RunMore(H.NewStab(degrade, recover), v, n);
      H.SustainedVerdictWins(H.NewStab(degrade, recover), v, n - 1);
      if v == Unknown { Settles(v, n - 1, degrade, recover); }
    }
    hide H.Repeated, H.Need;
  }

  /** The status shown when `m` more steady samples have followed the odd one. */
  function StatusAfter(q: Derived, p: Derived, a: nat, m: nat, k: Kind, cfg: Config): (s: Status) {
    Watched(Odd(q, p, a, m), k, cfg).stable
  }

  /** In a stream that has settled on one verdict, one odd sample ever moves the stable status exactly
      when the full window with it is judged differently and the window is at least as long as the
      count that change needs. */
  lemma OddSampleMovesStatusExactly(q: Derived, p: Derived, a: nat, b: nat, k: Kind, cfg: Config)
    requires SameStates(p, q) && a >= E.WindowSize(cfg) - 1 && a >= H.AtLeastOne(cfg.degradeSamples) && b >= E.WindowSize(cfg) - 1
    ensures var v, odd := SteadyVerdict(q, k, cfg), OddVerdict(q, p, k, cfg);
      && Watched(Steady(q, a), k, cfg).stable == v
      && ((exists m: nat :: m <= b && StatusAfter(q, p, a, m, k, cfg) != v) <==>
            odd != v && H.AtLeastOne(H.Need(v, odd, cfg.degradeSamples, cfg.recoverSamples)) <= E.WindowSize(cfg))
  {
    var v, odd, w := SteadyVerdict(q, k, cfg), OddVerdict(q, p, k, cfg), E.WindowSize(cfg);
    var need := H.AtLeastOne(H.Need(v, odd, cfg.degradeSamples, cfg.recoverSamples));
    hide Watched, SteadyVerdict, OddVerdict, H.Run, H.Repeated, H.Need, StatusAfter;
    SteadyWatched(q, a, k, cfg);
    Settles(v, a, cfg.degradeSamples, cfg.recoverSamples);
    if odd != v && need <= w {
      Moves(q, p, a, k, cfg);
      assert StatusAfter(q, p, a, need - 1, k, cfg) != v;
    } else {
      forall m: nat | m <= b ensures StatusAfter(q, p, a, m, k, cfg) == v { Stays(q, p, a, m, k, cfg); }
    }
  }

  ghost predicate Settled(q: Derived, a: nat, k: Kind, cfg: Config) {
    var s := Watched(Steady(q, a), k, cfg);
    s.stable == SteadyVerdict(q, k, cfg) && s.streak == 0 && s.degrade == cfg.degradeSamples && s.recover == cfg.recoverSamples
  }

  lemma Moves(q: Derived, p: Derived, a: nat, k: Kind, cfg: Config)
    requires SameStates(p, q) && a >= E.WindowSize(cfg) - 1 && Settled(q, a, k, cfg)
    requires H.AtLeastOne(H.Need(SteadyVerdict(q, k, cfg), OddVerdict(q, p, k, cfg), cfg.degradeSamples, cfg.recoverSamples)) <= E.WindowSize(cfg)
    ensures var need := H.AtLeastOne(H.Need(SteadyVerdict(q, k, cfg), OddVerdict(q, p, k, cfg), cfg.degradeSamples, cfg.recoverSamples));
      StatusAfter(q, p, a, need - 1, k, cfg) == OddVerdict(q, p, k, cfg)
  {
    hide Watched, SteadyVerdict, OddVerdict, H.Run, H.Repeated, H.Need;
    var odd := OddVerdict(q, p, k, cfg);
    var need := H.AtLeastOne(H.Need(SteadyVerdict(q, k, cfg), odd, cfg.degradeSamples, cfg.recoverSamples));
    OddInWindow(q, p, a, need - 1, k, cfg);
    H.SustainedVerdictWins(Watched(Steady(q, a), k, cfg), odd, need);
  }

  lemma Stays(q: Derived, p: Derived, a: nat, m: nat, k: Kind, cfg: Config)
    requires SameStates(p, q) && a >= E.WindowSize(cfg) - 1 && Settled(q, a, k, cfg)
    requires var v, odd := SteadyVerdict(q, k, cfg), OddVerdict(q, p, k, cfg);
      odd == v || H.AtLeastOne(H.Need(v, odd, cfg.degradeSamples, cfg.recoverSamples)) > E.WindowSize(cfg)
    ensures StatusAfter(q, p, a, m, k, cfg) == SteadyVerdict(q, k, cfg)
  {
    hide Watched, SteadyVerdict, OddVerdict, H.Run, H.Repeated, H.Need;
    var v, odd, w, s := SteadyVerdict(q, k, cfg), OddVerdict(q, p, k, cfg), E.WindowSize(cfg), Watched(Steady(q, a), k, cfg);
    var n := if m < w then m + 1 else w;
    OddInWindow(q, p, a, n - 1, k, cfg);
    if odd == v { SameAgain(s, odd, n); } else { H.ShortOfNeed(s, odd, n); }
    if m >= w {
      OddPastWindow(q, p, a, m, k, cfg);
      SameAgain(Watched(Odd(q, p, a, w - 1), k, cfg), v, m + 1 - w);
    }
  }

  // ------------------------------------------------------------------
  // The shipped configuration
  // ------------------------------------------------------------------

  /** A sample that reports nothing but packet loss. */
  function LossOnly(x: real): (d: Derived) { Derived(true, true, Some(x), None, None, None, None, None, "", "") }

  lemma LossVerdict(k: Kind, d: Derived)
    requires k != Connection && d.hasData && d.enabled
    requires d.bitrate == d.jitter == d.rtt == d.fps == d.frameDrop == None
    ensures Analyze(k, d, DefaultConfig()).status == Good <==> Grade(Rule(HighPacketLoss, Loss, 2.0, 5.0, 45), d) == 0
  {
    var cfg := DefaultConfig();
    var rules := MediaRules(k, ThresholdsOf(cfg, k));
    GoodMeansNoProblem(rules, d, cfg);
    assert rules[0] == Rule(HighPacketLoss, Loss, 2.0, 5.0, 45);
    assert forall i :: 1 <= i < |rules| ==> rules[i].metric != Loss;
    assert forall i :: 1 <= i < |rules| ==> Grade(rules[i], d) == 0;
    hide MediaRules, Judge, Grade;
  }

  lemma OddLossMean(x: real)
    ensures var d := Mean(Odd(LossOnly(0.0), LossOnly(x), 4, 0));
      && (Grade(Rule(HighPacketLoss, Loss, 2.0, 5.0, 45), d) == 0 <==> x < 10.0)
      && d.hasData && d.enabled && d.bitrate == d.jitter == d.rtt == d.fps == d.frameDrop == None
  {
    var q, buf, r := LossOnly(0.0), Odd(LossOnly(0.0), LossOnly(x), 4, 0), Rule(HighPacketLoss, Loss, 2.0, 5.0, 45);
    assert buf[4] == LossOnly(x) && buf[..4] == Steady(q, 4) && buf[5..] == [];
    SteadyTotals(q, 4, Loss);
    OddTotals(q, LossOnly(x), 4, 0, Loss);
    assert [LossOnly(x)][..0] == [];
    assert Reported([LossOnly(x)], Loss) == 1;
    SpikeAbsorbedExactly(buf, r, 4, x);
    NothingReported(x, Bitrate);
    NothingReported(x, Jitter);
    NothingReported(x, Rtt);
    NothingReported(x, Fps);
    NothingReported(x, FrameDrop);
    hide Grade, Steady, Odd;
  }

  lemma NothingReported(x: real, m: Metric)
    requires m != Loss
    ensures Average(Odd(LossOnly(0.0), LossOnly(x), 4, 0), m) == None
  {
    OddTotals(LossOnly(0.0), LossOnly(x), 4, 0, m);
    SteadyTotals(LossOnly(0.0), 4, m);
    assert [LossOnly(x)][..0] == [];
    assert Reported([LossOnly(x)], m) == 0;
  }

  /** With the shipped configuration one sample's packet loss in an otherwise loss-free stream moves the
      stable status exactly when it is at least ten percent. */
  lemma ShippedLossSpike(k: Kind, x: real, a: nat, b: nat)
    requires k != Connection && a >= 4 && b >= 4
    ensures (exists m: nat :: m <= b && StatusAfter(LossOnly(0.0), LossOnly(x), a, m, k, DefaultConfig()) != Good) <==> x >= 10.0
  {
    hide Analyze, Mean, Odd, StatusAfter, SteadyVerdict, OddVerdict, Watched, Steady, H.Need, H.AtLeastOne, Grade;
    var q, p, cfg := LossOnly(0.0), LossOnly(x), DefaultConfig();
    SteadyLossVerdict(k);
    OddLossVerdict(k, x);
    ShippedCounts(OddVerdict(q, p, k, cfg));
    OddSampleMovesStatusExactly(q, p, a, b, k, cfg);
  }

  lemma SteadyLossVerdict(k: Kind)
    requires k != Connection
    ensures SteadyVerdict(LossOnly(0.0), k, DefaultConfig()) == Good
  {
    LossVerdict(k, LossOnly(0.0));
    hide Analyze;
    assert LossOnly(0.0).(hasData := true) == LossOnly(0.0);
  }

  lemma OddLossVerdict(k: Kind, x: real)
    requires k != Connection
    ensures OddVerdict(LossOnly(0.0), LossOnly(x), k, DefaultConfig()) == Good <==> x < 10.0
  {
    hide Analyze, Mean, Grade;
    OddLossMean(x);
    LossVerdict(k, Mean(Odd(LossOnly(0.0), LossOnly(x), 4, 0)));
  }

  lemma ShippedCounts(s: Status)
    ensures var cfg := DefaultConfig();
      && E.WindowSize(cfg) == 5 && H.AtLeastOne(cfg.degradeSamples) == 3
      && H.AtLeastOne(H.Need(Good, s, cfg.degradeSamples, cfg.recoverSamples)) == 3
  {
  }
}
