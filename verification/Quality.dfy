/** The quality verdict of one stream: counters to rates, rates averaged over a window, the window's
    mean judged by rules that subtract penalties from a score and grade each metric. */
module Quality {
  import opened Wrappers

  datatype Status = Unknown | Good | Warning | Poor

  datatype Kind = Audio | Video | Connection

  datatype Metric = Loss | Bitrate | Jitter | Rtt | Fps | FrameDrop

  datatype Problem =
    | HighPacketLoss | HighJitter | HighRtt | LowBitrate | LowFps | HighFrameDrop
    | ConnectionUnstable | TrackDisabled

  datatype Thresholds = Thresholds(
    lossWarn: real, lossPoor: real, jitterWarn: real, jitterPoor: real, rttWarn: real, rttPoor: real,
    bitrateWarn: real, bitratePoor: real, fpsWarn: real, fpsPoor: real, dropWarn: real, dropPoor: real)

  datatype Config = Config(
    windowSamples: int, historySize: nat, degradeSamples: int, recoverSamples: int,
    goodScore: int, warningScore: int, audio: Thresholds, video: Thresholds, connection: Thresholds)

  datatype Derived = Derived(
    hasData: bool, enabled: bool,
    loss: Option<real>, bitrate: Option<real>, jitter: Option<real>, rtt: Option<real>,
    fps: Option<real>, frameDrop: Option<real>, connState: string, iceState: string)

  datatype Analysis = Analysis(status: Status, score: int, problems: seq<Problem>)

  function DefaultConfig(): (r: Config) {
    Config(5, 60, 3, 5, 80, 55,
           Thresholds(2.0, 5.0, 30.0, 60.0, 200.0, 400.0, 16000.0, 8000.0, 0.0, 0.0, 0.0, 0.0),
           Thresholds(2.0, 5.0, 40.0, 80.0, 250.0, 450.0, 150000.0, 60000.0, 15.0, 8.0, 5.0, 15.0),
           Thresholds(3.0, 7.0, 40.0, 80.0, 200.0, 400.0, 0.0, 0.0, 0.0, 0.0, 0.0, 0.0))
  }

  function ThresholdsOf(cfg: Config, k: Kind): (r: Thresholds) {
    match k case Audio => cfg.audio case Video => cfg.video case Connection => cfg.connection
  }

  function Rank(s: Status): (r: int) {
    match s case Good => 0 case Warning => 1 case Poor => 2 case Unknown => -1
  }

  /** The more severe status; Unknown never outweighs a verdict. */
  function Worst(a: Status, b: Status): (r: Status)
    ensures Rank(r) == if Rank(a) < Rank(b) then Rank(b) else Rank(a)
  {
    if Rank(a) < 0 then b else if Rank(b) < 0 then a else if Rank(a) >= Rank(b) then a else b
  }

  function Get(d: Derived, m: Metric): (r: Option<real>) {
    match m
    case Loss => d.loss
    case Bitrate => d.bitrate
    case Jitter => d.jitter
    case Rtt => d.rtt
    case Fps => d.fps
    case FrameDrop => d.frameDrop
  }

  predicate LowerWorse(m: Metric) { m == Bitrate || m == Fps }

  // ------------------------------------------------------------------
  // Counters to rates
  // ------------------------------------------------------------------

  datatype Sample = Sample(
    atMillis: int,
    packetsReceived: Option<real>, packetsLost: Option<real>, bytesSent: Option<real>, bytesReceived: Option<real>,
    framesDecoded: Option<real>, framesDropped: Option<real>,
    jitter: Option<real>, rtt: Option<real>, fps: Option<real>,
    enabled: Option<bool>, connState: string, iceState: string)

  /** The growth of a cumulative counter; a counter that went back was reset and gives nothing. */
  function Delta(prev: Option<real>, cur: Option<real>): (r: Option<real>)
    ensures r.Some? ==> r.value >= 0.0
  {
    if prev.None? || cur.None? || cur.value < prev.value then None else Some(cur.value - prev.value)
  }

  function Share(part: Option<real>, rest: Option<real>): (r: Option<real>)
    requires part.Some? ==> part.value >= 0.0
    requires rest.Some? ==> rest.value >= 0.0
    ensures r.Some? ==> 0.0 <= r.value <= 100.0
    ensures r.Some? <==> part.Some? && rest.Some?
    ensures r.Some? ==> (r.value == 0.0 <==> part.value == 0.0)
  {
    if part.None? || rest.None? then None
    else if part.value + rest.value > 0.0 then
      ShareInRange(part.value, part.value + rest.value);
      Some(part.value / (part.value + rest.value) * 100.0)
    else Some(0.0)
  }

  lemma ShareInRange(x: real, total: real)
    requires 0.0 <= x <= total && total > 0.0
    ensures 0.0 <= x / total <= 1.0 && (x / total == 0.0 <==> x == 0.0)
  {
    assert x / total * total == x;
  }

  function Rate(grown: Option<real>, ms: int): (r: Option<real>)
    requires ms > 0
    requires grown.Some? ==> grown.value >= 0.0
    ensures r.Some? ==> r.value >= 0.0
  {
    if grown.None? then None else Some(grown.value * 8.0 / (ms as real / 1000.0))
  }

  function Derive(prev: Option<Sample>, cur: Sample): (d: Derived)
    ensures d.loss.Some? ==> 0.0 <= d.loss.value <= 100.0
    ensures d.frameDrop.Some? ==> 0.0 <= d.frameDrop.value <= 100.0
    ensures d.bitrate.Some? ==> d.bitrate.value >= 0.0
    ensures d.hasData <==> cur.connState != "" || exists m :: m != FrameDrop && Get(d, m).Some?
  {
    var paired := prev.Some? && cur.atMillis > prev.value.atMillis;
    var received := if paired then Rate(Delta(prev.value.bytesReceived, cur.bytesReceived), cur.atMillis - prev.value.atMillis) else None;
    var sent := if paired then Rate(Delta(prev.value.bytesSent, cur.bytesSent), cur.atMillis - prev.value.atMillis) else None;
    var bitrate := if received.Some? then received else sent;
    var loss := if paired then Share(Delta(prev.value.packetsLost, cur.packetsLost), Delta(prev.value.packetsReceived, cur.packetsReceived)) else None;
    var drop := if paired then Share(Delta(prev.value.framesDropped, cur.framesDropped), Delta(prev.value.framesDecoded, cur.framesDecoded)) else None;
    var hasData := loss.Some? || bitrate.Some? || cur.jitter.Some? || cur.rtt.Some? || cur.fps.Some? || cur.connState != "";
    var d := Derived(hasData, cur.enabled != Some(false), loss, bitrate, cur.jitter, cur.rtt, cur.fps, drop, cur.connState, cur.iceState);
    assert Get(d, Loss) == loss && Get(d, Bitrate) == bitrate && Get(d, Jitter) == d.jitter && Get(d, Rtt) == d.rtt && Get(d, Fps) == d.fps;
    d
  }

  /** Loss is the percentage lost of what the counters grew by. */
  lemma LossIsPercent(prev: Sample, cur: Sample)
    ensures var loss := Derive(Some(prev), cur).loss;
      && (loss.Some? <==> cur.atMillis > prev.atMillis && Grew(prev.packetsLost, cur.packetsLost) && Grew(prev.packetsReceived, cur.packetsReceived))
      && (loss.Some? ==> var lost, got := cur.packetsLost.value - prev.packetsLost.value, cur.packetsReceived.value - prev.packetsReceived.value;
            if lost + got > 0.0 then loss.value * (lost + got) == 100.0 * lost else loss.value == 0.0)
  {
    hide Share, Rate, Get;
    ShareIsPercent(Delta(prev.packetsLost, cur.packetsLost), Delta(prev.packetsReceived, cur.packetsReceived));
    DerivedFrom(prev, cur);
    hide Derive;
  }

  /** Frame drop likewise. */
  lemma FrameDropIsPercent(prev: Sample, cur: Sample)
    ensures var drop := Derive(Some(prev), cur).frameDrop;
      && (drop.Some? <==> cur.atMillis > prev.atMillis && Grew(prev.framesDropped, cur.framesDropped) && Grew(prev.framesDecoded, cur.framesDecoded))
      && (drop.Some? ==> var lost, got := cur.framesDropped.value - prev.framesDropped.value, cur.framesDecoded.value - prev.framesDecoded.value;
            if lost + got > 0.0 then drop.value * (lost + got) == 100.0 * lost else drop.value == 0.0)
  {
    hide Share, Rate, Get;
    ShareIsPercent(Delta(prev.framesDropped, cur.framesDropped), Delta(prev.framesDecoded, cur.framesDecoded));
    DerivedFrom(prev, cur);
    hide Derive;
  }

  /** The bitrate is the bits received per second, or the bits sent if nothing can be said of those. */
  lemma BitrateIsBitsPerSecond(prev: Sample, cur: Sample)
    ensures var rate := Derive(Some(prev), cur).bitrate;
      && (rate.Some? <==> cur.atMillis > prev.atMillis && (Grew(prev.bytesReceived, cur.bytesReceived) || Grew(prev.bytesSent, cur.bytesSent)))
      && (rate.Some? ==>
            var bytes := if Grew(prev.bytesReceived, cur.bytesReceived) then cur.bytesReceived.value - prev.bytesReceived.value else cur.bytesSent.value - prev.bytesSent.value;
            BitsOver(rate.value, cur.atMillis - prev.atMillis, bytes))
  {
    hide Share, Rate, Get, BitsOver;
    if cur.atMillis > prev.atMillis {
      RateIsBits(Delta(prev.bytesReceived, cur.bytesReceived), cur.atMillis - prev.atMillis);
      RateIsBits(Delta(prev.bytesSent, cur.bytesSent), cur.atMillis - prev.atMillis);
    }
    DerivedFrom(prev, cur);
    hide Derive;
  }

  lemma DerivedFrom(prev: Sample, cur: Sample)
    ensures var d, ms := Derive(Some(prev), cur), cur.atMillis - prev.atMillis;
      if ms <= 0 then d.loss == d.frameDrop == d.bitrate == None
      else
        && d.loss == Share(Delta(prev.packetsLost, cur.packetsLost), Delta(prev.packetsReceived, cur.packetsReceived))
        && d.frameDrop == Share(Delta(prev.framesDropped, cur.framesDropped), Delta(prev.framesDecoded, cur.framesDecoded))
        && var got := Rate(Delta(prev.bytesReceived, cur.bytesReceived), ms);
           d.bitrate == if got.Some? then got else Rate(Delta(prev.bytesSent, cur.bytesSent), ms)
  {
    hide Share, Rate, Get;
  }

  /** A counter reported twice that did not go back. */
  predicate Grew(prev: Option<real>, cur: Option<real>) { prev.Some? && cur.Some? && prev.value <= cur.value }

  lemma ShareIsPercent(part: Option<real>, rest: Option<real>)
    requires (part.Some? ==> part.value >= 0.0) && (rest.Some? ==> rest.value >= 0.0)
    ensures part.Some? && rest.Some? ==> Share(part, rest).Some? && var total := part.value + rest.value;
      if total > 0.0 then Share(part, rest).value * total == 100.0 * part.value else Share(part, rest).value == 0.0
  {
    if part.Some? && rest.Some? && part.value + rest.value > 0.0 { Times(part.value, part.value + rest.value); }
  }

  lemma Times(x: real, total: real)
    requires total > 0.0
    ensures x / total * 100.0 * total == 100.0 * x
  {
    assert x / total * total == x;
    assert x / total * 100.0 * total == 100.0 * (x / total * total);
  }

  /** So many bits a second, kept up for so many milliseconds, are so many bytes. */
  predicate BitsOver(rate: real, ms: int, bytes: real) { rate * ms as real == bytes * 8000.0 }

  lemma RateIsBits(grown: Option<real>, ms: int)
    requires ms > 0 && (grown.Some? ==> grown.value >= 0.0)
    ensures grown.Some? <==> Rate(grown, ms).Some?
    ensures grown.Some? ==> BitsOver(Rate(grown, ms).value, ms, grown.value)
  {
    if grown.Some? {
      var seconds := ms as real / 1000.0;
      assert Rate(grown, ms).value * seconds == grown.value * 8.0;
      assert seconds * 1000.0 == ms as real;
    }
  }

  /** What is not derived is copied, and a first sample has nothing to derive. */
  lemma RestIsCopied(prev: Option<Sample>, cur: Sample)
    ensures var d := Derive(prev, cur);
      && d.jitter == cur.jitter && d.rtt == cur.rtt && d.fps == cur.fps && d.connState == cur.connState && d.iceState == cur.iceState
      && (d.enabled <==> cur.enabled != Some(false))
      && (prev.None? ==> d.loss == d.frameDrop == d.bitrate == None)
  {
    hide Share, Rate, Get;
  }

  /** A reported share is zero exactly when nothing more was lost or dropped. */
  lemma NoLossExactly(prev: Option<Sample>, cur: Sample)
    ensures var d := Derive(prev, cur);
      && (d.loss.Some? ==> prev.Some? && (d.loss.value == 0.0 <==> prev.value.packetsLost == cur.packetsLost))
      && (d.frameDrop.Some? ==> prev.Some? && (d.frameDrop.value == 0.0 <==> prev.value.framesDropped == cur.framesDropped))
  {
    hide Share, Rate, Get;
  }

  // ------------------------------------------------------------------
  // The window
  // ------------------------------------------------------------------

  function Total(buf: seq<Derived>, m: Metric): (r: real) {
    if buf == [] then 0.0
    else Total(buf[..|buf| - 1], m) + (if Get(buf[|buf| - 1], m).Some? then Get(buf[|buf| - 1], m).value else 0.0)
  }

  function Reported(buf: seq<Derived>, m: Metric): (r: nat) {
    if buf == [] then 0 else Reported(buf[..|buf| - 1], m) + (if Get(buf[|buf| - 1], m).Some? then 1 else 0)
  }

  function Average(buf: seq<Derived>, m: Metric): (r: Option<real>) {
    if Reported(buf, m) == 0 then None else Some(Total(buf, m) / Reported(buf, m) as real)
  }

  method Avg(buf: seq<Derived>, m: Metric) returns (r: Option<real>)
    ensures r == Average(buf, m)
  {
    var sum, n: nat := 0.0, 0;
    for i := 0 to |buf|
      invariant sum == Total(buf[..i], m) && n == Reported(buf[..i], m)
    {
      assert buf[..i + 1][..i] == buf[..i];
      var v := Get(buf[i], m);
      if v.Some? { sum, n := sum + v.value, n + 1; }
    }
    assert buf[..|buf|] == buf;
    return if n == 0 then None else Some(sum / n as real);
  }

  /** Rates are averaged, states come from the newest sample. */
  function Mean(buf: seq<Derived>): (r: Derived)
    requires buf != []
  {
    var last := buf[|buf| - 1];
    Derived(true, last.enabled, Average(buf, Loss), Average(buf, Bitrate), Average(buf, Jitter), Average(buf, Rtt),
            Average(buf, Fps), Average(buf, FrameDrop), last.connState, last.iceState)
  }

  class Window {
    var buf: seq<Derived>
    const size: nat

    constructor (size: int)
      ensures buf == [] && this.size == if size < 1 then 1 else size
    {
      buf, this.size := [], if size < 1 then 1 else size;
    }

    /** The buffer is always the newest `size` samples pushed. */
    method Push(d: Derived)
      modifies this
      ensures buf == Newest(old(buf) + [d], size)
      ensures buf != [] ==> buf[|buf| - 1] == d
      ensures |buf| == (if |old(buf)| + 1 > size then size else |old(buf)| + 1) && buf == (old(buf) + [d])[|old(buf)| + 1 - |buf|..]
    {
      buf := buf + [d];
      if |buf| > size { buf := buf[|buf| - size..]; }
    }

    method MeanOf() returns (r: Derived)
      requires buf != []
      ensures r == Mean(buf)
    {
      var last := buf[|buf| - 1];
      r := Derived(true, last.enabled, None, None, None, None, None, None, last.connState, last.iceState);
      var loss := Avg(buf, Loss);
      var bitrate := Avg(buf, Bitrate);
      var jitter := Avg(buf, Jitter);
      var rtt := Avg(buf, Rtt);
      var fps := Avg(buf, Fps);
      var drop := Avg(buf, FrameDrop);
      r := r.(loss := loss, bitrate := bitrate, jitter := jitter, rtt := rtt, fps := fps, frameDrop := drop);
    }
  }

  function Newest<T>(s: seq<T>, n: nat): (r: seq<T>) {
    if |s| > n then s[|s| - n..] else s
  }

  // ------------------------------------------------------------------
  // Scoring
  // ------------------------------------------------------------------

  function Band(v: real, warn: real, poor: real): (r: nat) {
    if v >= poor then 2 else if v >= warn then 1 else 0
  }

  function BandLow(v: real, warn: real, poor: real): (r: nat) {
    if v <= poor then 2 else if v <= warn then 1 else 0
  }

  function Ramp(x: real, width: real, max: real): (r: real)
    requires 0.0 <= x <= width && 0.0 < width && 0.0 <= max
    ensures 0.0 <= r <= max
  {
    RampInRange(x, width, max);
    max * x / width
  }

  lemma RampInRange(x: real, width: real, max: real)
    requires 0.0 <= x <= width && 0.0 < width && 0.0 <= max
    ensures 0.0 <= max * x / width <= max
  {
    assert 0.0 <= max * x <= max * width;
    assert max * width / width == max;
  }

  lemma RampGrows(x: real, y: real, width: real, max: real)
    requires 0.0 <= x <= y <= width && 0.0 < width && 0.0 <= max
    ensures Ramp(x, width, max) <= Ramp(y, width, max)
  {
    assert max * x <= max * y;
    QuotientGrows(max * x, max * y, width);
  }

  function Penalty(v: real, warn: real, poor: real, max: real): (r: real)
    requires 0.0 <= max
    ensures 0.0 <= r <= max
    ensures Band(v, warn, poor) == 0 ==> r == 0.0
  {
    if warn <= 0.0 && poor <= 0.0 then 0.0
    else if v <= warn then 0.0
    else if v >= poor then max
    else Ramp(v - warn, poor - warn, max)
  }

  function PenaltyLow(v: real, warn: real, poor: real, max: real): (r: real)
    requires 0.0 <= max
    ensures 0.0 <= r <= max
    ensures BandLow(v, warn, poor) == 0 ==> r == 0.0
  {
    if warn <= 0.0 && poor <= 0.0 then 0.0
    else if v >= warn then 0.0
    else if v <= poor then max
    else Ramp(warn - v, warn - poor, max)
  }

  /** Between its two lines a metric costs its share of the way from the warning to the poor line, at
      the warning line and on the good side nothing, at the poor line and past it the maximum. */
  lemma PenaltyRamps(v: real, warn: real, poor: real, max: real)
    requires 0.0 <= max
    ensures warn < poor && 0.0 < poor ==>
      && (v <= warn ==> Penalty(v, warn, poor, max) == 0.0)
      && (v >= poor ==> Penalty(v, warn, poor, max) == max)
      && (warn <= v <= poor ==> Penalty(v, warn, poor, max) * (poor - warn) == max * (v - warn))
    ensures poor < warn && 0.0 < warn ==>
      && (v >= warn ==> PenaltyLow(v, warn, poor, max) == 0.0)
      && (v <= poor ==> PenaltyLow(v, warn, poor, max) == max)
      && (poor <= v <= warn ==> PenaltyLow(v, warn, poor, max) * (warn - poor) == max * (warn - v))
  {
    if warn < v < poor { RampIsLinear(v - warn, poor - warn, max); }
    if poor < v < warn { RampIsLinear(warn - v, warn - poor, max); }
    hide Ramp;
  }

  lemma RampIsLinear(x: real, width: real, max: real)
    requires 0.0 <= x <= width && 0.0 < width && 0.0 <= max
    ensures Ramp(x, width, max) * width == max * x
  {
  }

  function ClampScore(s: real): (r: int)
    ensures 0 <= r <= 100
    ensures 0.0 <= s <= 100.0 ==> r as real - 0.5 <= s < r as real + 0.5
    ensures (s < 0.0 ==> r == 0) && (s > 100.0 ==> r == 100)
  {
    var clamped := if s < 0.0 then 0.0 else if s > 100.0 then 100.0 else s;
    (clamped + 0.5).Floor
  }

  function StatusFromScore(cfg: Config, score: int): (r: Status) {
    if score >= cfg.goodScore then Good else if score >= cfg.warningScore then Warning else Poor
  }

  function StatusFromBand(b: nat): (r: Status) {
    if b == 2 then Poor else if b == 1 then Warning else Good
  }

  // ------------------------------------------------------------------
  // The rules
  // ------------------------------------------------------------------

  datatype Rule = Rule(problem: Problem, metric: Metric, warn: real, poor: real, pen: nat)

  function MediaRules(k: Kind, t: Thresholds): (r: seq<Rule>) {
    [Rule(HighPacketLoss, Loss, t.lossWarn, t.lossPoor, 45),
     Rule(HighJitter, Jitter, t.jitterWarn, t.jitterPoor, 25),
     Rule(HighRtt, Rtt, t.rttWarn, t.rttPoor, 25),
     Rule(LowBitrate, Bitrate, t.bitrateWarn, t.bitratePoor, 30)]
    + if k == Video then
        [Rule(LowFps, Fps, t.fpsWarn, t.fpsPoor, 30),
         Rule(HighFrameDrop, FrameDrop, t.dropWarn, t.dropPoor, 25)]
      else []
  }

  function ConnectionRules(t: Thresholds): (r: seq<Rule>) {
    [Rule(HighRtt, Rtt, t.rttWarn, t.rttPoor, 35),
     Rule(HighPacketLoss, Loss, t.lossWarn, t.lossPoor, 45),
     Rule(HighJitter, Jitter, t.jitterWarn, t.jitterPoor, 25)]
  }

  function Cost(r: Rule, d: Derived): (c: real)
    ensures 0.0 <= c <= r.pen as real
    ensures Grade(r, d) == 0 ==> c == 0.0
  {
    match Get(d, r.metric)
    case None => 0.0
    case Some(v) =>
      if LowerWorse(r.metric) then PenaltyLow(v, r.warn, r.poor, r.pen as real) else Penalty(v, r.warn, r.poor, r.pen as real)
  }

  function Grade(r: Rule, d: Derived): (g: nat)
    ensures g <= 2
  {
    match Get(d, r.metric)
    case None => 0
    case Some(v) => if LowerWorse(r.metric) then BandLow(v, r.warn, r.poor) else Band(v, r.warn, r.poor)
  }

  function Costs(rules: seq<Rule>, d: Derived): (c: real)
    ensures c >= 0.0
  {
    if rules == [] then 0.0 else Costs(rules[..|rules| - 1], d) + Cost(rules[|rules| - 1], d)
  }

  function Named(rules: seq<Rule>, d: Derived): (ps: seq<Problem>)
    ensures ps == [] <==> forall i :: 0 <= i < |rules| ==> Grade(rules[i], d) == 0
    ensures forall p :: p in ps <==> exists i :: 0 <= i < |rules| && rules[i].problem == p && Grade(rules[i], d) >= 1
  {
    if rules == [] then []
    else Named(rules[..|rules| - 1], d)
         + if Grade(rules[|rules| - 1], d) >= 1 then [rules[|rules| - 1].problem] else []
  }

  function WorstGrade(rules: seq<Rule>, d: Derived): (g: nat)
    ensures g <= 2
    ensures forall i :: 0 <= i < |rules| ==> Grade(rules[i], d) <= g
    ensures g > 0 ==> exists i :: 0 <= i < |rules| && Grade(rules[i], d) == g
  {
    if rules == [] then 0
    else
      var before, g := WorstGrade(rules[..|rules| - 1], d), Grade(rules[|rules| - 1], d);
      if g > before then g else before
  }

  function Judge(rules: seq<Rule>, d: Derived, cfg: Config): (a: Analysis)
    ensures 0 <= a.score <= 100
  {
    var s := ClampScore(100.0 - Costs(rules, d));
    Analysis(Worst(StatusFromScore(cfg, s), StatusFromBand(WorstGrade(rules, d))), s, Named(rules, d))
  }

  /** The scoring loop computes the three folds in one pass. */
  method EvalRules(rules: seq<Rule>, d: Derived, cfg: Config) returns (a: Analysis)
    ensures a == Judge(rules, d, cfg)
  {
    var score, problems, worstBand: nat := 100.0, [], 0;
    for i := 0 to |rules|
      invariant score == 100.0 - Costs(rules[..i], d)
      invariant problems == Named(rules[..i], d) && worstBand == WorstGrade(rules[..i], d)
    {
      assert rules[..i + 1][..i] == rules[..i];
      var r := rules[i];
      var v := Get(d, r.metric);
      if v.None? { continue; }
      var b;
      if LowerWorse(r.metric) {
        score := score - PenaltyLow(v.value, r.warn, r.poor, r.pen as real);
        b := BandLow(v.value, r.warn, r.poor);
      } else {
        score := score - Penalty(v.value, r.warn, r.poor, r.pen as real);
        b := Band(v.value, r.warn, r.poor);
      }
      if b >= 1 { problems := problems + [r.problem]; }
      if b > worstBand { worstBand := b; }
    }
    assert rules[..|rules|] == rules;
    var s := ClampScore(score);
    return Analysis(Worst(StatusFromScore(cfg, s), StatusFromBand(worstBand)), s, problems);
  }

  function Analyze(k: Kind, d: Derived, cfg: Config): (a: Analysis)
    ensures 0 <= a.score <= 100
  {
    if !d.hasData then Analysis(Unknown, 0, [])
    else if !d.enabled then Analysis(Unknown, 0, [TrackDisabled])
    else if k != Connection then Judge(MediaRules(k, ThresholdsOf(cfg, k)), d, cfg)
    else if d.connState != "" && d.connState != "connected" then Analysis(Poor, 0, [ConnectionUnstable])
    else if d.iceState == "disconnected" || d.iceState == "failed" then Analysis(Poor, 10, [ConnectionUnstable])
    else Judge(ConnectionRules(cfg.connection), d, cfg)
  }

  // ------------------------------------------------------------------
  // Worse inputs never give a better verdict
  // ------------------------------------------------------------------

  /** `a` reports `m` exactly when `b` does, with a value no worse. */
  predicate MetricNoWorse(a: Derived, b: Derived, m: Metric) {
    var x, y := Get(a, m), Get(b, m);
    && (x.Some? <==> y.Some?)
    && (x.Some? ==> if LowerWorse(m) then x.value >= y.value else x.value <= y.value)
  }

  predicate NoWorse(a: Derived, b: Derived) {
    && a.hasData == b.hasData && a.enabled == b.enabled && a.connState == b.connState && a.iceState == b.iceState
    && MetricNoWorse(a, b, Loss) && MetricNoWorse(a, b, Bitrate) && MetricNoWorse(a, b, Jitter)
    && MetricNoWorse(a, b, Rtt) && MetricNoWorse(a, b, Fps) && MetricNoWorse(a, b, FrameDrop)
  }

  predicate WindowNoWorse(a: seq<Derived>, b: seq<Derived>) {
    |a| == |b| && forall i :: 0 <= i < |a| ==> NoWorse(a[i], b[i])
  }

  predicate VerdictNoWorse(a: Analysis, b: Analysis) {
    && a.score >= b.score && Rank(a.status) <= Rank(b.status)
    && forall p :: p in a.problems ==> p in b.problems
  }

  lemma PenaltyGrows(v: real, w: real, warn: real, poor: real, max: real)
    requires v <= w && 0.0 <= max
    ensures Penalty(v, warn, poor, max) <= Penalty(w, warn, poor, max)
    ensures PenaltyLow(w, warn, poor, max) <= PenaltyLow(v, warn, poor, max)
    ensures Band(v, warn, poor) <= Band(w, warn, poor) && BandLow(w, warn, poor) <= BandLow(v, warn, poor)
  {
    if warn < v && w < poor { RampGrows(v - warn, w - warn, poor - warn, max); }
    if poor < v && w < warn { RampGrows(warn - w, warn - v, warn - poor, max); }
    hide Ramp;
  }

  lemma RuleNoWorse(r: Rule, a: Derived, b: Derived)
    requires NoWorse(a, b)
    ensures Cost(r, a) <= Cost(r, b) && Grade(r, a) <= Grade(r, b)
  {
    assert MetricNoWorse(a, b, r.metric);
    var x, y := Get(a, r.metric), Get(b, r.metric);
    if x.Some? {
      if LowerWorse(r.metric) { PenaltyGrows(y.value, x.value, r.warn, r.poor, r.pen as real); }
      else { PenaltyGrows(x.value, y.value, r.warn, r.poor, r.pen as real); }
      hide Penalty, PenaltyLow, Band, BandLow;
    }
  }

  lemma {:induction false} RulesNoWorse(rules: seq<Rule>, a: Derived, b: Derived)
    requires NoWorse(a, b)
    ensures Costs(rules, a) <= Costs(rules, b) && WorstGrade(rules, a) <= WorstGrade(rules, b)
    ensures forall p :: p in Named(rules, a) ==> p in Named(rules, b)
  {
    if rules != [] {
      RulesNoWorse(rules[..|rules| - 1], a, b);
      RuleNoWorse(rules[|rules| - 1], a, b);
    }
    hide NoWorse, Cost, Grade;
  }

  lemma ClampGrows(a: real, b: real)
    requires a <= b
    ensures ClampScore(a) <= ClampScore(b)
  {
  }

  lemma JudgeNoWorse(rules: seq<Rule>, a: Derived, b: Derived, cfg: Config)
    requires NoWorse(a, b)
    ensures VerdictNoWorse(Judge(rules, a, cfg), Judge(rules, b, cfg))
  {
    RulesNoWorse(rules, a, b);
    ClampGrows(100.0 - Costs(rules, b), 100.0 - Costs(rules, a));
    hide NoWorse, Costs, Named, WorstGrade, ClampScore, Grade;
  }

  lemma {:induction false} TotalsCompare(a: seq<Derived>, b: seq<Derived>, m: Metric)
    requires WindowNoWorse(a, b)
    ensures Reported(a, m) == Reported(b, m)
    ensures if LowerWorse(m) then Total(a, m) >= Total(b, m) else Total(a, m) <= Total(b, m)
    decreases |a|
  {
    if a != [] {
      TotalsCompare(a[..|a| - 1], b[..|b| - 1], m);
      assert NoWorse(a[|a| - 1], b[|b| - 1]);
      assert MetricNoWorse(a[|a| - 1], b[|b| - 1], m);
    }
  }

  lemma QuotientGrows(x: real, y: real, n: real)
    requires x <= y && n > 0.0
    ensures x / n <= y / n
  {
  }

  lemma AveragesCompare(a: seq<Derived>, b: seq<Derived>, m: Metric)
    requires WindowNoWorse(a, b)
    ensures var x, y := Average(a, m), Average(b, m);
      (x.Some? <==> y.Some?) && (x.Some? ==> if LowerWorse(m) then x.value >= y.value else x.value <= y.value)
  {
    TotalsCompare(a, b, m);
    hide WindowNoWorse, Total, Reported;
    if Reported(a, m) > 0 {
      if LowerWorse(m) { QuotientGrows(Total(b, m), Total(a, m), Reported(a, m) as real); }
      else { QuotientGrows(Total(a, m), Total(b, m), Reported(a, m) as real); }
    }
  }

  lemma MeansCompare(a: seq<Derived>, b: seq<Derived>)
    requires a != [] && WindowNoWorse(a, b)
    ensures NoWorse(Mean(a), Mean(b))
  {
    assert NoWorse(a[|a| - 1], b[|b| - 1]);
    AveragesCompare(a, b, Loss);
    AveragesCompare(a, b, Bitrate);
    AveragesCompare(a, b, Jitter);
    AveragesCompare(a, b, Rtt);
    AveragesCompare(a, b, Fps);
    AveragesCompare(a, b, FrameDrop);
    hide Average, WindowNoWorse;
  }

  lemma AnalyzeNoWorse(k: Kind, a: Derived, b: Derived, cfg: Config)
    requires NoWorse(a, b)
    ensures VerdictNoWorse(Analyze(k, a, cfg), Analyze(k, b, cfg))
  {
    JudgeNoWorse(MediaRules(k, ThresholdsOf(cfg, k)), a, b, cfg);
    JudgeNoWorse(ConnectionRules(cfg.connection), a, b, cfg);
    hide Judge, MediaRules, ConnectionRules, ThresholdsOf, MetricNoWorse;
  }

  /** A window that reports the same metrics with no worse values never gets a worse verdict, whatever
      the thresholds are. */
  lemma WorseInputsNeverHelp(k: Kind, a: seq<Derived>, b: seq<Derived>, cfg: Config)
    requires a != [] && WindowNoWorse(a, b)
    ensures VerdictNoWorse(Analyze(k, Mean(a), cfg), Analyze(k, Mean(b), cfg))
  {
    MeansCompare(a, b);
    AnalyzeNoWorse(k, Mean(a), Mean(b), cfg);
  }

  // ------------------------------------------------------------------
  // Every bad verdict names a problem
  // ------------------------------------------------------------------

  lemma {:induction false} CleanCostsNothing(rules: seq<Rule>, d: Derived)
    requires WorstGrade(rules, d) == 0
    ensures Costs(rules, d) == 0.0
  {
    if rules != [] { CleanCostsNothing(rules[..|rules| - 1], d); }
  }

  /** No problem named means no metric past its warning line and a full score. */
  lemma GoodMeansNoProblem(rules: seq<Rule>, d: Derived, cfg: Config)
    ensures var a := Judge(rules, d, cfg);
      && (a.problems == [] <==> WorstGrade(rules, d) == 0)
      && (a.problems == [] ==> a.score == 100)
      && (cfg.goodScore <= 100 ==> (a.status == Good ==> a.problems == []) && (a.problems == [] ==> a.status == Good))
  {
    if WorstGrade(rules, d) == 0 { CleanCostsNothing(rules, d); }
    hide Costs, Named, WorstGrade, Grade;
  }

  predicate NamesItsProblem(a: Analysis) { Rank(a.status) >= 1 ==> a.problems != [] }

  lemma GoodConfigExplains(k: Kind, d: Derived, cfg: Config)
    requires cfg.goodScore <= 100
    ensures NamesItsProblem(Analyze(k, d, cfg))
  {
    GoodMeansNoProblem(MediaRules(k, ThresholdsOf(cfg, k)), d, cfg);
    GoodMeansNoProblem(ConnectionRules(cfg.connection), d, cfg);
    hide Judge, MediaRules, ConnectionRules, ThresholdsOf, WorstGrade;
  }

  /** Every WARNING or POOR verdict names a problem exactly when a full score counts as GOOD. */
  lemma BadVerdictsAreExplained(cfg: Config)
    ensures cfg.goodScore <= 100 <==> forall k, d :: NamesItsProblem(Analyze(k, d, cfg))
  {
    if cfg.goodScore <= 100 {
      forall k, d ensures NamesItsProblem(Analyze(k, d, cfg)) { GoodConfigExplains(k, d, cfg); }
    } else {
      var d := Derived(true, true, None, None, None, None, None, None, "connected", "connected");
      GoodMeansNoProblem(ConnectionRules(cfg.connection), d, cfg);
      hide ConnectionRules;
      assert !NamesItsProblem(Analyze(Connection, d, cfg));
    }
  }

  /** A metric is at or past one of its lines, or, where lower is worse, at or below one. */
  predicate Past(v: Option<real>, a: real, b: real) { v.Some? && (v.value >= a || v.value >= b) }

  predicate PastLow(v: Option<real>, a: real, b: real) { v.Some? && (v.value <= a || v.value <= b) }

  /** Each problem of a media stream names the metric that is past a line of its own thresholds. */
  lemma MediaProblemsExactly(k: Kind, d: Derived, cfg: Config)
    requires k != Connection && d.hasData && d.enabled
    ensures var a, t := Analyze(k, d, cfg), if k == Audio then cfg.audio else cfg.video;
      && (HighPacketLoss in a.problems <==> Past(d.loss, t.lossWarn, t.lossPoor))
      && (HighJitter in a.problems <==> Past(d.jitter, t.jitterWarn, t.jitterPoor))
      && (HighRtt in a.problems <==> Past(d.rtt, t.rttWarn, t.rttPoor))
      && (LowBitrate in a.problems <==> PastLow(d.bitrate, t.bitrateWarn, t.bitratePoor))
      && (LowFps in a.problems <==> k == Video && PastLow(d.fps, t.fpsWarn, t.fpsPoor))
      && (HighFrameDrop in a.problems <==> k == Video && Past(d.frameDrop, t.dropWarn, t.dropPoor))
  {
    hide Analyze, Named;
    MediaProblem(k, d, cfg, 0);
    MediaProblem(k, d, cfg, 1);
    MediaProblem(k, d, cfg, 2);
    MediaProblem(k, d, cfg, 3);
    if k == Video {
      MediaProblem(k, d, cfg, 4);
      MediaProblem(k, d, cfg, 5);
    } else {
      NoVideoProblem(d, cfg);
    }
  }

  lemma MediaProblem(k: Kind, d: Derived, cfg: Config, i: nat)
    requires k != Connection && d.hasData && d.enabled && i < |MediaRules(k, ThresholdsOf(cfg, k))|
    ensures var r := MediaRules(k, ThresholdsOf(cfg, k))[i]; r.problem in Analyze(k, d, cfg).problems <==> AtLine(r, d)
  {
    var rules := MediaRules(k, ThresholdsOf(cfg, k));
    DistinctProblems(k, ThresholdsOf(cfg, k));
    hide MediaRules;
    NamedBy(rules, d, i);
    GradedPast(rules[i], d);
    hide Named, Grade, AtLine;
  }

  lemma DistinctProblems(k: Kind, t: Thresholds)
    ensures forall i, j :: 0 <= i < |MediaRules(k, t)| && 0 <= j < |MediaRules(k, t)| && i != j ==> MediaRules(k, t)[i].problem != MediaRules(k, t)[j].problem
  {
  }

  lemma NoVideoProblem(d: Derived, cfg: Config)
    requires d.hasData && d.enabled
    ensures var ps := Analyze(Audio, d, cfg).problems; LowFps !in ps && HighFrameDrop !in ps
  {
    var rules := MediaRules(Audio, cfg.audio);
    assert forall i :: 0 <= i < |rules| ==> rules[i].problem !in {LowFps, HighFrameDrop};
    hide MediaRules, Grade;
  }

  predicate AtLine(r: Rule, d: Derived) {
    if LowerWorse(r.metric) then PastLow(Get(d, r.metric), r.warn, r.poor) else Past(Get(d, r.metric), r.warn, r.poor)
  }

  lemma GradedPast(r: Rule, d: Derived)
    ensures Grade(r, d) >= 1 <==> AtLine(r, d)
  {
  }

  lemma NamedBy(rules: seq<Rule>, d: Derived, i: nat)
    requires i < |rules| && forall j :: 0 <= j < |rules| && j != i ==> rules[j].problem != rules[i].problem
    ensures rules[i].problem in Named(rules, d) <==> Grade(rules[i], d) >= 1
  {
  }

  /** The same for a connection whose transport is up. */
  lemma ConnectionProblemsExactly(d: Derived, cfg: Config)
    requires d.hasData && d.enabled && !Down(Connection, d)
    ensures var a, t := Analyze(Connection, d, cfg), cfg.connection;
      && (HighPacketLoss in a.problems <==> Past(d.loss, t.lossWarn, t.lossPoor))
      && (HighJitter in a.problems <==> Past(d.jitter, t.jitterWarn, t.jitterPoor))
      && (HighRtt in a.problems <==> Past(d.rtt, t.rttWarn, t.rttPoor))
  {
    var rules := ConnectionRules(cfg.connection);
    assert Analyze(Connection, d, cfg).problems == Named(rules, d);
    hide Analyze, Named, Grade;
    NamedBy(rules, d, 0);
    NamedBy(rules, d, 1);
    NamedBy(rules, d, 2);
    GradedPast(rules[0], d);
    GradedPast(rules[1], d);
    GradedPast(rules[2], d);
  }

  /** A verdict by rules is POOR exactly when some metric is at its poor line or the score is below both
      score lines, and its score is a hundred less what the metrics cost, rounded and not below zero. */
  lemma PoorExactly(rules: seq<Rule>, d: Derived, cfg: Config)
    ensures var a := Judge(rules, d, cfg);
      && (a.status == Poor <==> (a.score < cfg.goodScore && a.score < cfg.warningScore) || exists i :: 0 <= i < |rules| && AtPoor(rules[i], d))
      && (Costs(rules, d) <= 100.0 ==> a.score as real - 0.5 <= 100.0 - Costs(rules, d) < a.score as real + 0.5)
      && (Costs(rules, d) > 100.0 ==> a.score == 0)
  {
    assert forall i :: 0 <= i < |rules| ==> (AtPoor(rules[i], d) <==> Grade(rules[i], d) == 2);
    hide Named, Costs, Grade;
  }

  predicate AtPoor(r: Rule, d: Derived) {
    Get(d, r.metric).Some? && if LowerWorse(r.metric) then Get(d, r.metric).value <= r.poor else Get(d, r.metric).value >= r.poor
  }

  /** The transport is known to be down. */
  predicate Down(k: Kind, d: Derived) {
    k == Connection && ((d.connState != "" && d.connState != "connected") || d.iceState == "disconnected" || d.iceState == "failed")
  }

  /** There is no verdict exactly without data or with the track disabled; a connection is called
      unstable exactly when its transport is down, and is then POOR at once. */
  lemma VerdictsWithoutRules(k: Kind, d: Derived, cfg: Config)
    ensures var a := Analyze(k, d, cfg);
      && 0 <= a.score <= 100 && (a.status == Unknown <==> !d.hasData || !d.enabled)
      && (TrackDisabled in a.problems <==> d.hasData && !d.enabled)
      && (ConnectionUnstable in a.problems <==> d.hasData && d.enabled && Down(k, d))
      && (ConnectionUnstable in a.problems ==> a.status == Poor && a.score <= 10)
  {
    var t := ThresholdsOf(cfg, k);
    assert forall i :: 0 <= i < |MediaRules(k, t)| ==> MediaRules(k, t)[i].problem !in {ConnectionUnstable, TrackDisabled};
    assert forall i :: 0 <= i < |ConnectionRules(cfg.connection)| ==> ConnectionRules(cfg.connection)[i].problem !in {ConnectionUnstable, TrackDisabled};
    hide MediaRules, ConnectionRules, ThresholdsOf, Costs, WorstGrade, Grade;
  }

  /** A zero threshold pair switches off a metric's cost but not its grade: it is graded good exactly
      when it is absent or on the good side of zero. */
  lemma ZeroPairStillGrades(r: Rule, d: Derived)
    requires r.warn == 0.0 && r.poor == 0.0
    ensures Cost(r, d) == 0.0
    ensures Grade(r, d) == 0 <==>
      Get(d, r.metric).None? || if LowerWorse(r.metric) then Get(d, r.metric).value > 0.0 else Get(d, r.metric).value < 0.0
  {
    hide Get;
  }

  // ------------------------------------------------------------------
  // A single spike
  // ------------------------------------------------------------------

  lemma {:induction false} TotalsAdd(a: seq<Derived>, b: seq<Derived>, m: Metric)
    ensures Total(a + b, m) == Total(a, m) + Total(b, m) && Reported(a + b, m) == Reported(a, m) + Reported(b, m)
  {
    if b == [] { assert a + b == a; }
    else {
      assert (a + b)[..|a + b| - 1] == a + b[..|b| - 1];
      TotalsAdd(a, b[..|b| - 1], m);
    }
  }

  /** What the other samples of the window report. */
  function Others(buf: seq<Derived>, i: nat, m: Metric): (r: real)
    requires i < |buf|
  {
    Total(buf[..i], m) + Total(buf[i + 1..], m)
  }

  /** Averaging absorbs one sample's value, whatever the others report, exactly when it is on the good
      side of what is left of the window's allowance: a large enough spike does drive the verdict. */
  lemma SpikeAbsorbedExactly(buf: seq<Derived>, r: Rule, i: nat, x: real)
    requires i < |buf| && Get(buf[i], r.metric) == Some(x)
    requires if LowerWorse(r.metric) then r.poor <= r.warn else r.warn <= r.poor
    ensures var allowance := Reported(buf, r.metric) as real * r.warn - Others(buf, i, r.metric);
      Grade(r, Mean(buf)) == 0 <==> if LowerWorse(r.metric) then x > allowance else x < allowance
  {
    hide Mean, Get, Total, Reported, Others, Grade, Band, BandLow;
    SpikeTotals(buf, i, r.metric);
    MeanReports(buf, r.metric);
    GradeOfQuotient(r, Mean(buf), Total(buf, r.metric), Reported(buf, r.metric) as real);
  }

  lemma GradeOfQuotient(r: Rule, d: Derived, total: real, n: real)
    requires n > 0.0 && Get(d, r.metric) == Some(total / n)
    requires if LowerWorse(r.metric) then r.poor <= r.warn else r.warn <= r.poor
    ensures Grade(r, d) == 0 <==> if LowerWorse(r.metric) then total > n * r.warn else total < n * r.warn
  {
    Scaled(total, r.warn, n);
    hide Get;
  }

  lemma SpikeTotals(buf: seq<Derived>, i: nat, m: Metric)
    requires i < |buf| && Get(buf[i], m).Some?
    ensures Total(buf, m) == Others(buf, i, m) + Get(buf[i], m).value && Reported(buf, m) > 0
  {
    var one := [buf[i]];
    assert buf == buf[..i] + (one + buf[i + 1..]);
    TotalsAdd(buf[..i], one + buf[i + 1..], m);
    TotalsAdd(one, buf[i + 1..], m);
    assert one[..0] == [];
    assert Total(one, m) == Get(buf[i], m).value && Reported(one, m) == 1;
  }

  lemma MeanReports(buf: seq<Derived>, m: Metric)
    requires buf != []
    ensures Get(Mean(buf), m) == Average(buf, m)
  {
    hide Average;
  }

  lemma Scaled(x: real, b: real, n: real)
    requires n > 0.0
    ensures x / n < b <==> x < n * b
    ensures x / n > b <==> x > n * b
  {
    var a := x / n;
    assert a * n == x;
    if a < b { assert a * n < b * n; } else if a > b { assert a * n > b * n; }
  }

  // ------------------------------------------------------------------
  // One bad metric against two
  // ------------------------------------------------------------------

  function RulesFor(k: Kind, cfg: Config): (r: seq<Rule>) {
    if k == Connection then ConnectionRules(cfg.connection) else MediaRules(k, ThresholdsOf(cfg, k))
  }

  lemma {:induction false} LoneCost(rules: seq<Rule>, d: Derived, j: nat)
    requires forall i :: 0 <= i < |rules| ==> rules[i].pen <= 45 && (i != j ==> Grade(rules[i], d) == 0)
    ensures Costs(rules, d) <= 45.0
    ensures j >= |rules| ==> Costs(rules, d) == 0.0
  {
    if rules != [] { LoneCost(rules[..|rules| - 1], d, j); }
  }

  lemma {:induction false} CostsCover(rules: seq<Rule>, d: Derived, i: nat, j: nat)
    requires i < j < |rules|
    ensures Costs(rules, d) >= Cost(rules[i], d) + Cost(rules[j], d)
  {
    var rest := rules[..|rules| - 1];
    if j < |rest| { CostsCover(rest, d, i, j); } else { CostsCoverOne(rest, d, i); }
  }

  lemma {:induction false} CostsCoverOne(rules: seq<Rule>, d: Derived, i: nat)
    requires i < |rules|
    ensures Costs(rules, d) >= Cost(rules[i], d)
  {
    if i < |rules| - 1 { CostsCoverOne(rules[..|rules| - 1], d, i); }
  }

  predicate Ordered(r: Rule) {
    if LowerWorse(r.metric) then r.poor < r.warn && 0.0 < r.warn else r.warn < r.poor && 0.0 < r.poor
  }

  /** With the shipped configuration one metric past its warning line never makes the score POOR on
      its own, and any two metrics past their poor lines always do. */
  lemma OneBadMetricOrTwo(k: Kind, d: Derived, i: nat, j: nat)
    requires i < j < |RulesFor(k, DefaultConfig())|
    ensures var cfg := DefaultConfig(); var rules := RulesFor(k, cfg); var a := Judge(rules, d, cfg);
      && ((forall n :: 0 <= n < |rules| && n != i ==> Grade(rules[n], d) == 0) ==> StatusFromScore(cfg, a.score) != Poor)
      && ((forall n :: 0 <= n < |rules| && n != j ==> Grade(rules[n], d) == 0) ==> StatusFromScore(cfg, a.score) != Poor)
      && (Grade(rules[i], d) == 2 && Grade(rules[j], d) == 2 ==> StatusFromScore(cfg, a.score) == Poor)
  {
    var rules := RulesFor(k, DefaultConfig());
    assert forall n :: 0 <= n < |rules| ==> 25 <= rules[n].pen <= 45 && Ordered(rules[n]);
    hide RulesFor;
    if forall n :: 0 <= n < |rules| && n != i ==> Grade(rules[n], d) == 0 { LoneCost(rules, d, i); }
    if forall n :: 0 <= n < |rules| && n != j ==> Grade(rules[n], d) == 0 { LoneCost(rules, d, j); }
    CostsCover(rules, d, i, j);
    PoorCostsAll(rules[i], d);
    PoorCostsAll(rules[j], d);
    hide Costs, Cost, Grade, Named, WorstGrade;
  }

  lemma PoorCostsAll(r: Rule, d: Derived)
    requires Ordered(r)
    ensures Grade(r, d) == 2 ==> Cost(r, d) == r.pen as real
  {
  }
}
