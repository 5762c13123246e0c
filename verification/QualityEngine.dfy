/** The engine over all streams: what it emits, what it remembers and what a participant's snapshot says. */
module QualityEngine {
  import opened Wrappers
  import opened Quality
  import opened Hysteresis

  datatype Direction = Outbound | Inbound

  datatype Key = Key(participant: string, direction: Direction, kind: Kind, track: string)

  datatype Point = Point(at: int, status: Status)

  datatype EventType = Degraded | Recovered | Changed

  datatype Event = Event(tag: EventType, from: Status, to: Status, reason: Option<Problem>, at: int)

  datatype Stream = Stream(
    prev: Option<Sample>, buf: seq<Derived>, stab: Stab, last: Analysis, history: seq<Point>, updated: int)

  function NewStream(cfg: Config, now: int): (r: Stream) {
    Stream(None, [], NewStab(cfg.degradeSamples, cfg.recoverSamples), Analysis(Unknown, 0, []), [], now)
  }

  function WindowSize(cfg: Config): (r: nat) { if cfg.windowSamples < 1 then 1 else cfg.windowSamples }

  /** A first verdict is a change, a loss of rank a degradation, a return to GOOD a recovery. */
  function MakeEvent(from: Status, to: Status, problems: seq<Problem>, at: int): (e: Event)
    ensures e.tag == Degraded <==> 0 <= Rank(from) < Rank(to)
    ensures from != to ==> (e.tag == Recovered <==> Rank(from) > 0 && to == Good)
  {
    var tag :=
      if Rank(from) < 0 then Changed
      else if Rank(to) > Rank(from) then Degraded
      else if to == Good then Recovered
      else Changed;
    Event(tag, from, to, if |problems| > 0 then Some(problems[0]) else None, at)
  }

  /** One sample into one stream: the stream after it and the event it caused, if any. */
  function Feed(st: Stream, kind: Kind, sample: Sample, cfg: Config, now: int, at: int): (r: (Stream, Option<Event>)) {
    var d := Derive(st.prev, sample);
    var seen := st.(prev := Some(sample), updated := now);
    if !d.hasData && d.enabled then (seen, None)
    else
      var buf := Newest(st.buf + [d], WindowSize(cfg));
      var verdict := Analyze(kind, Mean(buf), cfg);
      var stab := Observe(st.stab, verdict.status);
      var judged := seen.(buf := buf, stab := stab, last := verdict.(status := stab.stable));
      if stab.stable == st.stab.stable then (judged, None)
      else
        (judged.(history := Newest(st.history + [Point(at, stab.stable)], cfg.historySize)),
         Some(MakeEvent(st.stab.stable, stab.stable, verdict.problems, at)))
  }

  // ------------------------------------------------------------------
  // Combining the legs
  // ------------------------------------------------------------------

  datatype StreamQuality = StreamQuality(key: Key, status: Status, score: int, problems: seq<Problem>)

  predicate Has(legs: seq<StreamQuality>, kind: Kind, status: Status) {
    exists q :: q in legs && q.key.kind == kind && q.status == status
  }

  predicate HasAny(legs: seq<StreamQuality>, status: Status) {
    Has(legs, Audio, status) || Has(legs, Video, status)
  }

  /** Bad audio or a bad connection makes the call POOR, bad video alone at most WARNING, and no
      verdict anywhere means no verdict. */
  method Overall(conn: Status, legs: seq<StreamQuality>) returns (r: Status)
    ensures r == Poor <==> conn == Poor || Has(legs, Audio, Poor)
    ensures r == Good <==> (conn == Good || HasAny(legs, Good)) && conn !in {Warning, Poor} && !HasAny(legs, Warning) && !HasAny(legs, Poor)
    ensures r == Unknown <==> conn == Unknown && !HasAny(legs, Good) && !HasAny(legs, Warning) && !HasAny(legs, Poor)
  {
    var base, video := conn, Unknown;
    for i := 0 to |legs|
      invariant base == Poor <==> conn == Poor || Has(legs[..i], Audio, Poor)
      invariant base == Unknown <==> conn == Unknown && !Has(legs[..i], Audio, Good) && !Has(legs[..i], Audio, Warning) && !Has(legs[..i], Audio, Poor)
      invariant base in {Unknown, Good} <==> conn in {Unknown, Good} && !Has(legs[..i], Audio, Warning) && !Has(legs[..i], Audio, Poor)
      invariant video == Poor <==> Has(legs[..i], Video, Poor)
      invariant video == Unknown <==> !Has(legs[..i], Video, Good) && !Has(legs[..i], Video, Warning) && !Has(legs[..i], Video, Poor)
      invariant video in {Unknown, Good} <==> !Has(legs[..i], Video, Warning) && !Has(legs[..i], Video, Poor)
    {
      HasOneMore(legs, i);
      hide Has;
      match legs[i].key.kind
      case Audio => base := Worst(base, legs[i].status);
      case Video => video := Worst(video, legs[i].status);
      case Connection =>
    }
    assert legs[..|legs|] == legs;
    hide Has;
    return if video == Poor then Worst(base, Warning) else Worst(base, video);
  }

  lemma HasOneMore(legs: seq<StreamQuality>, i: nat)
    requires i < |legs|
    ensures forall k, s {:trigger Has(legs[..i + 1], k, s)} ::
      Has(legs[..i + 1], k, s) <==> Has(legs[..i], k, s) || (legs[i].key.kind == k && legs[i].status == s)
  {
    assert legs[..i + 1] == legs[..i] + [legs[i]];
    forall k, s ensures Has(legs[..i + 1], k, s) <==> Has(legs[..i], k, s) || (legs[i].key.kind == k && legs[i].status == s) {
      if legs[i].key.kind == k && legs[i].status == s { assert legs[i] in legs[..i + 1]; }
      if Has(legs[..i], k, s) {
        var q :| q in legs[..i] && q.key.kind == k && q.status == s;
        assert q in legs[..i + 1];
      }
    }
  }

  // ------------------------------------------------------------------
  // The engine
  // ------------------------------------------------------------------

  datatype Snap = Snap(connection: Status, timeline: seq<Point>, legs: seq<StreamQuality>, overall: Status, recovering: bool)

  function QualityOf(k: Key, st: Stream): (r: StreamQuality) {
    StreamQuality(k, st.last.status, st.last.score, st.last.problems)
  }

  class Engine {
    const cfg: Config
    var streams: map<Key, Stream>
    var recovering: set<string>

    constructor (cfg: Config)
      ensures streams == map[] && recovering == {}
      ensures this.cfg == if cfg.windowSamples == 0 then DefaultConfig() else cfg
    {
      this.cfg := if cfg.windowSamples == 0 then DefaultConfig() else cfg;
      streams, recovering := map[], {};
    }

    method SetRecovering(participant: string, on: bool)
      modifies this`recovering
      ensures recovering == if on then old(recovering) + {participant} else old(recovering) - {participant}
    {
      recovering := if on then recovering + {participant} else recovering - {participant};
    }

    method Ingest(key: Key, sample: Sample, now: int, at: int) returns (event: Option<Event>)
      modifies this`streams
      ensures var fed := Feed(if key in old(streams) then old(streams[key]) else NewStream(cfg, now), key.kind, sample, cfg, now, at);
        streams == old(streams)[key := fed.0] && event == fed.1
      ensures key in streams && streams[key].updated == now && streams[key].prev == Some(sample)
      ensures forall k :: k != key ==> (k in streams <==> k in old(streams)) && (k in streams ==> streams[k] == old(streams)[k])
      ensures var was := if key in old(streams) then old(streams)[key].stab.stable else Unknown;
        match event
        case None => streams[key].stab.stable == was
        case Some(e) => e.from == was && e.to == streams[key].stab.stable != was && e.at == at
    {
      var st := if key in streams then streams[key] else NewStream(cfg, now);
      st, event := FeedStream(st, key.kind, sample, now, at);
      streams := streams[key := st];
    }

    method FeedStream(was: Stream, kind: Kind, sample: Sample, now: int, at: int) returns (st: Stream, event: Option<Event>)
      ensures (st, event) == Feed(was, kind, sample, cfg, now, at)
    {
      hide Derive, Analyze, Observe, Mean, MakeEvent;
      var d := Derive(was.prev, sample);
      st := was.(prev := Some(sample), updated := now);
      if !d.hasData && d.enabled { return st, None; }
      var win := new Window(cfg.windowSamples);
      win.buf := st.buf;
      win.Push(d);
      var mean := win.MeanOf();
      var verdict := Analyze(kind, mean, cfg);
      st := st.(buf := win.buf, stab := Observe(st.stab, verdict.status));
      st := st.(last := Analysis(st.stab.stable, verdict.score, verdict.problems));
      if st.stab.stable == was.stab.stable { return st, None; }
      var history := st.history + [Point(at, st.stab.stable)];
      if |history| > cfg.historySize { history := history[|history| - cfg.historySize..]; }
      st := st.(history := history);
      return st, Some(MakeEvent(was.stab.stable, st.stab.stable, verdict.problems, at));
    }

    method Forget(participant: string)
      modifies this
      ensures streams == (map k | k in old(streams) && k.participant != participant :: old(streams[k]))
      ensures recovering == old(recovering) - {participant}
    {
      var todo := streams.Keys;
      while todo != {}
        invariant todo <= streams.Keys <= old(streams).Keys
        invariant forall k :: k in streams ==> streams[k] == old(streams[k])
        invariant forall k :: k in old(streams) ==> (k in streams <==> k in todo || k.participant != participant)
        invariant recovering == old(recovering)
        decreases todo
      {
        var k :| k in todo;
        todo := todo - {k};
        if k.participant == participant { streams := streams - {k}; }
      }
      recovering := recovering - {participant};
    }

    method Prune(maxAge: int, now: int)
      modifies this`streams
      ensures streams == (map k | k in old(streams) && old(streams[k]).updated >= now - maxAge :: old(streams[k]))
    {
      var cutoff := now - maxAge;
      var todo := streams.Keys;
      while todo != {}
        invariant todo <= streams.Keys <= old(streams).Keys
        invariant forall k :: k in streams ==> streams[k] == old(streams[k])
        invariant forall k :: k in old(streams) ==> (k in streams <==> k in todo || old(streams[k]).updated >= cutoff)
        decreases todo
      {
        var k :| k in todo;
        todo := todo - {k};
        if streams[k].updated < cutoff { streams := streams - {k}; }
      }
    }

    /** The legs are exactly the participant's media streams, each once, and the connection is one of
        its connection streams if it has any. During session recovery the overall verdict is never POOR
        and never missing; otherwise it is missing exactly when no leg has a verdict. */
    method Snapshot(participant: string) returns (snap: Snap)
      ensures forall q :: q in snap.legs <==> IsLeg(streams, participant, q)
      ensures Apart(snap.legs)
      ensures ShowsConnection(streams, participant, snap.connection, snap.timeline)
      ensures snap.recovering <==> participant in recovering
      ensures snap.overall == Poor <==> !snap.recovering && (snap.connection == Poor || Has(snap.legs, Audio, Poor))
      ensures snap.overall == Good <==> (snap.connection == Good || HasAny(snap.legs, Good)) && snap.connection !in {Warning, Poor}
                                        && !HasAny(snap.legs, Warning) && !HasAny(snap.legs, Poor)
      ensures snap.overall == Unknown <==> !snap.recovering && snap.connection == Unknown
                                           && !HasAny(snap.legs, Good) && !HasAny(snap.legs, Warning) && !HasAny(snap.legs, Poor)
    {
      var outbound, inbound, conn, timeline := Collect(participant);
      var legs := outbound + inbound;
      hide IsLeg, Apart, ShowsConnection, Has, HasAny;
      var overall := Overall(conn, legs);
      if participant in recovering && overall in {Poor, Unknown} { overall := Warning; }
      return Snap(conn, timeline, legs, overall, participant in recovering);
    }

    method Collect(participant: string)
      returns (outbound: seq<StreamQuality>, inbound: seq<StreamQuality>, conn: Status, timeline: seq<Point>)
      ensures forall q :: q in outbound + inbound <==> IsLeg(streams, participant, q)
      ensures Apart(outbound + inbound)
      ensures ShowsConnection(streams, participant, conn, timeline)
    {
      conn, timeline, outbound, inbound := Unknown, [], [], [];
      var todo := streams.Keys;
      ghost var from: Option<Key> := None;
      while todo != {}
        invariant todo <= streams.Keys
        invariant forall q :: q in outbound || q in inbound <==> IsLeg(streams, participant, q) && q.key !in todo
        invariant Apart(outbound) && Apart(inbound)
        invariant forall q :: q in outbound ==> q.key.direction == Outbound
        invariant forall q :: q in inbound ==> q.key.direction == Inbound
        invariant match from
          case None => conn == Unknown && timeline == [] && forall k :: k in streams && OwnConnection(k, participant) ==> k in todo
          case Some(k) => k in streams && OwnConnection(k, participant) && conn == streams[k].last.status && timeline == streams[k].history
        decreases todo
      {
        var k :| k in todo;
        todo := todo - {k};
        if k.participant == participant {
          if k.kind == Connection {
            conn, timeline, from := streams[k].last.status, streams[k].history, Some(k);
          } else if k.direction == Outbound {
            AddedApart(outbound, QualityOf(k, streams[k]));
            outbound := outbound + [QualityOf(k, streams[k])];
          } else {
            AddedApart(inbound, QualityOf(k, streams[k]));
            inbound := inbound + [QualityOf(k, streams[k])];
          }
        }
      }
      JoinedApart(outbound, inbound);
    }
  }

  predicate OwnConnection(k: Key, participant: string) { k.participant == participant && k.kind == Connection }

  predicate IsLeg(streams: map<Key, Stream>, participant: string, q: StreamQuality) {
    q.key in streams && q.key.participant == participant && q.key.kind != Connection && q == QualityOf(q.key, streams[q.key])
  }

  /** No stream is listed twice. */
  predicate Apart(legs: seq<StreamQuality>) {
    forall i, j :: 0 <= i < j < |legs| ==> legs[i].key != legs[j].key
  }

  /** Status and timeline are those of a connection stream, or empty if there is none. */
  predicate ShowsConnection(streams: map<Key, Stream>, participant: string, conn: Status, timeline: seq<Point>) {
    if forall k :: k in streams ==> !OwnConnection(k, participant) then conn == Unknown && timeline == []
    else exists k :: k in streams && OwnConnection(k, participant) && conn == streams[k].last.status && timeline == streams[k].history
  }

  lemma AddedApart(legs: seq<StreamQuality>, q: StreamQuality)
    requires Apart(legs) && forall x :: x in legs ==> x.key != q.key
    ensures Apart(legs + [q])
  {
    assert forall i :: 0 <= i < |legs| ==> legs[i] in legs;
  }

  lemma JoinedApart(a: seq<StreamQuality>, b: seq<StreamQuality>)
    requires Apart(a) && Apart(b) && forall x, y :: x in a && y in b ==> x.key != y.key
    ensures Apart(a + b)
  {
    assert forall i :: 0 <= i < |a| ==> a[i] in a;
    assert forall j :: 0 <= j < |b| ==> b[j] in b;
  }

  // ------------------------------------------------------------------
  // Every run: events tell the whole story of a stream
  // ------------------------------------------------------------------

  /** `log` keeps the events each retained stream has caused since it was created. */
  datatype World = World(streams: map<Key, Stream>, log: map<Key, seq<Event>>)

  datatype Step =
    | Ingested(key: Key, sample: Sample, now: int, at: int)
    | Forgotten(participant: string)
    | Pruned(cutoff: int)

  function Next(w: World, step: Step, cfg: Config): (r: World) {
    match step
    case Ingested(key, sample, now, at) =>
      var fed, log := Feed(At(w, key, cfg, now), key.kind, sample, cfg, now, at), LogAt(w, key);
      World(w.streams[key := fed.0], w.log[key := if fed.1.Some? then log + [fed.1.value] else log])
    case Forgotten(participant) =>
      World(map k | k in w.streams && k.participant != participant :: w.streams[k],
            map k | k in w.log && k.participant != participant :: w.log[k])
    case Pruned(cutoff) =>
      World(map k | k in w.streams && w.streams[k].updated >= cutoff :: w.streams[k],
            map k | k in w.log && k in w.streams && w.streams[k].updated >= cutoff :: w.log[k])
  }

  function Run(w: World, steps: seq<Step>, cfg: Config): (r: World) {
    if steps == [] then w else Next(Run(w, steps[..|steps| - 1], cfg), steps[|steps| - 1], cfg)
  }

  /** Each event starts at the status the one before it ended at, and moves. */
  predicate Chain(events: seq<Event>, start: Status, end: Status) {
    if events == [] then start == end
    else
      var e := events[|events| - 1];
      e.to == end && e.from != e.to && Chain(events[..|events| - 1], start, e.from)
  }

  function Points(events: seq<Event>): (ps: seq<Point>)
    ensures |ps| == |events|
    ensures forall i :: 0 <= i < |ps| ==> ps[i] == Point(events[i].at, events[i].to)
  {
    if events == [] then [] else Points(events[..|events| - 1]) + [Point(events[|events| - 1].at, events[|events| - 1].to)]
  }

  ghost predicate Told(st: Stream, log: seq<Event>, cfg: Config) {
    && Chain(log, Unknown, st.stab.stable)
    && st.last.status == st.stab.stable
    && st.history == Newest(Points(log), cfg.historySize)
    && |st.buf| <= WindowSize(cfg)
  }

  lemma FeedKeepsTold(st: Stream, log: seq<Event>, kind: Kind, sample: Sample, cfg: Config, now: int, at: int)
    requires Told(st, log, cfg)
    ensures var fed := Feed(st, kind, sample, cfg, now, at);
      Told(fed.0, if fed.1.Some? then log + [fed.1.value] else log, cfg)
  {
    var fed := Feed(st, kind, sample, cfg, now, at);
    if fed.1.Some? {
      var log' := log + [fed.1.value];
      assert log'[..|log|] == log;
      NewestOfMore(Points(log), Point(at, fed.0.stab.stable), cfg.historySize);
      assert Points(log') == Points(log) + [Point(at, fed.0.stab.stable)];
    }
    hide Derive, Analyze, Observe, Mean;
  }

  lemma NewestOfMore<T>(s: seq<T>, x: T, n: nat)
    ensures Newest(Newest(s, n) + [x], n) == Newest(s + [x], n)
  {
  }

  ghost predicate Inv(w: World, cfg: Config) {
    w.streams.Keys == w.log.Keys && forall k :: k in w.streams ==> Told(w.streams[k], w.log[k], cfg)
  }

  lemma {:induction false} RunKeepsInv(steps: seq<Step>, cfg: Config)
    ensures Inv(Run(World(map[], map[]), steps, cfg), cfg)
  {
    if steps != [] {
      RunKeepsInv(steps[..|steps| - 1], cfg);
      StepKeepsInv(Run(World(map[], map[]), steps[..|steps| - 1], cfg), steps[|steps| - 1], cfg);
    }
    hide Inv, Next;
  }

  function At(w: World, k: Key, cfg: Config, now: int): (r: Stream) {
    if k in w.streams then w.streams[k] else NewStream(cfg, now)
  }

  function LogAt(w: World, k: Key): (r: seq<Event>) { if k in w.log then w.log[k] else [] }

  lemma IngestKeepsInv(w: World, step: Step, cfg: Config)
    requires Inv(w, cfg) && step.Ingested?
    ensures Inv(Next(w, step, cfg), cfg)
  {
    hide Told, Feed, NewStream;
    var st, log := At(w, step.key, cfg, step.now), LogAt(w, step.key);
    FreshIsTold(cfg, step.now);
    assert Told(st, log, cfg);
    FeedKeepsTold(st, log, step.key.kind, step.sample, cfg, step.now, step.at);
    hide At, LogAt;
  }

  lemma FreshIsTold(cfg: Config, now: int)
    ensures Told(NewStream(cfg, now), [], cfg)
  {
  }

  lemma StepKeepsInv(w: World, step: Step, cfg: Config)
    requires Inv(w, cfg)
    ensures Inv(Next(w, step, cfg), cfg)
  {
    if step.Ingested? { IngestKeepsInv(w, step, cfg); }
    hide Told, Feed;
  }

  /** In every run the events of a retained stream chain from UNKNOWN to the status its snapshot
      shows, and its timeline is the newest of them. */
  lemma EventsTellTheStory(steps: seq<Step>, cfg: Config, k: Key)
    ensures var w := Run(World(map[], map[]), steps, cfg);
      k in w.streams ==>
        && k in w.log
        && Chain(w.log[k], Unknown, QualityOf(k, w.streams[k]).status)
        && w.streams[k].history == Newest(Points(w.log[k]), cfg.historySize)
  {
    RunKeepsInv(steps, cfg);
    hide Run, Chain, Points;
  }

  /** Every event names a cause unless it reports GOOD, and none that does; a stream that goes without
      verdict has had its track disabled. */
  lemma EventsNameTheirCause(st: Stream, kind: Kind, sample: Sample, cfg: Config, now: int, at: int)
    requires cfg.goodScore <= 100 && Feed(st, kind, sample, cfg, now, at).1.Some?
    ensures var event := Feed(st, kind, sample, cfg, now, at).1.value;
      && (event.reason.None? <==> event.to == Good)
      && (event.to == Unknown ==> event.reason == Some(TrackDisabled))
  {
    var mean := Mean(Newest(st.buf + [Derive(st.prev, sample)], WindowSize(cfg)));
    CauseOfVerdict(kind, mean, cfg);
    hide Derive, Analyze, Mean;
  }

  lemma CauseOfVerdict(kind: Kind, d: Derived, cfg: Config)
    requires cfg.goodScore <= 100 && d.hasData
    ensures var a := Analyze(kind, d, cfg);
      && (a.problems == [] <==> a.status == Good)
      && (a.status == Unknown ==> a.problems == [TrackDisabled])
  {
    GoodMeansNoProblem(MediaRules(kind, ThresholdsOf(cfg, kind)), d, cfg);
    GoodMeansNoProblem(ConnectionRules(cfg.connection), d, cfg);
    hide MediaRules, ConnectionRules, ThresholdsOf, WorstGrade, Named, Costs;
  }

  /** What a step does to a stream: a sample creates or updates its own, forgetting takes exactly the
      participant's, pruning exactly those not updated since, and what stays is unchanged. */
  lemma StepTouchesExactly(w: World, step: Step, cfg: Config, k: Key)
    ensures var w' := Next(w, step, cfg);
      && (step.Ingested? ==> (k in w'.streams <==> k in w.streams || k == step.key))
      && (step.Forgotten? ==> (k in w'.streams <==> k in w.streams && k.participant != step.participant))
      && (step.Pruned? ==> (k in w'.streams <==> k in w.streams && w.streams[k].updated >= step.cutoff))
      && (k in w'.streams && !(step.Ingested? && step.key == k) ==> w'.streams[k] == w.streams[k])
      && (step.Ingested? && step.key == k ==> w'.streams[k].updated == step.now && w'.streams[k].prev == Some(step.sample))
  {
    hide Derive, Analyze, Mean, Observe, Newest, MakeEvent, NewStream;
  }
}
