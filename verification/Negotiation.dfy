/** Perfect negotiation between the SFU (impolite) and one browser (polite), over
    two FIFO channels. Every handler is one atomic step.

    An SDP is reduced to what the protocol turns on: which offer it is, which offer
    an answer answers, and which version of the sender's media state it describes. */
module Negotiation {

  datatype Sdp =
    | Offer(id: nat, version: nat)
    | Answer(to: nat)

  /** The part of RTCSignalingState that outlives an atomic handler. */
  datatype Signaling = Stable | HaveLocalOffer(id: nat, version: nat)

  /** `version` counts the changes to the forwarded tracks, `offered` is the version
      the last offer described, `remote` the browser version last applied. `failed` says that
      creating an offer for an unsent change has failed since the last offer, and `stuck` that
      applying the answer to the outstanding offer has failed. */
  datatype Sfu = Sfu(
    sig: Signaling, makingOffer: bool, needNegotiate: bool, timerArmed: bool, closed: bool,
    version: nat, offered: nat, remote: nat, nextOffer: nat, failed: bool, stuck: bool)

  /** `done` is the version of the last browser offer that was answered. */
  datatype Browser = Browser(
    sig: Signaling, makingOffer: bool, version: nat, done: nat, remote: nat, nextOffer: nat)

  // ------------------------------------------------------------------
  // Handlers as functions on values
  // ------------------------------------------------------------------

  /** `ok` says whether the offer can be created and set; a failure is logged and not retried. */
  function Negotiate(s: Sfu, ok: bool): (r: (Sfu, seq<Sdp>)) {
    if s.closed then (s, [])
    else if s.makingOffer || s.sig != Stable then (s.(needNegotiate := true), [])
    else if !ok then (s.(makingOffer := false, failed := s.failed || s.offered < s.version), [])
    else
      (s.(sig := HaveLocalOffer(s.nextOffer, s.version), makingOffer := true,
          offered := s.version, nextOffer := s.nextOffer + 1, failed := false),
       [Offer(s.nextOffer, s.version)])
  }

  function ScheduleNegotiate(s: Sfu): (r: Sfu) {
    if s.closed then s else s.(timerArmed := true)
  }

  function TimerFired(s: Sfu, ok: bool): (r: (Sfu, seq<Sdp>)) {
    if s.timerArmed then Negotiate(s.(timerArmed := false), ok) else (s, [])
  }

  function HandleOffer(s: Sfu, m: Sdp): (r: (Sfu, seq<Sdp>))
    requires m.Offer?
  {
    if s.closed || s.makingOffer || s.sig != Stable then (s, [])
    else (s.(remote := m.version), [Answer(m.id)])
  }

  /** An answer outside have-local-offer is an error. Inside it, `applied` says whether it could be
      applied; if not, the handler returns before it clears anything. */
  function HandleAnswer(s: Sfu, applied: bool, ok: bool): (r: (Sfu, seq<Sdp>)) {
    if s.closed || s.sig == Stable then (s, [])
    else if !applied then (s.(stuck := true), [])
    else
      var s' := s.(sig := Stable, makingOffer := false, needNegotiate := false);
      if s.needNegotiate then Negotiate(s', ok) else (s', [])
  }

  function Closed(s: Sfu): (r: Sfu) {
    if s.closed then s else s.(closed := true, timerArmed := false)
  }

  predicate NegotiationNeeded(b: Browser) {
    b.sig == Stable && b.done < b.version
  }

  function OnNegotiationNeeded(b: Browser): (r: (Browser, seq<Sdp>)) {
    (b.(sig := HaveLocalOffer(b.nextOffer, b.version), makingOffer := false, nextOffer := b.nextOffer + 1),
     [Offer(b.nextOffer, b.version)])
  }

  /** The polite side: an outstanding offer is rolled back, an answer nobody waits for is dropped. */
  function HandleSignal(b: Browser, m: Sdp): (r: (Browser, seq<Sdp>)) {
    match m
    case Answer(_) =>
      if b.sig == Stable then (b, []) else (b.(sig := Stable, done := b.sig.version), [])
    case Offer(id, v) =>
      (b.(sig := Stable, remote := v), [Answer(id)])
  }

  // ------------------------------------------------------------------
  // The handlers as the objects run them
  // ------------------------------------------------------------------

  class Participant {
    var sig: Signaling
    var makingOffer: bool
    var needNegotiate: bool
    var timerArmed: bool
    var closed: bool
    var version: nat
    var offered: nat
    var remote: nat
    var nextOffer: nat
    var failed: bool
    var stuck: bool

    ghost function State(): (s: Sfu)
      reads this
    {
      Sfu(sig, makingOffer, needNegotiate, timerArmed, closed, version, offered, remote, nextOffer, failed, stuck)
    }

    constructor ()
      ensures State() == InitialSfu()
    {
      sig, makingOffer, needNegotiate, timerArmed, closed := Stable, false, false, false, false;
      version, offered, remote, nextOffer, failed, stuck := 0, 0, 0, 0, false, false;
    }

    method NegotiateNow(ok: bool) returns (out: seq<Sdp>)
      modifies this
      ensures (State(), out) == Negotiate(old(State()), ok)
    {
      if closed { return []; }
      if makingOffer || sig != Stable {
        needNegotiate := true;
        return [];
      }
      makingOffer := true;
      if !ok {
        failed := failed || offered < version;
        makingOffer := false;
        return [];
      }
      var id := nextOffer;
      nextOffer := nextOffer + 1;
      sig := HaveLocalOffer(id, version);
      offered := version;
      failed := false;
      return [Offer(id, version)];
    }

    /** subscribe and unsubscribe change the track set, then ask for a debounced negotiation. */
    method ChangeTracks()
      modifies this
      ensures State() == if old(closed) then old(State())
                         else ScheduleNegotiate(old(State()).(version := old(version) + 1))
      ensures !old(closed) ==> version == old(version) + 1 && timerArmed
    {
      if closed { return; }
      version := version + 1;
      if timerArmed { return; }
      timerArmed := true;
    }

    method OnTimer(ok: bool) returns (out: seq<Sdp>)
      modifies this
      ensures (State(), out) == TimerFired(old(State()), ok)
    {
      out := [];
      if timerArmed {
        timerArmed := false;
        out := NegotiateNow(ok);
      }
    }

    method ReceiveOffer(m: Sdp) returns (out: seq<Sdp>)
      requires m.Offer?
      modifies this
      ensures (State(), out) == HandleOffer(old(State()), m)
    {
      var collision := closed || makingOffer || sig != Stable;
      if collision { return []; }
      remote := m.version;
      return [Answer(m.id)];
    }

    method ReceiveAnswer(applied: bool, ok: bool) returns (out: seq<Sdp>)
      modifies this
      ensures (State(), out) == HandleAnswer(old(State()), applied, ok)
    {
      if closed || sig == Stable { return []; }
      if !applied {
        stuck := true;
        return [];
      }
      sig := Stable;
      makingOffer := false;
      var again := needNegotiate;
      needNegotiate := false;
      out := [];
      if again { out := NegotiateNow(ok); }
    }

    method Close()
      modifies this
      ensures State() == Closed(old(State()))
      ensures closed && (if old(closed) then timerArmed == old(timerArmed) else !timerArmed)
      ensures sig == old(sig) && makingOffer == old(makingOffer) && needNegotiate == old(needNegotiate)
      ensures version == old(version) && offered == old(offered) && remote == old(remote) && nextOffer == old(nextOffer)
      ensures failed == old(failed) && stuck == old(stuck)
    {
      if closed { return; }
      closed := true;
      timerArmed := false;
    }
  }

  class Negotiator {
    var sig: Signaling
    var makingOffer: bool
    var version: nat
    var done: nat
    var remote: nat
    var nextOffer: nat

    ghost function State(): (b: Browser)
      reads this
    {
      Browser(sig, makingOffer, version, done, remote, nextOffer)
    }

    method Fire() returns (out: seq<Sdp>)
      requires NegotiationNeeded(State())
      modifies this
      ensures (State(), out) == OnNegotiationNeeded(old(State()))
    {
      makingOffer := true;
      var id := nextOffer;
      nextOffer := nextOffer + 1;
      sig := HaveLocalOffer(id, version);
      out := [Offer(id, version)];
      makingOffer := false;
    }

    method Receive(m: Sdp) returns (out: seq<Sdp>)
      modifies this
      ensures (State(), out) == HandleSignal(old(State()), m)
    {
      match m
      case Answer(_) =>
        out := [];
        if sig != Stable {
          done := sig.version;
          sig := Stable;
        }
      case Offer(id, v) =>
        var collision := makingOffer || sig != Stable;
        if collision {
          sig := Stable; // rollback; the tracks it offered are un-negotiated again
        }
        remote := v;
        out := [Answer(id)];
    }
  }

  // ------------------------------------------------------------------
  // The two parties and their channels
  // ------------------------------------------------------------------

  datatype World = World(sfu: Sfu, browser: Browser, toSfu: seq<Sdp>, toBrowser: seq<Sdp>)

  datatype Step =
    | SfuChange       // a subscribe or unsubscribe
    | BrowserChange   // a local track added or removed
    | SfuClose
    | SfuTimer(ok: bool)
    | SfuReceive(applied: bool, ok: bool)
    | BrowserOffer
    | BrowserReceive

  function InitialSfu(): (r: Sfu) { Sfu(Stable, false, false, false, false, 0, 0, 0, 0, false, false) }
  function InitialWorld(): (r: World) {
    World(InitialSfu(), Browser(Stable, false, 0, 0, 0, 0), [], [])
  }

  /** A step the protocol takes on its own, as opposed to one the application causes. */
  predicate Internal(step: Step) {
    step.SfuTimer? || step.SfuReceive? || step.BrowserOffer? || step.BrowserReceive?
  }

  predicate Enabled(w: World, step: Step) {
    match step
    case SfuTimer(ok) => w.sfu.timerArmed
    case SfuReceive(_, _) => w.toSfu != []
    case BrowserOffer => NegotiationNeeded(w.browser)
    case BrowserReceive => w.toBrowser != []
    case _ => true
  }

  /** One step; a step that is not enabled changes nothing. */
  function Next(w: World, step: Step): (w': World) {
    if !Enabled(w, step) then w else
    match step
    case SfuChange =>
      if w.sfu.closed then w
      else w.(sfu := ScheduleNegotiate(w.sfu.(version := w.sfu.version + 1)))
    case BrowserChange => w.(browser := w.browser.(version := w.browser.version + 1))
    case SfuClose => w.(sfu := Closed(w.sfu))
    case SfuTimer(ok) =>
      var (s, out) := TimerFired(w.sfu, ok);
      w.(sfu := s, toBrowser := w.toBrowser + out)
    case SfuReceive(applied, ok) =>
      var (s, out) := if w.toSfu[0].Offer? then HandleOffer(w.sfu, w.toSfu[0]) else HandleAnswer(w.sfu, applied, ok);
      w.(sfu := s, toSfu := w.toSfu[1..], toBrowser := w.toBrowser + out)
    case BrowserOffer =>
      var (b, out) := OnNegotiationNeeded(w.browser);
      w.(browser := b, toSfu := w.toSfu + out)
    case BrowserReceive =>
      var (b, out) := HandleSignal(w.browser, w.toBrowser[0]);
      w.(browser := b, toBrowser := w.toBrowser[1..], toSfu := w.toSfu + out)
  }

  function Run(w: World, steps: seq<Step>): (w': World)
    decreases |steps|
  {
    if steps == [] then w else Run(Next(w, steps[0]), steps[1..])
  }

  // ------------------------------------------------------------------
  // The invariant: every shape the channels can take
  // ------------------------------------------------------------------

  ghost predicate IdleShape(w: World) {
    && w.sfu.sig == Stable
    && ( || (w.browser.sig == Stable && w.toBrowser == [] && w.toSfu == [])
         || (w.browser.sig != Stable && w.toBrowser == []
             && w.toSfu == [Offer(w.browser.sig.id, w.browser.sig.version)])
         || (w.browser.sig != Stable && w.toBrowser == [Answer(w.browser.sig.id)] && w.toSfu == []))
  }

  /** The SFU's offer is still on its way to the browser. */
  ghost predicate OfferShape(w: World) {
    && w.sfu.sig != Stable
    && var mine := Offer(w.sfu.sig.id, w.sfu.sig.version);
       || (w.browser.sig == Stable && w.toBrowser == [mine] && w.toSfu == [])
       || (w.browser.sig != Stable && w.toBrowser == [mine]
           && (w.toSfu == [] || w.toSfu == [Offer(w.browser.sig.id, w.browser.sig.version)]))
       || (w.browser.sig != Stable && w.toBrowser == [Answer(w.browser.sig.id), mine] && w.toSfu == [])
  }

  /** The browser's answer is on its way back, perhaps behind an offer it has rolled back. */
  ghost predicate AnswerShape(w: World) {
    && w.sfu.sig != Stable
    && w.toBrowser == []
    && w.browser.remote == w.sfu.sig.version
    && AfterStale(w.toSfu) == [Answer(w.sfu.sig.id)] +
         (if w.browser.sig == Stable then [] else [Offer(w.browser.sig.id, w.browser.sig.version)])
  }

  /** The channel without an offer at its head. */
  function AfterStale(q: seq<Sdp>): (r: seq<Sdp>) {
    if q != [] && q[0].Offer? then q[1..] else q
  }

  /** The answer could not be applied: nothing of the SFU's is in the network any more. */
  ghost predicate StuckShape(w: World) {
    && w.sfu.sig != Stable
    && w.toBrowser == []
    && (w.toSfu == [] || (w.browser.sig != Stable && w.toSfu == [Offer(w.browser.sig.id, w.browser.sig.version)]))
  }

  /** After close only the messages already sent to the browser matter. */
  ghost predicate ClosedShape(w: World) {
    || w.toBrowser == []
    || (|w.toBrowser| == 1 && w.toBrowser[0].Offer?)
    || (w.browser.sig != Stable && |w.toBrowser| <= 2 && w.toBrowser[0] == Answer(w.browser.sig.id)
        && (|w.toBrowser| == 2 ==> w.toBrowser[1].Offer?))
  }

  /** What is offered, negotiated and known on each side. */
  ghost predicate Versions(w: World) {
    var s, b := w.sfu, w.browser;
    && s.offered <= s.version && b.done <= b.version
    && (s.sig != Stable ==> s.sig.version == s.offered)
    && (b.sig != Stable ==> b.sig.version <= b.version)
    && s.makingOffer == (s.sig != Stable)
    && !b.makingOffer
    && (s.needNegotiate ==> s.sig != Stable)
    && (s.offered < s.version ==> s.timerArmed || s.needNegotiate || s.failed)
    && (s.failed ==> s.offered < s.version)
    && (s.sig == Stable ==> b.remote == s.offered)
    && s.remote == (if w.toBrowser != [] && w.toBrowser[0].Answer? && b.sig != Stable then b.sig.version else b.done)
  }

  ghost predicate Inv(w: World) {
    && ClosedShape(w)
    && (w.sfu.closed ==> !w.sfu.timerArmed)
    && (!w.sfu.closed ==> Versions(w) && if w.sfu.stuck then StuckShape(w) else IdleShape(w) || OfferShape(w) || AnswerShape(w))
  }

  lemma TimerKeepsInv(w: World, ok: bool)
    requires Inv(w)
    ensures Inv(Next(w, SfuTimer(ok)))
  {
  }

  lemma SfuOfferKeepsInv(w: World, applied: bool, ok: bool)
    requires Inv(w) && w.toSfu != [] && w.toSfu[0].Offer?
    ensures Inv(Next(w, SfuReceive(applied, ok)))
  {
  }

  lemma SfuAnswerKeepsInv(w: World, applied: bool, ok: bool)
    requires Inv(w) && w.toSfu != [] && w.toSfu[0].Answer?
    ensures Inv(Next(w, SfuReceive(applied, ok)))
  {
  }

  lemma SfuReceiveKeepsInv(w: World, applied: bool, ok: bool)
    requires Inv(w)
    ensures Inv(Next(w, SfuReceive(applied, ok)))
  {
    if w.toSfu != [] {
      if w.toSfu[0].Offer? { SfuOfferKeepsInv(w, applied, ok); } else { SfuAnswerKeepsInv(w, applied, ok); }
    }
    hide Inv;
  }

  lemma BrowserOfferKeepsInv(w: World)
    requires Inv(w)
    ensures Inv(Next(w, BrowserOffer))
  {
  }

  lemma BrowserReceiveKeepsInv(w: World)
    requires Inv(w)
    ensures Inv(Next(w, BrowserReceive))
  {
  }

  lemma StepKeepsInv(w: World, step: Step)
    requires Inv(w)
    ensures Inv(Next(w, step))
  {
    match step
    case SfuTimer(ok) => TimerKeepsInv(w, ok);
    case SfuReceive(applied, ok) => SfuReceiveKeepsInv(w, applied, ok);
    case BrowserOffer => BrowserOfferKeepsInv(w);
    case BrowserReceive => BrowserReceiveKeepsInv(w);
    case _ =>
  }

  lemma {:induction false} RunKeepsInv(w: World, steps: seq<Step>)
    requires Inv(w)
    ensures Inv(Run(w, steps))
    decreases |steps|
  {
    if steps != [] {
      StepKeepsInv(w, steps[0]);
      RunKeepsInv(Next(w, steps[0]), steps[1..]);
    }
  }

  // ------------------------------------------------------------------
  // Safety of every run
  // ------------------------------------------------------------------

  /** Whatever has happened, an answer about to be applied answers the receiver's own
      outstanding offer, and an offer the SFU is about to accept has not been rolled back. */
  lemma AppliedAnswersMatch(steps: seq<Step>)
    ensures var w := Run(InitialWorld(), steps);
      && (w.toBrowser != [] && w.toBrowser[0].Answer? ==>
            w.browser.sig.HaveLocalOffer? && w.browser.sig.id == w.toBrowser[0].to)
      && (!w.sfu.closed && w.toSfu != [] && w.toSfu[0].Answer? ==>
            w.sfu.sig.HaveLocalOffer? && w.sfu.sig.id == w.toSfu[0].to)
      && (!w.sfu.closed && w.toSfu != [] && w.toSfu[0].Offer? && w.sfu.sig == Stable ==>
            w.browser.sig == HaveLocalOffer(w.toSfu[0].id, w.toSfu[0].version))
  {
    RunKeepsInv(InitialWorld(), steps);
  }

  /** Every offer outstanding, in flight or being answered has an id that was given out before, so
      the next offer of either side gets one that no message can refer to yet. */
  ghost predicate IdsGivenOut(w: World) {
    && (w.sfu.sig != Stable ==> w.sfu.sig.id < w.sfu.nextOffer)
    && (w.browser.sig != Stable ==> w.browser.sig.id < w.browser.nextOffer)
    && (forall m :: m in w.toBrowser ==> if m.Offer? then m.id < w.sfu.nextOffer else m.to < w.browser.nextOffer)
    && (forall m :: m in w.toSfu ==> if m.Offer? then m.id < w.browser.nextOffer else m.to < w.sfu.nextOffer)
  }

  lemma SfuStepKeepsIds(w: World, step: Step)
    requires IdsGivenOut(w) && !step.BrowserOffer? && !step.BrowserReceive?
    ensures IdsGivenOut(Next(w, step))
  {
  }

  lemma BrowserStepKeepsIds(w: World, step: Step)
    requires IdsGivenOut(w) && (step.BrowserOffer? || step.BrowserReceive?)
    ensures IdsGivenOut(Next(w, step))
  {
  }

  lemma IdsOnlyGrow(w: World, step: Step)
    ensures w.sfu.nextOffer <= Next(w, step).sfu.nextOffer && w.browser.nextOffer <= Next(w, step).browser.nextOffer
  {
  }

  lemma {:induction false} RunKeepsIds(w: World, steps: seq<Step>)
    requires IdsGivenOut(w)
    ensures IdsGivenOut(Run(w, steps))
    ensures w.sfu.nextOffer <= Run(w, steps).sfu.nextOffer && w.browser.nextOffer <= Run(w, steps).browser.nextOffer
    decreases |steps|
  {
    hide IdsGivenOut, Next;
    if steps != [] {
      IdsOnlyGrow(w, steps[0]);
      if steps[0].BrowserOffer? || steps[0].BrowserReceive? { BrowserStepKeepsIds(w, steps[0]); } else { SfuStepKeepsIds(w, steps[0]); }
      RunKeepsIds(Next(w, steps[0]), steps[1..]);
    }
  }

  /** No offer id is ever used again: what is outstanding or in the network never refers to an offer
      still to be made, however long the run goes on. */
  lemma OfferIdsAreFresh(steps: seq<Step>, rest: seq<Step>)
    ensures var w, w' := Run(InitialWorld(), steps), Run(Run(InitialWorld(), steps), rest);
      && (w.sfu.sig != Stable ==> w.sfu.sig.id < w'.sfu.nextOffer)
      && (w.browser.sig != Stable ==> w.browser.sig.id < w'.browser.nextOffer)
      && (forall m :: m in w.toBrowser ==> if m.Offer? then m.id < w'.sfu.nextOffer else m.to < w'.browser.nextOffer)
      && (forall m :: m in w.toSfu ==> if m.Offer? then m.id < w'.browser.nextOffer else m.to < w'.sfu.nextOffer)
  {
    RunKeepsIds(InitialWorld(), steps);
    RunKeepsIds(Run(InitialWorld(), steps), rest);
    hide Run;
  }

  function Offers(q: seq<Sdp>): (n: nat) {
    if q == [] then 0 else (if q[0].Offer? then 1 else 0) + Offers(q[1..])
  }

  function Answers(q: seq<Sdp>): (n: nat) {
    if q == [] then 0 else (if q[0].Answer? then 1 else 0) + Answers(q[1..])
  }

  lemma CountsOfShort(q: seq<Sdp>)
    requires |q| <= 2
    ensures Offers(q) == (if |q| > 0 && q[0].Offer? then 1 else 0) + (if |q| > 1 && q[1].Offer? then 1 else 0)
    ensures Answers(q) == |q| - Offers(q)
  {
    if |q| == 2 { assert q[1..] == [q[1]]; }
  }

  /** The SFU has at most one negotiation of its own in the network: exactly one message when an
      offer is outstanding, that offer or its answer, and none otherwise or once the answer could not
      be applied. */
  lemma OneNegotiationInFlight(steps: seq<Step>)
    ensures var w := Run(InitialWorld(), steps);
      !w.sfu.closed ==>
        && Offers(w.toBrowser) + Answers(w.toSfu) == (if w.sfu.sig == Stable || w.sfu.stuck then 0 else 1)
        && (w.sfu.sig != Stable && !w.sfu.stuck ==>
              (Offer(w.sfu.sig.id, w.sfu.sig.version) in w.toBrowser) != (Answer(w.sfu.sig.id) in w.toSfu))
  {
    RunKeepsInv(InitialWorld(), steps);
    var w := Run(InitialWorld(), steps);
    if !w.sfu.closed {
      if !w.sfu.stuck && AnswerShape(w) {
        var rest := AfterStale(w.toSfu);
        assert Answer(w.sfu.sig.id) == rest[0];
        assert Answers(rest[1..]) == 0;
      } else {
        CountsOfShort(w.toBrowser);
        CountsOfShort(w.toSfu);
      }
    }
  }

  /** Debouncing and coalescing lose nothing: a change not yet offered has a timer or the
      negotiate-again flag behind it, unless creating an offer failed; the flag is only up while
      an answer is awaited. */
  lemma NoChangeForgotten(steps: seq<Step>)
    ensures var s := Run(InitialWorld(), steps).sfu;
      !s.closed ==>
        && (s.offered < s.version ==> s.timerArmed || s.needNegotiate || s.failed)
        && (s.needNegotiate ==> s.sig != Stable)
        && s.makingOffer == (s.sig != Stable)
  {
    RunKeepsInv(InitialWorld(), steps);
  }

  // ------------------------------------------------------------------
  // Convergence
  // ------------------------------------------------------------------

  ghost predicate Quiescent(w: World) {
    forall step :: Internal(step) ==> !Enabled(w, step)
  }

  /** Both sides are stable and each has applied the other's latest state. */
  predicate Converged(w: World) {
    && w.sfu.sig == Stable && w.browser.sig == Stable
    && w.browser.remote == w.sfu.version && w.sfu.remote == w.browser.version
  }

  /** Nothing left to do: the two sides agree exactly when no offer for an unsent change has failed
      and no answer has, and without a failed answer both are stable. */
  lemma QuietMeansConverged(w: World)
    requires Inv(w) && !w.sfu.closed && Quiescent(w)
    ensures Converged(w) <==> !w.sfu.failed && !w.sfu.stuck
    ensures !w.sfu.stuck ==> w.sfu.sig == Stable && w.browser.sig == Stable
    ensures !w.sfu.stuck ==> w.browser.remote == w.sfu.offered && w.sfu.remote == w.browser.version
  {
    assert !Enabled(w, SfuTimer(true)) && !Enabled(w, SfuReceive(true, true)) && !Enabled(w, BrowserOffer) && !Enabled(w, BrowserReceive);
  }

  function SfuMessageCost(m: Sdp): (r: nat) { if m.Offer? then 5 else 1 }
  function BrowserMessageCost(m: Sdp): (r: nat) { if m.Offer? then 2 else 1 }

  function ToBrowserCost(q: seq<Sdp>): (n: nat) {
    if q == [] then 0 else SfuMessageCost(q[0]) + ToBrowserCost(q[1..])
  }

  function ToSfuCost(q: seq<Sdp>): (n: nat) {
    if q == [] then 0 else BrowserMessageCost(q[0]) + ToSfuCost(q[1..])
  }

  lemma {:induction false} ToBrowserCostAppend(q: seq<Sdp>, m: Sdp)
    ensures ToBrowserCost(q + [m]) == ToBrowserCost(q) + SfuMessageCost(m)
  {
    if q == [] {
      assert (q + [m])[1..] == [];
    } else {
      assert (q + [m])[1..] == q[1..] + [m];
      ToBrowserCostAppend(q[1..], m);
    }
  }

  lemma {:induction false} ToSfuCostAppend(q: seq<Sdp>, m: Sdp)
    ensures ToSfuCost(q + [m]) == ToSfuCost(q) + BrowserMessageCost(m)
  {
    if q == [] {
      assert (q + [m])[1..] == [];
    } else {
      assert (q + [m])[1..] == q[1..] + [m];
      ToSfuCostAppend(q[1..], m);
    }
  }

  /** How many protocol steps are still ahead, at most. */
  function Rank(w: World): (n: nat) {
    var offeredByBrowser := if w.browser.sig == Stable then w.browser.done else w.browser.sig.version;
    (if w.sfu.timerArmed then 7 else 0) + (if w.sfu.needNegotiate then 6 else 0)
    + (if offeredByBrowser < w.browser.version then 3 else 0)
    + ToBrowserCost(w.toBrowser) + ToSfuCost(w.toSfu)
  }

  lemma TimerLowersRank(w: World, ok: bool)
    requires Inv(w) && !w.sfu.closed && w.sfu.timerArmed
    ensures Rank(Next(w, SfuTimer(ok))) < Rank(w)
  {
    if w.sfu.sig == Stable && ok { ToBrowserCostAppend(w.toBrowser, Offer(w.sfu.nextOffer, w.sfu.version)); }
    else { assert Next(w, SfuTimer(ok)).toBrowser == w.toBrowser; }
    hide ToBrowserCost, ToSfuCost;
  }

  lemma SfuReceiveLowersRank(w: World, applied: bool, ok: bool)
    requires !w.sfu.closed && w.toSfu != []
    ensures Rank(Next(w, SfuReceive(applied, ok))) < Rank(w)
  {
    var m, w' := w.toSfu[0], Next(w, SfuReceive(applied, ok));
    var (s, out) := if m.Offer? then HandleOffer(w.sfu, m) else HandleAnswer(w.sfu, applied, ok);
    assert ToSfuCost(w.toSfu) == BrowserMessageCost(m) + ToSfuCost(w'.toSfu);
    HandlerIsCheap(w.sfu, m, applied, ok);
    hide HandleOffer, HandleAnswer, SfuMessageCost, BrowserMessageCost;
    if out == [] { assert w'.toBrowser == w.toBrowser; }
    else {
      assert out == [out[0]];
      ToBrowserCostAppend(w.toBrowser, out[0]);
    }
    hide ToBrowserCost, ToSfuCost;
  }

  /** What a handler sends and still has to do costs less than the message it took. */
  lemma HandlerIsCheap(s: Sfu, m: Sdp, applied: bool, ok: bool)
    ensures var (s', out) := if m.Offer? then HandleOffer(s, m) else HandleAnswer(s, applied, ok);
      && |out| <= 1 && s'.timerArmed == s.timerArmed
      && (if s'.needNegotiate then 6 else 0) + (if out == [] then 0 else SfuMessageCost(out[0]))
         < BrowserMessageCost(m) + if s.needNegotiate then 6 else 0
  {
  }

  lemma BrowserStepLowersRank(w: World, step: Step)
    requires Inv(w) && !w.sfu.closed && (step.BrowserOffer? || step.BrowserReceive?) && Enabled(w, step)
    ensures Rank(Next(w, step)) < Rank(w)
  {
    var w' := Next(w, step);
    if w'.toSfu != w.toSfu {
      ToSfuCostAppend(w.toSfu, w'.toSfu[|w.toSfu|]);
      assert w'.toSfu == w.toSfu + [w'.toSfu[|w.toSfu|]];
    }
  }

  lemma InternalStepLowersRank(w: World, step: Step)
    requires Inv(w) && !w.sfu.closed && Internal(step) && Enabled(w, step)
    ensures Rank(Next(w, step)) < Rank(w)
  {
    hide Inv, Rank, Next;
    match step
    case SfuTimer(ok) => TimerLowersRank(w, ok);
    case SfuReceive(applied, ok) => SfuReceiveLowersRank(w, applied, ok);
    case _ => BrowserStepLowersRank(w, step);
  }

  lemma CostsOfShort(q: seq<Sdp>)
    requires |q| <= 2
    ensures ToBrowserCost(q) == (if |q| > 0 then SfuMessageCost(q[0]) else 0) + (if |q| > 1 then SfuMessageCost(q[1]) else 0)
    ensures ToSfuCost(q) == (if |q| > 0 then BrowserMessageCost(q[0]) else 0) + (if |q| > 1 then BrowserMessageCost(q[1]) else 0)
  {
    if |q| == 2 { assert q[1..] == [q[1]]; }
  }

  lemma RankBounded(w: World)
    requires Inv(w) && !w.sfu.closed
    ensures Rank(w) <= 24
  {
    if !w.sfu.stuck && AnswerShape(w) {
      var rest := AfterStale(w.toSfu);
      CostsOfShort(rest);
      assert w.toSfu != rest ==> ToSfuCost(w.toSfu) <= 2 + ToSfuCost(rest);
    } else {
      CostsOfShort(w.toBrowser);
      CostsOfShort(w.toSfu);
    }
  }

  /** Every step of `steps` is an enabled protocol step when its turn comes. */
  ghost predicate InternalRun(w: World, steps: seq<Step>)
    decreases |steps|
  {
    steps == [] || (Internal(steps[0]) && Enabled(w, steps[0]) && InternalRun(Next(w, steps[0]), steps[1..]))
  }

  lemma {:induction false} InternalRunIsShort(w: World, steps: seq<Step>)
    requires Inv(w) && !w.sfu.closed && InternalRun(w, steps)
    ensures |steps| <= Rank(w) && Inv(Run(w, steps)) && !Run(w, steps).sfu.closed
    decreases |steps|
  {
    if steps != [] {
      assert Next(w, steps[0]).sfu.closed == w.sfu.closed;
      hide Inv, Rank, Next;
      InternalStepLowersRank(w, steps[0]);
      StepKeepsInv(w, steps[0]);
      InternalRunIsShort(Next(w, steps[0]), steps[1..]);
    }
  }

  /** Glare cannot go on for ever: after any history on an open participant, once the application
      stops making changes the protocol takes at most 24 more steps in whatever order, and
      when none is left the two sides have each other's latest state exactly when no offer for an
      unsent change has failed and no answer has. */
  lemma NegotiationConverges(history: seq<Step>, steps: seq<Step>)
    requires !Run(InitialWorld(), history).sfu.closed
    requires InternalRun(Run(InitialWorld(), history), steps)
    ensures |steps| <= 24
    ensures var w := Run(Run(InitialWorld(), history), steps);
      Quiescent(w) ==> (Converged(w) <==> !w.sfu.failed && !w.sfu.stuck)
  {
    var w := Run(InitialWorld(), history);
    RunKeepsInv(InitialWorld(), history);
    InternalRunIsShort(w, steps);
    RankBounded(w);
    if Quiescent(Run(w, steps)) { QuietMeansConverged(Run(w, steps)); }
  }

  /** No offer fails to be created and no answer fails to apply. */
  predicate NoErrors(steps: seq<Step>) {
    forall s :: s in steps ==> (s.SfuTimer? ==> s.ok) && (s.SfuReceive? ==> s.ok && s.applied)
  }

  lemma {:induction false} NoErrorsNoFlags(w: World, steps: seq<Step>)
    requires NoErrors(steps) && !w.sfu.failed && !w.sfu.stuck
    ensures !Run(w, steps).sfu.failed && !Run(w, steps).sfu.stuck
    decreases |steps|
  {
    if steps != [] {
      assert steps[0] in steps;
      NoErrorsNoFlags(Next(w, steps[0]), steps[1..]);
    }
  }

  /** Without errors the two sides always end up with each other's newest state. */
  lemma ConvergesWithoutErrors(history: seq<Step>, steps: seq<Step>)
    requires NoErrors(history) && NoErrors(steps)
    requires !Run(InitialWorld(), history).sfu.closed && InternalRun(Run(InitialWorld(), history), steps)
    ensures |steps| <= 24
    ensures Quiescent(Run(Run(InitialWorld(), history), steps)) ==> Converged(Run(Run(InitialWorld(), history), steps))
  {
    NoErrorsNoFlags(InitialWorld(), history);
    NoErrorsNoFlags(Run(InitialWorld(), history), steps);
    NegotiationConverges(history, steps);
    hide Run, InternalRun;
  }

  // ------------------------------------------------------------------
  // The error paths
  // ------------------------------------------------------------------

  /** A closed SFU, and one whose answer could not be applied, sends nothing ever again: the browser
      only gets what was already on its way. A stuck one also keeps its offer outstanding, so it
      ignores every browser offer as a collision. */
  lemma {:induction false} SilentForGood(w: World, steps: seq<Step>)
    requires Inv(w) && (w.sfu.closed || w.sfu.stuck)
    ensures var w' := Run(w, steps);
      && |w'.toBrowser| <= |w.toBrowser| && w'.toBrowser == w.toBrowser[|w.toBrowser| - |w'.toBrowser|..]
      && (w.sfu.closed ==> w'.sfu == w.sfu)
      && w'.sfu.remote == w.sfu.remote && w'.sfu.offered == w.sfu.offered && w'.sfu.sig == w.sfu.sig
    decreases |steps|
  {
    hide Inv, Next;
    if steps != [] {
      StepKeepsInv(w, steps[0]);
      SilentStep(w, steps[0]);
      var q0, q1 := w.toBrowser, Next(w, steps[0]).toBrowser;
      SilentForGood(Next(w, steps[0]), steps[1..]);
      SuffixOfSuffix(q0, q1, Run(w, steps).toBrowser);
    }
  }

  lemma SuffixOfSuffix(a: seq<Sdp>, b: seq<Sdp>, c: seq<Sdp>)
    requires b == a || (a != [] && b == a[1..])
    requires |c| <= |b| && c == b[|b| - |c|..]
    ensures |c| <= |a| && c == a[|a| - |c|..]
  {
  }

  lemma SilentStep(w: World, step: Step)
    requires Inv(w) && (w.sfu.closed || w.sfu.stuck)
    ensures var w' := Next(w, step);
      && (w'.toBrowser == w.toBrowser || (w.toBrowser != [] && w'.toBrowser == w.toBrowser[1..]))
      && (w.sfu.closed ==> w'.sfu == w.sfu)
      && (w.sfu.stuck ==> w'.sfu.stuck)
      && w'.sfu.remote == w.sfu.remote && w'.sfu.offered == w.sfu.offered && w'.sfu.sig == w.sfu.sig
  {
  }

  /** The error path is not retried: one failed offer leaves a change that nothing will send. */
  lemma FailedOfferLosesChange()
    ensures var w := Run(InitialWorld(), [SfuChange, SfuTimer(false)]);
      Quiescent(w) && !Converged(w) && w.browser.remote < w.sfu.version
  {
    var w0 := InitialWorld();
    var w1 := Next(w0, SfuChange);
    var w2 := Next(w1, SfuTimer(false));
    var steps := [SfuChange, SfuTimer(false)];
    assert steps[1..] == [SfuTimer(false)] && steps[1..][1..] == [];
    assert Run(w0, steps) == Run(w1, steps[1..]) == Run(w2, []);
  }

  /** One answer that cannot be applied is the end of the negotiation: whatever follows, the SFU's
      offer stays outstanding, nothing is sent to the browser and the two sides never converge. */
  lemma FailedAnswerSticks(ok: bool, rest: seq<Step>)
    ensures var w := Run(Run(InitialWorld(), [SfuChange, SfuTimer(true), BrowserReceive, SfuReceive(false, ok)]), rest);
      w.sfu.sig != Stable && w.toBrowser == [] && !Converged(w)
  {
    var w0, last := InitialWorld(), SfuReceive(false, ok);
    var w1, w2 := Next(w0, SfuChange), Next(Next(w0, SfuChange), SfuTimer(true));
    var w3, w4 := Next(w2, BrowserReceive), Next(Next(w2, BrowserReceive), last);
    var steps := [SfuChange, SfuTimer(true), BrowserReceive, last];
    assert steps[1..] == [SfuTimer(true), BrowserReceive, last] && steps[2..] == [BrowserReceive, last] && steps[3..] == [last];
    assert steps[1..][1..] == steps[2..] && steps[2..][1..] == steps[3..] && steps[3..][1..] == [];
    assert Run(w0, steps) == Run(w1, steps[1..]) == Run(w2, steps[2..]) == Run(w3, steps[3..]) == Run(w4, []);
    RunKeepsInv(w0, steps);
    assert w4.sfu.stuck && w4.sfu.sig != Stable && w4.toBrowser == [];
    hide Inv, Next;
    SilentForGood(w4, rest);
  }

  lemma CloseSets(w: World)
    requires Inv(w)
    ensures var w' := Next(w, SfuClose); w'.sfu.closed && !w'.sfu.timerArmed && w' == w.(sfu := w.sfu.(closed := true, timerArmed := false))
  {
    hide ClosedShape, Versions, StuckShape, IdleShape, OfferShape, AnswerShape;
  }

  /** A close, whenever it comes, closes, stops the timer and leaves everything else as it is, and from
      then on nothing new is ever sent to the browser. */
  lemma {:induction false} CloseIsFinal(history: seq<Step>, rest: seq<Step>)
    ensures var w := Run(InitialWorld(), history); var w' := Next(w, SfuClose);
      && w'.sfu.closed && !w'.sfu.timerArmed
      && w' == w.(sfu := w.sfu.(closed := true, timerArmed := false))
      && var sent := Run(w', rest).toBrowser; |sent| <= |w.toBrowser| && sent == w.toBrowser[|w.toBrowser| - |sent|..]
  {
    var w := Run(InitialWorld(), history);
    RunKeepsInv(InitialWorld(), history);
    StepKeepsInv(w, SfuClose);
    CloseSets(w);
    hide Run, Inv, Next;
    SilentForGood(Next(w, SfuClose), rest);
  }

  /** Protocol steps carry changes, they do not make any. */
  lemma {:induction false} InternalKeepsVersions(w: World, steps: seq<Step>)
    requires InternalRun(w, steps)
    ensures Run(w, steps).sfu.version == w.sfu.version && Run(w, steps).browser.version == w.browser.version
    decreases |steps|
  {
    if steps != [] { InternalKeepsVersions(Next(w, steps[0]), steps[1..]); }
  }

  lemma {:induction false} RunMore(w: World, history: seq<Step>, step: Step)
    ensures Run(w, history + [step]) == Next(Run(w, history), step)
    decreases |history|
  {
    if history == [] {
      assert (history + [step])[1..] == [];
    } else {
      assert (history + [step])[1..] == history[1..] + [step];
      RunMore(Next(w, history[0]), history[1..], step);
    }
  }

  /** Without errors every change reaches the other side: when the protocol has come to rest after one,
      each side has a version of the other that includes it. */
  lemma ChangesReachTheOtherSide(history: seq<Step>, change: Step, steps: seq<Step>)
    requires NoErrors(history) && NoErrors(steps) && (change == SfuChange || change == BrowserChange)
    requires !Run(InitialWorld(), history).sfu.closed && InternalRun(Next(Run(InitialWorld(), history), change), steps)
    ensures var w := Run(InitialWorld(), history); var end := Run(Next(w, change), steps);
      Quiescent(end) ==>
        && (change == SfuChange ==> end.browser.remote == w.sfu.version + 1)
        && (change == BrowserChange ==> end.sfu.remote == w.browser.version + 1)
  {
    var w := Run(InitialWorld(), history);
    RunMore(InitialWorld(), history, change);
    assert !Next(w, change).sfu.closed;
    assert change == SfuChange ==> Next(w, change).sfu.version == w.sfu.version + 1;
    assert change == BrowserChange ==> Next(w, change).browser.version == w.browser.version + 1;
    hide Run, Next, InternalRun, Quiescent;
    InternalKeepsVersions(Next(w, change), steps);
    ConvergesWithoutErrors(history + [change], steps);
  }
}
