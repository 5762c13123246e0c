/** Node-to-node messages: envelope validation, the node-local dedup cache, and the handler that
    puts them in order. Clock readings are nanoseconds; a message carries milliseconds. */
module ClusterMessages {
  import opened Wrappers

  /** The message type; a string the table does not hold is Unknown. */
  datatype Kind =
    | ParticipantMessage | ParticipantDisconnect | ParticipantControl | RoomEvent
    | MediaControl(name: string)   // one of the eight media.* types
    | Unknown(name: string)

  datatype Message = Message(
    kind: Kind, requestId: string, source: string, target: string, timestampMs: int, payload: nat)

  datatype Rejection = Invalid | TooLarge | OutsideWindow | WrongTarget

  datatype Outcome =
    | Rejected(why: Rejection)
    | Duplicate
    | Dispatched(where: Destination)

  datatype Destination = MediaBridge | Participant | RoomFanOut | Unhandled

  const FORWARD_SKEW: int := 30_000_000_000

  predicate IsSpace(c: char) {
    c in {' ', '\t', '\n', '\U{0B}', '\U{0C}', '\r', '\U{85}', '\U{A0}', '\U{1680}', '\U{2028}', '\U{2029}', '\U{202F}', '\U{205F}', '\U{3000}'}
    || '\U{2000}' <= c <= '\U{200A}'
  }

  predicate Blank(s: string) { forall c :: c in s ==> IsSpace(c) }

  function Sent(m: Message): (r: int) { m.timestampMs * 1_000_000 }

  predicate InWindow(m: Message, now: int, maxAge: int) {
    maxAge > 0 ==> now - Sent(m) <= maxAge && Sent(m) - now <= maxAge + FORWARD_SKEW
  }

  function Validate(m: Message, now: int, maxAge: int, maxSize: int): (r: Option<Rejection>) {
    if m.kind.Unknown? then Some(Invalid)
    else if Blank(m.requestId) then Some(Invalid)
    else if Blank(m.source) then Some(Invalid)
    else if Blank(m.target) then Some(Invalid)
    else if maxSize > 0 && m.payload > maxSize then Some(TooLarge)
    else if m.timestampMs <= 0 then Some(Invalid)
    else if maxAge > 0 && (now - Sent(m) > maxAge || Sent(m) - now > maxAge + FORWARD_SKEW) then Some(OutsideWindow)
    else None
  }

  function Route(kind: Kind): (r: Destination) {
    match kind
    case MediaControl(_) => MediaBridge
    case RoomEvent => RoomFanOut
    case Unknown(_) => Unhandled
    case _ => Participant
  }

  // ------------------------------------------------------------------
  // The handler
  // ------------------------------------------------------------------

  datatype Config = Config(self: string, maxAge: int, ttl: int, maxSize: int)

  type Cache = map<string, int>   // request id -> when it may be forgotten

  predicate Remembers(seen: Cache, id: string, now: int) { id in seen && now < seen[id] }

  /** `validated` and `marked` are the two clock readings one Handle takes. */
  function Handle(c: Config, seen: Cache, m: Message, validated: int, marked: int): (r: (Cache, Outcome)) {
    var bad := Validate(m, validated, c.maxAge, c.maxSize);
    if bad.Some? then (seen, Rejected(bad.value))
    else if m.target != c.self then (seen, Rejected(WrongTarget))
    else if Remembers(seen, m.requestId, marked) then (seen, Duplicate)
    else (seen[m.requestId := marked + c.ttl], Dispatched(Route(m.kind)))
  }

  function SweepCache(seen: Cache, now: int): (r: Cache) {
    map id | id in seen && !(now > seen[id]) :: seen[id]
  }

  /** A known kind, and ids that are more than white space. */
  predicate Complete(m: Message) {
    && !m.kind.Unknown?
    && (exists c :: c in m.requestId && !IsSpace(c)) && (exists c :: c in m.source && !IsSpace(c)) && (exists c :: c in m.target && !IsSpace(c))
  }

  /** Not older than the window, and not ahead by more than it and half a minute. */
  predicate Recent(m: Message, now: int, maxAge: int) {
    maxAge > 0 ==> now - m.timestampMs * 1_000_000 <= maxAge && m.timestampMs * 1_000_000 - now <= maxAge + 30_000_000_000
  }

  predicate Small(c: Config, m: Message) { c.maxSize > 0 ==> m.payload <= c.maxSize }

  /** Everything a message is asked for but its address. */
  predicate WellFormed(c: Config, m: Message, now: int) {
    Complete(m) && Small(c, m) && m.timestampMs > 0 && Recent(m, now, c.maxAge)
  }

  class Handler {
    const config: Config
    var seen: Cache

    constructor (self: string, maxAge: int, maxSize: int)
      ensures Wired(config) && config.self == self && seen == map[]
      ensures config.maxSize > 0 && (maxAge > 0 ==> config.maxAge == maxAge) && (maxSize > 0 ==> config.maxSize == maxSize)
    {
      var age := if maxAge <= 0 then 30_000_000_000 else maxAge;
      config := Config(self, age, age, if maxSize <= 0 then 64 * 1024 else maxSize);
      seen := map[];
    }

    method MarkSeen(id: string, now: int) returns (duplicate: bool)
      modifies this
      ensures duplicate == Remembers(old(seen), id, now)
      ensures seen == if duplicate then old(seen) else old(seen)[id := now + config.ttl]
    {
      if id in seen && now < seen[id] { return true; }
      seen := seen[id := now + config.ttl];
      return false;
    }

    method Receive(m: Message, validated: int, marked: int) returns (outcome: Outcome)
      modifies this
      ensures (seen, outcome) == Handle(config, old(seen), m, validated, marked)
      ensures outcome.Dispatched? <==> WellFormed(config, m, validated) && m.target == config.self && !(m.requestId in old(seen) && marked < old(seen)[m.requestId])
      ensures outcome == Duplicate <==> WellFormed(config, m, validated) && m.target == config.self && m.requestId in old(seen) && marked < old(seen)[m.requestId]
      ensures outcome == Rejected(WrongTarget) <==> WellFormed(config, m, validated) && m.target != config.self
      ensures outcome == Rejected(TooLarge) <==> Complete(m) && !Small(config, m)
      ensures outcome == Rejected(OutsideWindow) <==> Complete(m) && Small(config, m) && m.timestampMs > 0 && !Recent(m, validated, config.maxAge)
      ensures outcome == Rejected(Invalid) <==> !Complete(m) || (Small(config, m) && m.timestampMs <= 0)
      ensures outcome == Dispatched(MediaBridge) ==> m.kind.MediaControl?
      ensures outcome == Dispatched(RoomFanOut) ==> m.kind == RoomEvent
      ensures outcome == Dispatched(Participant) ==> m.kind in {ParticipantMessage, ParticipantControl, ParticipantDisconnect}
      ensures outcome != Dispatched(Unhandled)
      ensures seen == if outcome.Dispatched? then old(seen)[m.requestId := marked + config.ttl] else old(seen)
    {
      var bad := Validate(m, validated, config.maxAge, config.maxSize);
      if bad.Some? { return Rejected(bad.value); }
      if m.target != config.self { return Rejected(WrongTarget); }
      var duplicate := MarkSeen(m.requestId, marked);
      if duplicate { return Duplicate; }
      return Dispatched(Route(m.kind));
    }

    method Sweep(now: int)
      modifies this
      ensures seen == SweepCache(old(seen), now)
      ensures forall id :: id in seen <==> id in old(seen) && now <= old(seen)[id]
      ensures forall id :: id in seen ==> seen[id] == old(seen)[id]
    {
      var todo := seen.Keys;
      ghost var target := SweepCache(seen, now);
      while todo != {}
        invariant todo <= seen.Keys && SweepCache(seen, now) == target
        invariant forall id :: id in seen && id !in todo ==> now <= seen[id]
        decreases todo
      {
        var id :| id in todo;
        todo := todo - {id};
        if now > seen[id] {
          assert SweepCache(seen - {id}, now) == SweepCache(seen, now);
          seen := seen - {id};
        }
      }
      assert SweepCache(seen, now) == seen;
    }
  }

  /** How the cluster wires it: the cache keeps an id exactly as long as a message is accepted. */
  predicate Wired(c: Config) { c.ttl == c.maxAge && c.maxAge > 0 }

  // ------------------------------------------------------------------
  // Runs of deliveries and sweeps
  // ------------------------------------------------------------------

  datatype Event =
    | Deliver(m: Message, validated: int, marked: int)
    | SweepAt(now: int)

  function Clock(e: Event): (r: int) { if e.Deliver? then e.marked else e.now }

  /** The cache is touched in clock order; validation of a message comes before its marking. */
  ghost predicate Timed(events: seq<Event>) {
    && (forall i, j :: 0 <= i < j < |events| ==> Clock(events[i]) <= Clock(events[j]))
    && (forall i :: 0 <= i < |events| && events[i].Deliver? ==> events[i].validated <= events[i].marked)
  }

  function After(c: Config, seen: Cache, e: Event): (r: (Cache, Outcome)) {
    match e
    case Deliver(m, validated, marked) => Handle(c, seen, m, validated, marked)
    case SweepAt(now) => (SweepCache(seen, now), Duplicate)
  }

  /** The outcome of the k-th event of a run that starts with this cache. */
  function OutcomeAt(c: Config, seen: Cache, events: seq<Event>, k: nat): (r: Outcome)
    requires k < |events|
    decreases k
  {
    if k == 0 then After(c, seen, events[0]).1
    else OutcomeAt(c, After(c, seen, events[0]).0, events[1..], k - 1)
  }

  /** A well-formed message addressed here is dispatched the first time it is delivered, whatever came
      before it. */
  lemma {:induction false} FirstDeliveryIsDispatched(c: Config, seen: Cache, events: seq<Event>, k: nat)
    requires k < |events| && events[k].Deliver? && events[k].m.requestId !in seen
    requires WellFormed(c, events[k].m, events[k].validated) && events[k].m.target == c.self
    requires forall i :: 0 <= i < k && events[i].Deliver? ==> events[i].m.requestId != events[k].m.requestId
    ensures OutcomeAt(c, seen, events, k).Dispatched?
    decreases k
  {
    if k == 0 {
      WellFormedIsValid(c, events[0].m, events[0].validated);
    } else {
      var seen' := After(c, seen, events[0]).0;
      assert events[k].m.requestId !in seen';
      FirstDeliveryIsDispatched(c, seen', events[1..], k - 1);
    }
    hide Validate, WellFormed;
  }

  lemma WellFormedIsValid(c: Config, m: Message, now: int)
    ensures WellFormed(c, m, now) <==> Validate(m, now, c.maxAge, c.maxSize).None?
  {
  }

  /** An id with time left on it stays a duplicate until that time, sweeps included. */
  lemma {:induction false} RememberedUntil(c: Config, seen: Cache, events: seq<Event>, k: nat, id: string, until: int)
    requires Timed(events) && k < |events| && id in seen && seen[id] >= until
    requires events[k].Deliver? && events[k].m.requestId == id && events[k].marked < until
    ensures !OutcomeAt(c, seen, events, k).Dispatched?
    decreases k
  {
    if k > 0 {
      assert Clock(events[0]) <= Clock(events[k]);
      RememberedUntil(c, After(c, seen, events[0]).0, events[1..], k - 1, id, until);
    }
  }

  /** Two dispatches of one message, in any run: the second Handle must have stalled between its two
      clock readings for at least as long as the message had been under way at the first marking. */
  lemma {:induction false} SecondDispatchNeedsStall(c: Config, seen: Cache, events: seq<Event>, i: nat, j: nat)
    requires Wired(c)
    requires Timed(events) && i < j < |events| && events[i].Deliver? && events[j].Deliver? && events[i].m == events[j].m
    requires OutcomeAt(c, seen, events, i).Dispatched? && OutcomeAt(c, seen, events, j).Dispatched?
    ensures events[j].marked - events[j].validated >= events[i].marked - Sent(events[i].m)
    decreases i
  {
    if i > 0 {
      SecondDispatchNeedsStall(c, After(c, seen, events[0]).0, events[1..], i - 1, j - 1);
    } else {
      var until := events[0].marked + c.ttl;
      if events[j].marked < until {
        RememberedUntil(c, After(c, seen, events[0]).0, events[1..], j - 1, events[0].m.requestId, until);
      }
      DispatchedWasInWindow(c, seen, events, j);
    }
  }

  lemma {:induction false} DispatchedWasInWindow(c: Config, seen: Cache, events: seq<Event>, k: nat)
    requires k < |events| && events[k].Deliver? && OutcomeAt(c, seen, events, k).Dispatched?
    ensures InWindow(events[k].m, events[k].validated, c.maxAge)
    decreases k
  {
    if k > 0 { DispatchedWasInWindow(c, After(c, seen, events[0]).0, events[1..], k - 1); }
  }

  /** With one clock reading per Handle, a message sent strictly before its first receipt is
      dispatched at most once, over any run of deliveries, retries and sweeps. */
  lemma AtMostOnce(c: Config, seen: Cache, events: seq<Event>, i: nat, j: nat)
    requires Wired(c)
    requires Timed(events) && i < j < |events| && events[i].Deliver? && events[j].Deliver? && events[i].m == events[j].m
    requires events[j].validated == events[j].marked && Sent(events[i].m) < events[i].marked
    ensures !(OutcomeAt(c, seen, events, i).Dispatched? && OutcomeAt(c, seen, events, j).Dispatched?)
  {
    if OutcomeAt(c, seen, events, i).Dispatched? && OutcomeAt(c, seen, events, j).Dispatched? {
      SecondDispatchNeedsStall(c, seen, events, i, j);
    }
  }

  /** And that condition is exact: after a dispatch at `t`, a later redelivery that gets dispatched
      again exists if and only if the message is stamped at `t` or later. */
  lemma RedeliveryExactly(c: Config, seen: Cache, m: Message, t: int)
    requires Wired(c)
    requires Handle(c, seen, m, t, t).1.Dispatched?
    ensures (exists t' :: t' >= t && Handle(c, Handle(c, seen, m, t, t).0, m, t', t').1.Dispatched?) <==> Sent(m) >= t
  {
    var seen' := Handle(c, seen, m, t, t).0;
    if Sent(m) >= t {
      assert Handle(c, seen', m, t + c.ttl, t + c.ttl).1.Dispatched?;
    }
  }

  // ------------------------------------------------------------------
  // Sweeping is invisible
  // ------------------------------------------------------------------

  function WithoutSweeps(events: seq<Event>): (r: seq<Event>) {
    if events == [] then []
    else if events[0].SweepAt? then WithoutSweeps(events[1..])
    else [events[0]] + WithoutSweeps(events[1..])
  }

  function DeliveryOutcomes(c: Config, seen: Cache, events: seq<Event>): (r: seq<Outcome>)
    decreases |events|
  {
    if events == [] then []
    else
      var (seen', outcome) := After(c, seen, events[0]);
      (if events[0].Deliver? then [outcome] else []) + DeliveryOutcomes(c, seen', events[1..])
  }

  /** Two caches that remember the same ids from `now` on. */
  ghost predicate SameMemory(a: Cache, b: Cache, now: int) {
    forall id, t :: t >= now ==> (Remembers(a, id, t) <==> Remembers(b, id, t))
  }

  lemma HandleKeepsSameMemory(c: Config, a: Cache, b: Cache, m: Message, validated: int, now: int)
    requires SameMemory(a, b, now)
    ensures var (a', verdict), (b', verdict') := Handle(c, a, m, validated, now), Handle(c, b, m, validated, now);
      verdict == verdict' && SameMemory(a', b', now)
  {
    var a', b' := Handle(c, a, m, validated, now).0, Handle(c, b, m, validated, now).0;
    assert Remembers(a, m.requestId, now) <==> Remembers(b, m.requestId, now);
    forall id, t | t >= now
      ensures Remembers(a', id, t) <==> Remembers(b', id, t)
    {
      assert Remembers(a, id, t) <==> Remembers(b, id, t);
    }
  }

  /** Sweeping never changes a verdict: the deliveries of a run fare the same with the sweeps left out. */
  lemma {:induction false} SweepsAreInvisible(c: Config, a: Cache, b: Cache, events: seq<Event>, now: int)
    requires Timed(events) && (events != [] ==> now <= Clock(events[0])) && SameMemory(a, b, now)
    ensures DeliveryOutcomes(c, a, events) == DeliveryOutcomes(c, b, WithoutSweeps(events))
    decreases |events|
  {
    if events != [] {
      var e, t := events[0], Clock(events[0]);
      var a' := After(c, a, e).0;
      if e.SweepAt? {
        forall id, t' | t' >= t
          ensures Remembers(a', id, t') <==> Remembers(b, id, t')
        {
          assert Remembers(a, id, t') <==> Remembers(b, id, t');
        }
        SweepsAreInvisible(c, a', b, events[1..], t);
      } else {
        var b' := After(c, b, e).0;
        assert SameMemory(a, b, t);
        HandleKeepsSameMemory(c, a, b, e.m, e.validated, t);
        SweepsAreInvisible(c, a', b', events[1..], t);
        var rest := WithoutSweeps(events[1..]);
        assert ([e] + rest)[1..] == rest;
      }
    }
  }
}
