/** Publications and subscriptions of one SFU room. The per-participant maps of the source are held
    as relations: a subscription or an opt-out is a (participant, publication) pair. */
module RoomPubSub {

  type Pair = (string, string)

  datatype Perms = Perms(publish: bool, subscribe: bool)

  /** `local` and `remote` map a live publication to its publisher; a remote one is mirrored from
      another node. `made` and `removed` are the subscription counters. */
  datatype Room = Room(
    members: map<string, Perms>, local: map<string, string>, remote: map<string, string>,
    subs: set<Pair>, optedOut: set<Pair>, made: nat, removed: nat)

  function EmptyRoom(): (r: Room) { Room(map[], map[], map[], {}, {}, 0, 0) }

  predicate Exists(r: Room, pub: string) { pub in r.local || pub in r.remote }

  function Publisher(r: Room, pub: string): (res: string)
    requires Exists(r, pub)
  {
    if pub in r.local then r.local[pub] else r.remote[pub]
  }

  /** maybeAutoSubscribe goes ahead for this pair. */
  predicate Eligible(r: Room, x: Pair) {
    x.0 in r.members && r.members[x.0].subscribe && x !in r.optedOut && x !in r.subs
  }

  /** Auto-subscribe over some pairs; adding the track fails for those in `failing`. */
  function Offer(r: Room, pairs: set<Pair>, failing: set<Pair>): (r': Room) {
    r.(subs := r.subs + Takers(r, pairs, failing), made := r.made + |Takers(r, pairs, failing)|)
  }

  function Takers(r: Room, pairs: set<Pair>, failing: set<Pair>): (res: set<Pair>) {
    set x | x in pairs && Eligible(r, x) && x !in failing
  }

  function Withdraw(r: Room, pairs: set<Pair>): (r': Room) {
    r.(subs := r.subs - pairs, removed := r.removed + |r.subs * pairs|)
  }

  /** Everyone but the publisher, paired with the publication. */
  function Audience(r: Room, pub: string, publisher: string): (res: set<Pair>) {
    set p | p in r.members && p != publisher :: (p, pub)
  }

  datatype Act =
    | Join(p: string, perms: Perms)
    | Leave(p: string)
    | Publish(p: string, pub: string, failing: set<Pair>)
    | Unpublish(p: string, pub: string)
    | AddRemote(pub: string, origin: string, failing: set<Pair>)
    | RemoveRemote(pub: string)
    | Subscribe(p: string, pub: string, trackOk: bool)
    | Unsubscribe(p: string, pub: string)
    | MediaFailed(p: string, pub: string)
    | Bootstrap(p: string, failing: set<Pair>)

  /** Subscribe gets past its checks: permission, the publication exists in this room, not one's own. */
  predicate SubscribeAccepted(r: Room, p: string, pub: string) {
    p in r.members && r.members[p].subscribe && Exists(r, pub) && Publisher(r, pub) != p
  }

  function PubsOf(r: Room, p: string): (res: set<string>) { set pub | pub in r.local && r.local[pub] == p }

  /** The subscriptions that end when `p` leaves: everyone's to its publications, and its own. */
  function EndedBy(r: Room, p: string): (res: set<Pair>) {
    set x | x in r.subs && (x.0 == p || (x.1 in r.local && r.local[x.1] == p))
  }

  function Next(r: Room, act: Act): (r': Room) {
    match act
    case Join(p, perms) => r.(members := r.members[p := perms])
    case Leave(p) =>
      if p !in r.members then r
      else
        var ended := EndedBy(r, p);
        Withdraw(r, ended).(members := r.members - {p}, local := r.local - PubsOf(r, p),
                            optedOut := set x | x in r.optedOut && x.0 != p)
    case Publish(p, pub, failing) =>
      if p !in r.members || !r.members[p].publish then r
      else Offer(r.(local := r.local[pub := p]), Audience(r, pub, p), failing)
    case Unpublish(p, pub) =>
      if pub !in r.local || r.local[pub] != p then r
      else Withdraw(r.(local := r.local - {pub}), Audience(r, pub, p))
    case AddRemote(pub, origin, failing) =>
      if pub in r.remote then r
      else Offer(r.(remote := r.remote[pub := origin]), Audience(r, pub, origin), failing)
    case RemoveRemote(pub) =>
      if pub !in r.remote then r
      else Withdraw(r.(remote := r.remote - {pub}), Audience(r, pub, r.remote[pub]))
    case Subscribe(p, pub, trackOk) =>
      if !SubscribeAccepted(r, p, pub) then r
      else Offer(r.(optedOut := r.optedOut - {(p, pub)}), {(p, pub)}, if trackOk then {} else {(p, pub)})
    case Unsubscribe(p, pub) =>
      if p !in r.members then r
      else Withdraw(r.(optedOut := r.optedOut + {(p, pub)}), {(p, pub)})
    case MediaFailed(p, pub) => Withdraw(r, {(p, pub)})
    case Bootstrap(p, failing) =>
      if p !in r.members then r
      else Offer(r, set pub | pub in r.local && r.local[pub] != p :: (p, pub), failing)
  }

  // ------------------------------------------------------------------
  // The room object: one participant at a time
  // ------------------------------------------------------------------

  class RoomState {
    var members: map<string, Perms>
    var local: map<string, string>
    var remote: map<string, string>
    var subs: set<Pair>
    var optedOut: set<Pair>
    var made: nat
    var removed: nat

    ghost function State(): (r: Room)
      reads this
    {
      Room(members, local, remote, subs, optedOut, made, removed)
    }

    method MaybeAutoSubscribe(x: Pair, trackOk: bool)
      modifies this`subs, this`made
      ensures State() == Offer(old(State()), {x}, if trackOk then {} else {x})
    {
      if x.0 !in members || !members[x.0].subscribe || x in optedOut || x in subs || !trackOk {
        NothingOffered(State(), {x}, if trackOk then {} else {x});
        return;
      }
      subs := subs + {x};
      made := made + 1;
      OneOffered(old(State()), x);
    }

    /** onPublicationAdded: auto-subscribe every other member, in whatever order. */
    method OnPublicationAdded(pub: string, publisher: string, failing: set<Pair>)
      modifies this`subs, this`made
      ensures State() == Offer(old(State()), Audience(old(State()), pub, publisher), failing)
      ensures forall p, q :: (p, q) in subs <==>
        || (p, q) in old(subs)
        || (q == pub && p in members && p != publisher && members[p].subscribe && (p, q) !in optedOut && (p, q) !in failing)
    {
      var todo := set p | p in members && p != publisher :: (p, pub);
      ghost var target := Offer(State(), todo, failing);
      while todo != {}
        invariant Offer(State(), todo, failing) == target
        invariant members == old(members) && local == old(local) && remote == old(remote)
        invariant optedOut == old(optedOut) && removed == old(removed)
        decreases todo
      {
        var x :| x in todo;
        OfferOneFirst(State(), todo, failing, x);
        todo := todo - {x};
        MaybeAutoSubscribe(x, x !in failing);
      }
      NothingOffered(State(), {}, failing);
    }

    method UnsubscribeOne(x: Pair)
      modifies this`subs, this`removed
      ensures State() == Withdraw(old(State()), {x})
    {
      if x !in subs {
        assert subs * {x} == {} && subs - {x} == subs;
        return;
      }
      assert subs * {x} == {x};
      subs := subs - {x};
      removed := removed + 1;
    }

    /** onPublicationRemoved: drop every other member's subscription to it. */
    method OnPublicationRemoved(pub: string, publisher: string)
      modifies this`subs, this`removed
      ensures State() == Withdraw(old(State()), Audience(old(State()), pub, publisher))
      ensures forall p, q :: (p, q) in subs <==> (p, q) in old(subs) && !(q == pub && p in members && p != publisher)
    {
      var todo := set p | p in members && p != publisher :: (p, pub);
      ghost var target := Withdraw(State(), todo);
      while todo != {}
        invariant Withdraw(State(), todo) == target
        invariant members == old(members) && local == old(local) && remote == old(remote)
        invariant optedOut == old(optedOut) && made == old(made)
        decreases todo
      {
        var x :| x in todo;
        WithdrawOneFirst(State(), todo, x);
        todo := todo - {x};
        UnsubscribeOne(x);
      }
      assert subs * todo == {} && subs - todo == subs;
    }

    method SubscribeTo(p: string, pub: string, trackOk: bool) returns (accepted: bool)
      requires p in members
      modifies this
      ensures accepted == SubscribeAccepted(old(State()), p, pub)
      ensures State() == Next(old(State()), Subscribe(p, pub, trackOk))
      ensures accepted <==> members[p].subscribe && ((pub in local && local[pub] != p) || (pub !in local && pub in remote && remote[pub] != p))
      ensures subs == (if accepted && trackOk then old(subs) + {(p, pub)} else old(subs))
      ensures optedOut == (if accepted then old(optedOut) - {(p, pub)} else old(optedOut))
    {
      if !members[p].subscribe { return false; }
      if pub !in local && pub !in remote { return false; }
      var publisher := if pub in local then local[pub] else remote[pub];
      if publisher == p { return false; }
      optedOut := optedOut - {(p, pub)};
      MaybeAutoSubscribe((p, pub), trackOk);
      return true;
    }

    method UnsubscribeFrom(p: string, pub: string)
      requires p in members
      modifies this
      ensures State() == Next(old(State()), Unsubscribe(p, pub))
      ensures subs == old(subs) - {(p, pub)} && optedOut == old(optedOut) + {(p, pub)}
    {
      optedOut := optedOut + {(p, pub)};
      UnsubscribeOne((p, pub));
    }
  }

  lemma NothingOffered(r: Room, pairs: set<Pair>, failing: set<Pair>)
    requires forall x :: x in pairs ==> !Eligible(r, x) || x in failing
    ensures Offer(r, pairs, failing) == r
  {
    assert Takers(r, pairs, failing) == {};
  }

  lemma OneOffered(r: Room, x: Pair)
    requires Eligible(r, x)
    ensures Offer(r, {x}, {}) == r.(subs := r.subs + {x}, made := r.made + 1)
  {
    assert Takers(r, {x}, {}) == {x};
  }

  lemma TakersAfterOne(r: Room, pairs: set<Pair>, failing: set<Pair>, x: Pair)
    requires Eligible(r, x)
    ensures Takers(r.(subs := r.subs + {x}, made := r.made + 1), pairs - {x}, failing) == Takers(r, pairs, failing) - {x}
  {
    var r1 := r.(subs := r.subs + {x}, made := r.made + 1);
    assert forall y :: Eligible(r1, y) <==> Eligible(r, y) && y != x;
  }

  lemma OfferTakerFirst(r: Room, pairs: set<Pair>, failing: set<Pair>, x: Pair)
    requires x in pairs && Eligible(r, x) && x !in failing
    ensures Offer(Offer(r, {x}, {}), pairs - {x}, failing) == Offer(r, pairs, failing)
  {
    OneOffered(r, x);
    TakersAfterOne(r, pairs, failing, x);
    assert x in Takers(r, pairs, failing);
    hide Takers, Eligible;
    AddOneThenRest(r, Takers(r, pairs, failing), x);
  }

  lemma OfferOneFirst(r: Room, pairs: set<Pair>, failing: set<Pair>, x: Pair)
    requires x in pairs
    ensures Offer(Offer(r, {x}, if x in failing then {x} else {}), pairs - {x}, failing) == Offer(r, pairs, failing)
  {
    if Eligible(r, x) && x !in failing {
      OfferTakerFirst(r, pairs, failing, x);
    } else {
      NothingOffered(r, {x}, if x in failing then {x} else {});
      assert Takers(r, pairs - {x}, failing) == Takers(r, pairs, failing);
    }
  }

  lemma AddOneThenRest(r: Room, all: set<Pair>, x: Pair)
    requires x in all
    ensures r.subs + {x} + (all - {x}) == r.subs + all && 1 + |all - {x}| == |all|
  {
  }

  lemma WithdrawOneFirst(r: Room, pairs: set<Pair>, x: Pair)
    requires x in pairs
    ensures Withdraw(Withdraw(r, {x}), pairs - {x}) == Withdraw(r, pairs)
  {
    assert r.subs - {x} - (pairs - {x}) == r.subs - pairs;
    assert (r.subs - {x}) * (pairs - {x}) == r.subs * pairs - {x};
    if x in r.subs { assert r.subs * {x} == {x} && x in r.subs * pairs; }
    else { assert r.subs * {x} == {} && r.subs * pairs - {x} == r.subs * pairs; }
  }

  // ------------------------------------------------------------------
  // Every sequence of operations
  // ------------------------------------------------------------------

  /** `last` remembers each member's last accepted explicit act on a publication: true for Subscribe.
      `people` and `pubs` are the participant and local publication ids ever used. */
  datatype World = World(room: Room, last: map<Pair, bool>, people: set<string>, pubs: set<string>)

  /** Ids are fresh, and only members act. */
  predicate Allowed(w: World, act: Act) {
    match act
    case Join(p, _) => p !in w.people
    case Publish(_, pub, _) => pub !in w.pubs && pub !in w.room.remote
    case AddRemote(pub, _, _) => pub !in w.pubs
    case _ => true
  }

  function Do(w: World, act: Act): (w': World) {
    if !Allowed(w, act) then w
    else
      World(Next(w.room, act),
            match act
            case Subscribe(p, pub, _) => if SubscribeAccepted(w.room, p, pub) then w.last[(p, pub) := true] else w.last
            case Unsubscribe(p, pub) => if p in w.room.members then w.last[(p, pub) := false] else w.last
            case _ => w.last,
            if act.Join? then w.people + {act.p} else w.people,
            if act.Publish? then w.pubs + {act.pub} else w.pubs)
  }

  function Run(w: World, acts: seq<Act>): (w': World)
    decreases |acts|
  {
    if acts == [] then w else Run(Do(w, acts[0]), acts[1..])
  }

  predicate SubOk(r: Room, x: Pair) {
    x.0 in r.members && r.members[x.0].subscribe && Exists(r, x.1) && Publisher(r, x.1) != x.0 && x !in r.optedOut
  }

  ghost predicate SubsOk(r: Room) {
    forall x :: x in r.subs ==> SubOk(r, x)
  }

  /** Publications and members are in step with the ids used so far. */
  ghost predicate IdsOk(w: World) {
    && (forall pub :: pub in w.room.local ==> pub in w.pubs && pub !in w.room.remote && w.room.local[pub] in w.room.members)
    && (forall pub :: pub in w.room.remote ==> pub !in w.pubs)
    && (forall p :: p in w.room.members ==> p in w.people)
  }

  /** A member has opted out of exactly the publications it last unsubscribed from. */
  ghost predicate OptOutsOk(w: World) {
    && (forall x :: x in w.last ==> x.0 in w.people)
    && (forall x :: x in w.room.optedOut ==> x.0 in w.room.members)
    && (forall x: Pair :: x.0 in w.room.members ==> (x in w.room.optedOut <==> x in w.last && !w.last[x]))
  }

  ghost predicate BooksOk(w: World) { IdsOk(w) && OptOutsOk(w) }

  ghost predicate Inv(w: World) { SubsOk(w.room) && CountOk(w.room) && BooksOk(w) }

  lemma OfferKeepsCount(r: Room, pairs: set<Pair>, failing: set<Pair>)
    requires CountOk(r)
    ensures CountOk(Offer(r, pairs, failing))
  {
    assert r.subs !! Takers(r, pairs, failing);
  }

  lemma WithdrawKeepsCount(r: Room, pairs: set<Pair>)
    requires CountOk(r)
    ensures CountOk(Withdraw(r, pairs))
  {
    assert r.subs == (r.subs - pairs) + (r.subs * pairs);
  }

  predicate CountOk(r: Room) { r.made == r.removed + |r.subs| }

  lemma NextKeepsCount(r: Room, act: Act)
    requires CountOk(r)
    ensures CountOk(Next(r, act))
  {
    hide Takers, Audience, EndedBy, PubsOf, Offer, Withdraw, SubscribeAccepted;
    match act
    case Leave(p) => WithdrawKeepsCount(r, EndedBy(r, p));
    case Publish(p, pub, failing) => OfferKeepsCount(r.(local := r.local[pub := p]), Audience(r, pub, p), failing);
    case Unpublish(p, pub) => WithdrawKeepsCount(r.(local := r.local - {pub}), Audience(r, pub, p));
    case AddRemote(pub, origin, failing) => OfferKeepsCount(r.(remote := r.remote[pub := origin]), Audience(r, pub, origin), failing);
    case RemoveRemote(pub) => if pub in r.remote { WithdrawKeepsCount(r.(remote := r.remote - {pub}), Audience(r, pub, r.remote[pub])); }
    case Subscribe(p, pub, trackOk) =>
      OfferKeepsCount(r.(optedOut := r.optedOut - {(p, pub)}), {(p, pub)}, if trackOk then {} else {(p, pub)});
    case Unsubscribe(p, pub) => WithdrawKeepsCount(r.(optedOut := r.optedOut + {(p, pub)}), {(p, pub)});
    case MediaFailed(p, pub) => WithdrawKeepsCount(r, {(p, pub)});
    case Bootstrap(p, failing) => OfferKeepsCount(r, set pub | pub in r.local && r.local[pub] != p :: (p, pub), failing);
    case Join(_, _) =>
  }

  lemma OfferKeepsSubs(r: Room, pairs: set<Pair>, failing: set<Pair>)
    requires SubsOk(r)
    requires forall x :: x in pairs ==> Exists(r, x.1) && Publisher(r, x.1) != x.0
    ensures SubsOk(Offer(r, pairs, failing))
  {
    var r' := Offer(r, pairs, failing);
    forall x | x in r'.subs
      ensures SubOk(r', x)
    {
      assert x in r.subs ==> SubOk(r, x);
    }
  }

  /** Adding to a room's publications, members or dropping opt-outs keeps its subscriptions sound. */
  lemma GrowthKeepsSubs(r: Room, r': Room)
    requires SubsOk(r) && r'.subs <= r.subs
    requires forall x :: x in r'.subs && SubOk(r, x) ==> SubOk(r', x)
    ensures SubsOk(r')
  {
  }

  lemma StepKeepsSubs(w: World, act: Act)
    requires SubsOk(w.room) && BooksOk(w) && Allowed(w, act)
    ensures SubsOk(Next(w.room, act))
  {
    var r := w.room;
    hide Takers;
    match act
    case Publish(p, pub, failing) =>
      if p in r.members && r.members[p].publish {
        GrowthKeepsSubs(r, r.(local := r.local[pub := p]));
        OfferKeepsSubs(r.(local := r.local[pub := p]), Audience(r, pub, p), failing);
      }
    case AddRemote(pub, origin, failing) =>
      if pub !in r.remote {
        GrowthKeepsSubs(r, r.(remote := r.remote[pub := origin]));
        OfferKeepsSubs(r.(remote := r.remote[pub := origin]), Audience(r, pub, origin), failing);
      }
    case Subscribe(p, pub, trackOk) =>
      if SubscribeAccepted(r, p, pub) {
        var free := r.(optedOut := r.optedOut - {(p, pub)});
        GrowthKeepsSubs(r, free);
        OfferKeepsSubs(free, {(p, pub)}, if trackOk then {} else {(p, pub)});
      }
    case Bootstrap(p, failing) =>
      OfferKeepsSubs(r, set pub | pub in r.local && r.local[pub] != p :: (p, pub), failing);
    case _ => EndingStepKeepsSubs(w, act);
  }

  lemma EndingStepKeepsSubs(w: World, act: Act)
    requires SubsOk(w.room) && BooksOk(w) && Allowed(w, act)
    requires !act.Publish? && !act.AddRemote? && !act.Subscribe? && !act.Bootstrap?
    ensures SubsOk(Next(w.room, act))
  {
    hide Takers, Eligible, Offer, OptOutsOk;
    var r, r' := w.room, Next(w.room, act);
    forall x | x in r'.subs
      ensures SubOk(r', x)
    {
      assert x in r.subs && SubOk(r, x);
    }
  }

  lemma StepKeepsIds(w: World, act: Act)
    requires IdsOk(w)
    ensures IdsOk(Do(w, act))
  {
    hide Takers, Audience, EndedBy;
  }

  lemma StepKeepsOptOuts(w: World, act: Act)
    requires IdsOk(w) && OptOutsOk(w)
    ensures OptOutsOk(Do(w, act))
  {
    hide Takers, Audience, EndedBy, PubsOf, IdsOk;
    var w' := Do(w, act);
    match act {
      case Join(_, _) => JoinKeepsOptOuts(w, act);
      case Leave(_) => LeaveKeepsOptOuts(w, act);
      case Subscribe(_, _, _) => ExplicitKeepsOptOuts(w, act);
      case Unsubscribe(_, _) => ExplicitKeepsOptOuts(w, act);
      case _ => assert w'.room.members == w.room.members && w'.room.optedOut == w.room.optedOut && w'.last == w.last && w'.people == w.people;
    }
  }

  lemma JoinKeepsOptOuts(w: World, act: Act)
    requires IdsOk(w) && OptOutsOk(w) && act.Join?
    ensures OptOutsOk(Do(w, act))
  {
    MembersKnown(w);
    hide IdsOk;
  }

  lemma LeaveKeepsOptOuts(w: World, act: Act)
    requires OptOutsOk(w) && act.Leave?
    ensures OptOutsOk(Do(w, act))
  {
    hide EndedBy, PubsOf;
  }

  lemma ExplicitKeepsOptOuts(w: World, act: Act)
    requires IdsOk(w) && OptOutsOk(w) && (act.Subscribe? || act.Unsubscribe?)
    ensures OptOutsOk(Do(w, act))
  {
    MembersKnown(w);
    ExplicitEffect(w.room, act);
    hide Takers, IdsOk, Next, OptOutsOk, Exists, Publisher;
    var w', y := Do(w, act), (act.p, act.pub);
    if w'.last != w.last || w'.room.optedOut != w.room.optedOut { OptOutRecorded(w, w', y, act.Subscribe?); }
    else { SameOptOuts(w, w'); }
  }

  lemma OptOutRecorded(w: World, w': World, y: Pair, on: bool)
    requires OptOutsOk(w) && y.0 in w.room.members && y.0 in w.people
    requires w'.room.members == w.room.members && w'.people == w.people && w'.last == w.last[y := on]
    requires w'.room.optedOut == if on then w.room.optedOut - {y} else w.room.optedOut + {y}
    ensures OptOutsOk(w')
  {
  }

  lemma SameOptOuts(w: World, w': World)
    requires OptOutsOk(w) && w'.room.members == w.room.members && w'.people == w.people
    requires w'.last == w.last && w'.room.optedOut == w.room.optedOut
    ensures OptOutsOk(w')
  {
  }

  lemma ExplicitEffect(r: Room, act: Act)
    requires act.Subscribe? || act.Unsubscribe?
    ensures var r', y := Next(r, act), (act.p, act.pub);
      && r'.members == r.members
      && r'.optedOut == (if act.Subscribe? then (if SubscribeAccepted(r, act.p, act.pub) then r.optedOut - {y} else r.optedOut)
                         else if act.p in r.members then r.optedOut + {y} else r.optedOut)
  {
    hide Takers;
  }

  lemma MembersKnown(w: World)
    requires IdsOk(w)
    ensures forall p :: p in w.room.members ==> p in w.people
  {
  }

  lemma StepKeepsInv(w: World, act: Act)
    requires Inv(w)
    ensures Inv(Do(w, act))
  {
    hide SubsOk, CountOk, IdsOk, OptOutsOk, Next;
    StepKeepsIds(w, act);
    StepKeepsOptOuts(w, act);
    if Allowed(w, act) {
      NextKeepsCount(w.room, act);
      StepKeepsSubs(w, act);
    }
  }

  lemma {:induction false} RunKeepsInv(w: World, acts: seq<Act>)
    requires Inv(w)
    ensures Inv(Run(w, acts))
    decreases |acts|
  {
    if acts != [] {
      StepKeepsInv(w, acts[0]);
      RunKeepsInv(Do(w, acts[0]), acts[1..]);
    }
  }

  /** After any sequence of joins, publishes, subscribes, failures and leaves: every subscription is a
      member's, to a live publication of this room that someone else publishes; a member whose last
      explicit act on a publication was Unsubscribe is not subscribed to it; and the counters
      account for the live subscriptions exactly. */
  lemma RoomBookkeeping(acts: seq<Act>)
    ensures var w := Run(World(EmptyRoom(), map[], {}, {}), acts);
      && (forall x :: x in w.room.subs ==>
            x.0 in w.room.members && Exists(w.room, x.1) && Publisher(w.room, x.1) != x.0)
      && (forall x: Pair :: x.0 in w.room.members && x in w.last && !w.last[x] ==> x !in w.room.subs)
      && w.room.made - w.room.removed == |w.room.subs|
  {
    RunKeepsInv(World(EmptyRoom(), map[], {}, {}), acts);
    var r := Run(World(EmptyRoom(), map[], {}, {}), acts).room;
    assert forall x :: x in r.subs ==> SubOk(r, x);
  }

  // ------------------------------------------------------------------
  // What each act does to the room
  // ------------------------------------------------------------------

  /** A new publication gets exactly the members who may subscribe, do not publish it, have not opted out
      of it and whose track could be added; nobody loses a subscription. */
  lemma NewPublicationIsServed(r: Room, act: Act, p: string, q: string)
    requires (act.Publish? && act.p in r.members && r.members[act.p].publish) || (act.AddRemote? && act.pub !in r.remote)
    ensures var publisher, r' := if act.Publish? then act.p else act.origin, Next(r, act);
      && ((p, q) in r'.subs <==>
           || (p, q) in r.subs
           || (q == act.pub && p in r.members && p != publisher && r.members[p].subscribe && (p, q) !in r.optedOut && (p, q) !in act.failing))
      && (act.Publish? ==> r'.local == r.local[act.pub := act.p] && r'.remote == r.remote)
      && (act.AddRemote? ==> r'.remote == r.remote[act.pub := act.origin] && r'.local == r.local)
      && r'.members == r.members && r'.optedOut == r.optedOut
  {
  }

  /** Without permission nothing is published; a mirrored publication is taken once. */
  lemma RefusedPublication(r: Room, act: Act)
    requires (act.Publish? && !(act.p in r.members && r.members[act.p].publish)) || (act.AddRemote? && act.pub in r.remote)
    ensures Next(r, act) == r
  {
  }

  /** A subscribe is accepted exactly with permission and for a publication of someone else. It then undoes
      an opt-out and, if the track can be added, subscribes; nothing else changes. */
  lemma ExplicitIsServed(r: Room, p: string, pub: string, trackOk: bool)
    ensures var r' := Next(r, Subscribe(p, pub, trackOk));
      var accepted := && p in r.members && r.members[p].subscribe
                      && ((pub in r.local && r.local[pub] != p) || (pub !in r.local && pub in r.remote && r.remote[pub] != p));
      && (!accepted ==> r' == r)
      && (accepted ==> r'.optedOut == r.optedOut - {(p, pub)} && r'.subs == if trackOk then r.subs + {(p, pub)} else r.subs)
      && r'.members == r.members && r'.local == r.local && r'.remote == r.remote
  {
    if SubscribeAccepted(r, p, pub) {
      var taken := Takers(r.(optedOut := r.optedOut - {(p, pub)}), {(p, pub)}, if trackOk then {} else {(p, pub)});
      assert taken == if trackOk && (p, pub) !in r.subs then {(p, pub)} else {};
      hide Takers;
    }
  }

  /** A joiner's bootstrap subscribes it to exactly the local publications of others that it may have. */
  lemma BootstrapServes(r: Room, joiner: string, failing: set<Pair>, p: string, q: string)
    ensures var r' := Next(r, Bootstrap(joiner, failing));
      && ((p, q) in r'.subs <==>
            || (p, q) in r.subs
            || (p == joiner && p in r.members && r.members[p].subscribe && q in r.local && r.local[q] != p && (p, q) !in r.optedOut && (p, q) !in failing))
      && r'.members == r.members && r'.local == r.local && r'.remote == r.remote && r'.optedOut == r.optedOut
  {
  }

  /** A withdrawn publication is gone, for everyone else who had it too; nothing else changes. */
  lemma WithdrawnIsGone(r: Room, act: Act, p: string, q: string)
    requires (act.Unpublish? && act.pub in r.local && r.local[act.pub] == act.p) || (act.RemoveRemote? && act.pub in r.remote)
    ensures var publisher, r' := if act.Unpublish? then act.p else r.remote[act.pub], Next(r, act);
      && ((p, q) in r'.subs <==> (p, q) in r.subs && !(q == act.pub && p in r.members && p != publisher))
      && (act.Unpublish? ==> r'.local == r.local - {act.pub} && r'.remote == r.remote)
      && (act.RemoveRemote? ==> r'.remote == r.remote - {act.pub} && r'.local == r.local)
      && r'.members == r.members && r'.optedOut == r.optedOut
  {
  }

  // ------------------------------------------------------------------
  // Everyone gets what they may have
  // ------------------------------------------------------------------

  /** No track fails to be added or stops working. */
  predicate NoFailures(acts: seq<Act>) {
    forall a :: a in acts ==>
      match a
      case Publish(_, _, failing) => failing == {}
      case AddRemote(_, _, failing) => failing == {}
      case Bootstrap(_, failing) => failing == {}
      case Subscribe(_, _, trackOk) => trackOk
      case MediaFailed(_, _) => false
      case _ => true
  }

  /** The members who have joined and not been bootstrapped yet, after one more act. */
  function Waiting(before: set<string>, act: Act): (r: set<string>) {
    match act
    case Join(p, _) => before + {p}
    case Bootstrap(p, _) => before - {p}
    case _ => before
  }

  function WaitingAfter(before: set<string>, acts: seq<Act>): (r: set<string>)
    decreases |acts|
  {
    if acts == [] then before else WaitingAfter(Waiting(before, acts[0]), acts[1..])
  }

  /** Every bootstrapped member has every local publication of others it may have and has not refused. */
  ghost predicate Served(r: Room, waiting: set<string>) {
    forall p, q :: p in r.members && p !in waiting && r.members[p].subscribe && q in r.local && r.local[q] != p && (p, q) !in r.optedOut ==>
      (p, q) in r.subs
  }

  lemma StepServes(w: World, act: Act, waiting: set<string>)
    requires IdsOk(w) && Served(w.room, waiting) && NoFailures([act])
    ensures Served(Do(w, act).room, Waiting(waiting, act))
  {
    assert act in [act];
    if Allowed(w, act) {
      var r, r', waiting' := w.room, Next(w.room, act), Waiting(waiting, act);
      forall p, q | p in r'.members && p !in waiting' && r'.members[p].subscribe && q in r'.local && r'.local[q] != p && (p, q) !in r'.optedOut
        ensures (p, q) in r'.subs
      {
        OneIsServed(w, act, waiting, p, q);
      }
    }
  }

  lemma OneIsServed(w: World, act: Act, waiting: set<string>, p: string, q: string)
    requires IdsOk(w) && Served(w.room, waiting) && NoFailures([act]) && Allowed(w, act)
    requires var r' := Next(w.room, act);
      p in r'.members && p !in Waiting(waiting, act) && r'.members[p].subscribe && q in r'.local && r'.local[q] != p && (p, q) !in r'.optedOut
    ensures (p, q) in Next(w.room, act).subs
  {
    assert act in [act];
    var r := w.room;
    hide Takers, Audience, EndedBy, Next, Withdraw, Offer;
    match act
    case Join(a, perms) => OtherActs(r, act, p, q);
    case Leave(a) => OtherActs(r, act, p, q);
    case Publish(a, pub, _) => if a in r.members && r.members[a].publish { NewPublicationIsServed(r, act, p, q); } else { RefusedPublication(r, act); }
    case AddRemote(pub, _, _) => if pub !in r.remote { NewPublicationIsServed(r, act, p, q); } else { RefusedPublication(r, act); }
    case Unpublish(a, pub) => if pub in r.local && r.local[pub] == a { WithdrawnIsGone(r, act, p, q); } else { OtherActs(r, act, p, q); }
    case RemoveRemote(pub) => if pub in r.remote { WithdrawnIsGone(r, act, p, q); } else { OtherActs(r, act, p, q); }
    case Subscribe(a, pub, _) => ExplicitIsServed(r, act.p, act.pub, act.trackOk);
    case Unsubscribe(a, pub) => OtherActs(r, act, p, q);
    case Bootstrap(a, _) => BootstrapServes(r, act.p, act.failing, p, q);
  }

  /** A member who leaves takes its publications, its subscriptions, those to its publications and its
      opt-outs with it, and nothing else; the other acts change just what they name. */
  lemma OtherActs(r: Room, act: Act, p: string, q: string)
    ensures var r' := Next(r, act);
      && (act.Join? ==> r' == r.(members := r.members[act.p := act.perms]))
      && (act.Leave? && act.p !in r.members ==> r' == r)
      && (act.Leave? && act.p in r.members ==>
           (&& r'.members == r.members - {act.p} && r'.remote == r.remote
            && (q in r'.local <==> q in r.local && r.local[q] != act.p) && (q in r'.local ==> r'.local[q] == r.local[q])
            && ((p, q) in r'.subs <==> (p, q) in r.subs && p != act.p && !(q in r.local && r.local[q] == act.p))
            && ((p, q) in r'.optedOut <==> (p, q) in r.optedOut && p != act.p)))
      && (act.Unpublish? && !(act.pub in r.local && r.local[act.pub] == act.p) ==> r' == r)
      && (act.RemoveRemote? && act.pub !in r.remote ==> r' == r)
      && (act.Unsubscribe? && act.p !in r.members ==> r' == r)
      && (act.Unsubscribe? && act.p in r.members ==>
           (&& r'.subs == r.subs - {(act.p, act.pub)} && r'.optedOut == r.optedOut + {(act.p, act.pub)}
            && r'.members == r.members && r'.local == r.local && r'.remote == r.remote))
      && (act.MediaFailed? ==>
           (&& r'.subs == r.subs - {(act.p, act.pub)} && r'.optedOut == r.optedOut
            && r'.members == r.members && r'.local == r.local && r'.remote == r.remote))
  {
    hide Takers, Audience;
  }

  lemma {:induction false} RunServes(w: World, acts: seq<Act>, waiting: set<string>)
    requires Inv(w) && Served(w.room, waiting) && NoFailures(acts)
    ensures Served(Run(w, acts).room, WaitingAfter(waiting, acts))
    decreases |acts|
  {
    if acts != [] {
      assert NoFailures([acts[0]]) && NoFailures(acts[1..]) by { assert acts[0] in acts && forall a :: a in acts[1..] ==> a in acts; }
      assert IdsOk(w);
      hide Inv, Served, NoFailures, Do;
      StepServes(w, acts[0], waiting);
      StepKeepsInv(w, acts[0]);
      RunServes(Do(w, acts[0]), acts[1..], Waiting(waiting, acts[0]));
    }
  }

  /** After any history without failures, a bootstrapped member is subscribed to a local publication of
      someone else exactly when it may subscribe and has not opted out of it. */
  lemma EveryoneIsServed(acts: seq<Act>, p: string, q: string)
    requires NoFailures(acts)
    ensures var r := Run(World(EmptyRoom(), map[], {}, {}), acts).room;
      p in r.members && p !in WaitingAfter({}, acts) && q in r.local && r.local[q] != p ==>
        ((p, q) in r.subs <==> r.members[p].subscribe && (p, q) !in r.optedOut)
  {
    var start := World(EmptyRoom(), map[], {}, {});
    RunServes(start, acts, {});
    RunKeepsInv(start, acts);
    var r := Run(start, acts).room;
    assert (p, q) in r.subs ==> SubOk(r, (p, q));
    hide Run, WaitingAfter;
  }
}
