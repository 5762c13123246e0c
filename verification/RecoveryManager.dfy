/** One node's recovery manager: what an uninterrupted RecoverRoom or RecoverNode does to room ownership. */
module RecoveryManager {
  import opened FailureDetector
  import opened Recovery
  import RoomLocator

  datatype RoomResult = Disabled | Unavailable | InProgress | Finished(result: Result)

  datatype NodeResult = NodeDisabled | NodeUnavailable | NodeAlive | OwnNode | Incomplete | Recovered

  /** The steps of one job with nothing in between. */
  function Finish(w: World, j: Job, router: RouterAnswer): (r: (RoomLocator.Table, Result))
    decreases Left(j.phase)
  {
    if j.phase.Ended? then (w.rooms, j.phase.result)
    else
      var (rooms, phase) := AdvanceJob(w, j, router);
      Finish(w.(rooms := rooms), j.(phase := phase), router)
  }

  /** What those steps come to. */
  function Straight(w: World, watch: Watch, self: string, room: string, router: RouterAnswer): (r: (RoomLocator.Table, Result)) {
    if room !in w.rooms.owners then (w.rooms, Gone)
    else
      var owner := w.rooms.owners[room];
      if owner == self then (w.rooms, OwnedHere)
      else if !CallsStale(watch, owner, w.registry) then (w.rooms, OwnerAlive)
      else match router
        case RouterFails => (w.rooms, NoTarget)
        case ElectsOther => (w.rooms, Deferred)
        case ElectsSelf =>
          var (rooms, reply) := RoomLocator.RecoverIn(w.rooms, room, owner, self);
          (rooms, Swapped(reply.outcome))
  }

  lemma OneStep(w: World, j: Job, router: RouterAnswer)
    requires !j.phase.Ended?
    ensures var (rooms, phase) := AdvanceJob(w, j, router);
      Finish(w, j, router) == Finish(w.(rooms := rooms), j.(phase := phase), router)
  {
  }

  lemma FinishIsStraight(w: World, self: string, room: string, router: RouterAnswer)
    requires self in w.watches
    ensures Finish(w, Job(self, room, AtOwnership), router) == Straight(w, w.watches[self], self, room, router)
  {
    assert w.(rooms := w.rooms) == w;
    OneStep(w, Job(self, room, AtOwnership), router);
    if room in w.rooms.owners {
      var owner := w.rooms.owners[room];
      OneStep(w, Job(self, room, AtStaleCheck(owner)), router);
      OneStep(w, Job(self, room, AtRouter(owner)), router);
      OneStep(w, Job(self, room, AtSwap(owner)), router);
    }
  }

  class Manager {
    const self: string
    const enabled: bool
    var active: set<string>
    var rooms: RoomLocator.Table
    var watch: Watch
    var registry: map<string, NodeInfo>

    constructor (self: string, enabled: bool)
      ensures this.self == self && this.enabled == enabled && active == {}
    {
      this.self, this.enabled, active := self, enabled, {};
    }

    /** Marked by this node's detector, gone from the registry, or OFFLINE. */
    predicate Dead(node: string)
      reads this
    {
      node in watch.stale || node !in registry || registry[node].state == Offline
    }

    ghost function View(): (r: World)
      reads this
    {
      World(0, 0, 0, registry, map[self := watch], rooms, map[])
    }

    method RecoverRoom(room: string, usable: bool, router: RouterAnswer) returns (r: RoomResult)
      modifies this`active, this`rooms
      ensures active == old(active)
      ensures
        if !enabled then r == Disabled && rooms == old(rooms)
        else if !usable then r == Unavailable && rooms == old(rooms)
        else if room in old(active) then r == InProgress && rooms == old(rooms)
        else r == Finished(Finish(old(View()), Job(self, room, AtOwnership), router).1)
             && rooms == Finish(old(View()), Job(self, room, AtOwnership), router).0
    {
      FinishIsStraight(View(), self, room, router);
      hide Finish;
      if !enabled { return Disabled; }
      if !usable { return Unavailable; }
      if room in active { return InProgress; }
      active := active + {room};
      r := Finished(Gone);
      if room in rooms.owners {
        var oldOwner := rooms.owners[room];
        if oldOwner == self { r := Finished(OwnedHere); }
        else if !CallsStale(watch, oldOwner, registry) { r := Finished(OwnerAlive); }
        else if router == RouterFails { r := Finished(NoTarget); }
        else if router == ElectsOther { r := Finished(Deferred); }
        else {
          var swapped := RoomLocator.RecoverIn(rooms, room, oldOwner, self);
          rooms := swapped.0;
          r := Finished(Swapped(swapped.1.outcome));
        }
      }
      active := active - {room};
    }

    /** Every room the stale node owns for which this node is elected and no recovery is running
        changes hands, no other room does, and the call succeeds exactly when no router decision
        failed. */
    method RecoverNode(node: string, usable: bool, router: map<string, RouterAnswer>) returns (r: NodeResult)
      requires rooms.owners.Keys <= router.Keys
      modifies this`active, this`rooms
      ensures active == old(active)
      ensures !enabled ==> r == NodeDisabled
      ensures enabled && !usable ==> r == NodeUnavailable
      ensures enabled && usable && !Dead(node) ==> r == NodeAlive
      ensures enabled && usable && Dead(node) && node == self ==> r == OwnNode
      ensures r in {Incomplete, Recovered} <==> enabled && usable && Dead(node) && node != self
      ensures r !in {Incomplete, Recovered} ==> rooms == old(rooms)
      ensures r in {Incomplete, Recovered} ==>
        && rooms.owners == TakenOver(old(rooms).owners, RoomsOf(old(rooms).owners, node) - active, self, router)
        && Fenced(old(rooms), rooms, RoomsOf(old(rooms).owners, node) - active, router)
      ensures r in {Incomplete, Recovered} ==> (r == Incomplete <==> AnyFails(RoomsOf(old(rooms).owners, node) - active, router))
    {
      if !enabled { return NodeDisabled; }
      if !usable { return NodeUnavailable; }
      if !CallsStale(watch, node, registry) { return NodeAlive; }
      if node == self { return OwnNode; }
      var failed := RecoverAll(node, router);
      return if failed then Incomplete else Recovered;
    }

    method RecoverAll(node: string, router: map<string, RouterAnswer>) returns (failed: bool)
      requires enabled && rooms.owners.Keys <= router.Keys
      requires CallsStale(watch, node, registry) && node != self
      modifies this`active, this`rooms
      ensures active == old(active)
      ensures rooms.owners == TakenOver(old(rooms).owners, RoomsOf(old(rooms).owners, node) - active, self, router)
      ensures Fenced(old(rooms), rooms, RoomsOf(old(rooms).owners, node) - active, router)
      ensures failed <==> AnyFails(RoomsOf(old(rooms).owners, node) - active, router)
    {
      ghost var was := rooms;
      var orphaned := RoomsOf(rooms.owners, node);
      var todo := orphaned;
      ghost var done: set<string> := {};
      failed := false;
      hide CallsStale, Finish, Straight, RoomLocator.Gen;
      assert Progress(was, rooms, done, self, router) && !AnyFails(done, router);
      while todo != {}
        invariant done == orphaned - todo - active && todo <= orphaned && active == old(active)
        invariant Progress(was, rooms, done, self, router) && (failed <==> AnyFails(done, router))
        decreases todo
      {
        hide Progress, AnyFails;
        var room :| room in todo;
        todo := todo - {room};
        ghost var before := rooms;
        Untouched(was, before, done, room, self, router);
        FinishOrphan(View(), self, room, node, router[room]);
        var result := RecoverRoom(room, true, router[room]);
        if result == Finished(NoTarget) { failed := true; }
        if room !in active {
          OneMoreRoom(was, before, rooms, done, room, self, router);
          done := done + {room};
        }
      }
      assert done == orphaned - active;
    }
  }

  /** The state after the rooms in `done` have been gone through. */
  ghost predicate Progress(was: RoomLocator.Table, now: RoomLocator.Table, done: set<string>, self: string, router: map<string, RouterAnswer>) {
    was.owners.Keys <= router.Keys && now.owners == TakenOver(was.owners, done, self, router) && Fenced(was, now, done, router)
  }

  lemma Untouched(was: RoomLocator.Table, now: RoomLocator.Table, done: set<string>, room: string, self: string, router: map<string, RouterAnswer>)
    requires Progress(was, now, done, self, router) && room in was.owners && room !in done
    ensures room in now.owners && now.owners[room] == was.owners[room]
  {
  }

  function RoomsOf(owners: map<string, string>, node: string): (r: set<string>) {
    set room | room in owners && owners[room] == node
  }

  predicate AnyFails(rooms: set<string>, router: map<string, RouterAnswer>) {
    exists room :: room in rooms && room in router && router[room] == RouterFails
  }

  function TakenOver(owners: map<string, string>, which: set<string>, self: string, router: map<string, RouterAnswer>): (r: map<string, string>)
    requires owners.Keys <= router.Keys
  {
    map room | room in owners :: if room in which && router[room] == ElectsSelf then self else owners[room]
  }

  /** Exactly the rooms taken over are one generation up. */
  ghost predicate Fenced(was: RoomLocator.Table, now: RoomLocator.Table, which: set<string>, router: map<string, RouterAnswer>) {
    forall room :: RoomLocator.Gen(now, room) ==
      RoomLocator.Gen(was, room) + if room in which && room in router && router[room] == ElectsSelf then 1 else 0
  }

  lemma OneMoreFence(was: RoomLocator.Table, before: RoomLocator.Table, now: RoomLocator.Table, done: set<string>, room: string, router: map<string, RouterAnswer>)
    requires Fenced(was, before, done, router) && room in router && room !in done
    requires now.gens == if router[room] == ElectsSelf then before.gens[room := RoomLocator.Gen(before, room) + 1] else before.gens
    ensures Fenced(was, now, done + {room}, router)
  {
  }

  lemma OneMoreOwner(owners: map<string, string>, done: set<string>, room: string, self: string, router: map<string, RouterAnswer>)
    requires owners.Keys <= router.Keys && room in owners && room !in done
    ensures var before := TakenOver(owners, done, self, router);
      TakenOver(owners, done + {room}, self, router) == if router[room] == ElectsSelf then before[room := self] else before
  {
  }

  lemma OneMoreFailure(done: set<string>, room: string, router: map<string, RouterAnswer>)
    requires room in router
    ensures AnyFails(done + {room}, router) <==> AnyFails(done, router) || router[room] == RouterFails
  {
  }

  lemma OneMoreRoom(was: RoomLocator.Table, before: RoomLocator.Table, now: RoomLocator.Table, done: set<string>, room: string, self: string, router: map<string, RouterAnswer>)
    requires Progress(was, before, done, self, router) && room in was.owners && room !in done
    requires now.owners == if router[room] == ElectsSelf then before.owners[room := self] else before.owners
    requires now.gens == if router[room] == ElectsSelf then before.gens[room := RoomLocator.Gen(before, room) + 1] else before.gens
    ensures Progress(was, now, done + {room}, self, router)
    ensures AnyFails(done + {room}, router) <==> AnyFails(done, router) || router[room] == RouterFails
  {
    hide Fenced, RoomLocator.Gen, TakenOver, AnyFails;
    OneMoreFence(was, before, now, done, room, router);
    OneMoreOwner(was.owners, done, room, self, router);
    OneMoreFailure(done, room, router);
  }

  /** A recovery of a stale node's room swaps the owner if this node is elected and else does nothing. */
  lemma FinishOrphan(w: World, self: string, room: string, node: string, router: RouterAnswer)
    requires self in w.watches && CallsStale(w.watches[self], node, w.registry) && node != self
    requires room in w.rooms.owners && w.rooms.owners[room] == node
    ensures var (rooms, result) := Finish(w, Job(self, room, AtOwnership), router);
      && rooms.owners == (if router == ElectsSelf then w.rooms.owners[room := self] else w.rooms.owners)
      && rooms.gens == (if router == ElectsSelf then w.rooms.gens[room := RoomLocator.Gen(w.rooms, room) + 1] else w.rooms.gens)
      && (result == NoTarget <==> router == RouterFails)
  {
    FinishIsStraight(w, self, room, router);
    hide Finish;
  }

  /** Recovering a room again finds it owned here and does not touch its generation. */
  lemma RecoveringAgainIsIdle(w: World, self: string, room: string, router: RouterAnswer, again: RouterAnswer)
    requires self in w.watches && Finish(w, Job(self, room, AtOwnership), router).1 == Swapped(RoomLocator.RecoverOK)
    ensures var rooms := Finish(w, Job(self, room, AtOwnership), router).0;
      && room in rooms.owners && rooms.owners[room] == self
      && RoomLocator.Gen(rooms, room) == RoomLocator.Gen(w.rooms, room) + 1
      && Finish(w.(rooms := rooms), Job(self, room, AtOwnership), again) == (rooms, OwnedHere)
  {
    var rooms := Finish(w, Job(self, room, AtOwnership), router).0;
    FinishIsStraight(w, self, room, router);
    FinishIsStraight(w.(rooms := rooms), self, room, again);
    hide Finish;
  }

  /** The cases of a recovery, by who owns the room, whether that owner is dead to this node (marked,
      unregistered or OFFLINE) and what the router says; only the last one moves the room. */
  lemma RecoveryDecides(w: World, self: string, room: string, router: RouterAnswer)
    requires self in w.watches
    ensures var (after, result) := Finish(w, Job(self, room, AtOwnership), router);
      var owners := w.rooms.owners;
      var owned := room in owners && owners[room] != self;
      var dead := owned && (owners[room] in w.watches[self].stale || owners[room] !in w.registry || w.registry[owners[room]].state == Offline);
      && (result == Gone <==> room !in owners)
      && (result == OwnedHere <==> room in owners && owners[room] == self)
      && (result == OwnerAlive <==> owned && !dead)
      && (result == NoTarget <==> dead && router == RouterFails)
      && (result == Deferred <==> dead && router == ElectsOther)
      && (result == Swapped(RoomLocator.RecoverOK) <==> dead && router == ElectsSelf)
      && after.owners == (if dead && router == ElectsSelf then owners[room := self] else owners)
      && RoomLocator.Gen(after, room) == RoomLocator.Gen(w.rooms, room) + if dead && router == ElectsSelf then 1 else 0
  {
    FinishIsStraight(w, self, room, router);
    hide Finish;
  }
}
