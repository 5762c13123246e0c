/** Room recovery over shared in-memory state: every node runs its own detector and any number of
    RecoverRoom jobs, and the jobs' steps interleave with heartbeats, scans, claims and
    releases. Ownership only moves through the locator's compare-and-recover. */
module Recovery {
  import opened FailureDetector
  import RoomLocator

  /** Where one RecoverRoom call stands. */
  datatype Phase =
    | AtOwnership                      // about to read the room's owner
    | AtStaleCheck(oldOwner: string)   // about to ask the detector about it
    | AtRouter(oldOwner: string)       // about to ask the router who should take the room
    | AtSwap(oldOwner: string)         // elected: about to compare-and-recover
    | Ended(result: Result)

  datatype Result = Gone | OwnedHere | OwnerAlive | Deferred | NoTarget | Swapped(outcome: RoomLocator.Outcome)

  datatype Job = Job(self: string, room: string, phase: Phase)

  datatype RouterAnswer = ElectsSelf | ElectsOther | RouterFails

  datatype World = World(
    now: int, staleAfter: int, grace: int,
    registry: map<string, NodeInfo>, watches: map<string, Watch>,
    rooms: RoomLocator.Table, jobs: map<nat, Job>)

  datatype Step =
    | Tick(dt: nat)
    | Register(id: string, state: NodeState)   // also how a node announces a new state
    | Heartbeat(id: string)
    | Unregister(id: string)
    | Scan(self: string)
    | BeginRecovery(job: nat, self: string, room: string)
    | JobStep(job: nat, router: RouterAnswer)
    | ClaimRoom(room: string, node: string)
    | ReleaseRoom(room: string, node: string)

  /** One node's scan of the whole registry: each registered node is judged on its own sighting. */
  function ScanRegistry(w: Watch, registry: map<string, NodeInfo>, self: string, staleAfter: int, now: int, grace: int): (w': Watch) {
    var missing := set id | id in registry && id != self && Misses(registry[id], staleAfter, now);
    var seen := registry.Keys - missing;
    var first := map id | id in (w.firstMissed.Keys - seen) + missing ::
                   if id in w.firstMissed then w.firstMissed[id] else now;
    Watch(first, (w.stale - seen) + set id | id in missing && now - first[id] >= grace)
  }

  /** It is the sequential scan over any listing of the registry. */
  lemma ScanRegistryIsScan(w: Watch, nodes: seq<NodeInfo>, registry: map<string, NodeInfo>, self: string, staleAfter: int, now: int, grace: int)
    requires DistinctIds(nodes)
    requires forall k :: 0 <= k < |nodes| ==> nodes[k].id in registry && registry[nodes[k].id] == nodes[k]
    requires forall id :: id in registry ==> exists k :: 0 <= k < |nodes| && nodes[k].id == id
    ensures ScanRegistry(w, registry, self, staleAfter, now, grace) == ScanAll(w, nodes, self, staleAfter, now, grace)
  {
    var a := ScanRegistry(w, registry, self, staleAfter, now, grace);
    var b := ScanAll(w, nodes, self, staleAfter, now, grace);
    forall id
      ensures MarkOf(a, id) == MarkOf(b, id)
    {
      ScanJudgesEachNode(w, nodes, id, self, staleAfter, now, grace);
      SightFromRegistry(nodes, registry, id, self, staleAfter, now);
    }
    SameMarksSameWatch(a, b);
  }

  lemma {:induction false} SightFromRegistry(nodes: seq<NodeInfo>, registry: map<string, NodeInfo>, id: string, self: string, staleAfter: int, now: int)
    requires forall k :: 0 <= k < |nodes| ==> nodes[k].id in registry && registry[nodes[k].id] == nodes[k]
    ensures Sight(nodes, id, self, staleAfter, now) ==
      if forall k :: 0 <= k < |nodes| ==> nodes[k].id != id then Absent
      else if id != self && Misses(registry[id], staleAfter, now) then Missed else Seen
  {
    if nodes != [] {
      SightFromRegistry(nodes[..|nodes| - 1], registry, id, self, staleAfter, now);
    }
  }

  lemma SameMarksSameWatch(a: Watch, b: Watch)
    requires forall id :: MarkOf(a, id) == MarkOf(b, id)
    ensures a == b
  {
    assert forall id :: (id in a.firstMissed) == MarkOf(a, id).first.Some?;
    assert forall id :: (id in b.firstMissed) == MarkOf(b, id).first.Some?;
    assert forall id :: (id in a.stale) == MarkOf(a, id).stale;
    assert forall id :: (id in b.stale) == MarkOf(b, id).stale;
    assert a.firstMissed.Keys == b.firstMissed.Keys;
    forall id | id in a.firstMissed
      ensures a.firstMissed[id] == b.firstMissed[id]
    {
      assert MarkOf(a, id) == MarkOf(b, id);
    }
    assert a.stale == b.stale;
  }

  function AdvanceJob(w: World, j: Job, router: RouterAnswer): (r: (RoomLocator.Table, Phase)) {
    match j.phase
    case AtOwnership =>
      (w.rooms,
       if j.room !in w.rooms.owners then Ended(Gone)
       else if w.rooms.owners[j.room] == j.self then Ended(OwnedHere)
       else AtStaleCheck(w.rooms.owners[j.room]))
    case AtStaleCheck(oldOwner) =>
      var watch := if j.self in w.watches then w.watches[j.self] else Watch(map[], {});
      (w.rooms, if CallsStale(watch, oldOwner, w.registry) then AtRouter(oldOwner) else Ended(OwnerAlive))
    case AtRouter(oldOwner) =>
      (w.rooms,
       match router
       case ElectsSelf => AtSwap(oldOwner)
       case ElectsOther => Ended(Deferred)
       case RouterFails => Ended(NoTarget))
    case AtSwap(oldOwner) =>
      var (rooms, reply) := RoomLocator.RecoverIn(w.rooms, j.room, oldOwner, j.self);
      (rooms, Ended(Swapped(reply.outcome)))
    case Ended(_) => (w.rooms, j.phase)
  }

  /** A recovery of this room already runs on this node. */
  ghost predicate Busy(w: World, self: string, room: string) {
    exists id :: id in w.jobs && w.jobs[id].self == self && w.jobs[id].room == room && !w.jobs[id].phase.Ended?
  }

  ghost function Next(w: World, step: Step): (w': World) {
    match step
    case Tick(dt) => w.(now := w.now + dt)
    case Register(id, state) => w.(registry := w.registry[id := NodeInfo(id, state, w.now)])
    case Heartbeat(id) =>
      if id !in w.registry then w else w.(registry := w.registry[id := w.registry[id].(lastSeen := w.now)])
    case Unregister(id) => w.(registry := w.registry - {id})
    case Scan(self) =>
      var watch := if self in w.watches then w.watches[self] else Watch(map[], {});
      w.(watches := w.watches[self := ScanRegistry(watch, w.registry, self, w.staleAfter, w.now, w.grace)])
    case BeginRecovery(id, self, room) =>
      if id in w.jobs || Busy(w, self, room) then w
      else w.(jobs := w.jobs[id := Job(self, room, AtOwnership)])
    case JobStep(id, router) =>
      if id !in w.jobs then w else
      var (rooms, phase) := AdvanceJob(w, w.jobs[id], router);
      w.(rooms := rooms, jobs := w.jobs[id := w.jobs[id].(phase := phase)])
    case ClaimRoom(room, node) => w.(rooms := RoomLocator.ClaimIn(w.rooms, room, node).0)
    case ReleaseRoom(room, node) => w.(rooms := RoomLocator.ReleaseIn(w.rooms, room, node).0)
  }

  ghost function Run(w: World, steps: seq<Step>): (w': World)
    decreases |steps|
  {
    if steps == [] then w else Run(Next(w, steps[0]), steps[1..])
  }

  // ------------------------------------------------------------------
  // A live node keeps its rooms
  // ------------------------------------------------------------------

  /** Registered, heartbeating within the window and not OFFLINE. */
  predicate Live(w: World, v: string) {
    v in w.registry && !Misses(w.registry[v], w.staleAfter, w.now)
  }

  ghost predicate LiveThroughout(w: World, steps: seq<Step>, v: string)
    decreases |steps|
  {
    Live(w, v) && (steps == [] || LiveThroughout(Next(w, steps[0]), steps[1..], v))
  }

  /** No other node's detector has it marked. */
  ghost predicate Unmarked(w: World, v: string) {
    forall d :: d in w.watches && d != v ==> v !in w.watches[d].stale
  }

  /** No other node's recovery of the room has passed the stale check against it. */
  ghost predicate Unhunted(w: World, v: string, room: string) {
    forall id :: id in w.jobs && w.jobs[id].room == room && w.jobs[id].self != v ==>
      w.jobs[id].phase != AtRouter(v) && w.jobs[id].phase != AtSwap(v)
  }

  ghost predicate Safe(w: World, v: string, room: string) { Unmarked(w, v) && Unhunted(w, v, room) }

  lemma LiveStaysSafe(w: World, step: Step, v: string, room: string)
    requires Live(w, v) && Safe(w, v, room)
    ensures Safe(Next(w, step), v, room)
  {
  }

  lemma StepKeepsRoom(w: World, step: Step, v: string, room: string)
    requires Live(w, v) && Safe(w, v, room)
    requires room in w.rooms.owners && w.rooms.owners[room] == v && step != ReleaseRoom(room, v)
    ensures var owners := Next(w, step).rooms.owners; room in owners && owners[room] == v
  {
  }

  /** A node that stays live, and whose room starts out safe, keeps it until it releases it itself,
      however scans, recoveries, claims and releases interleave. */
  lemma {:induction false} LiveNodeKeepsRooms(w: World, steps: seq<Step>, v: string, room: string)
    requires LiveThroughout(w, steps, v) && Safe(w, v, room)
    requires room in w.rooms.owners && w.rooms.owners[room] == v
    requires ReleaseRoom(room, v) !in steps
    ensures Safe(Run(w, steps), v, room)
    ensures var owners := Run(w, steps).rooms.owners; room in owners && owners[room] == v
    decreases |steps|
  {
    hide Safe, Next;
    if steps != [] {
      assert steps[0] in steps;
      LiveStaysSafe(w, steps[0], v, room);
      StepKeepsRoom(w, steps[0], v, room);
      LiveNodeKeepsRooms(Next(w, steps[0]), steps[1..], v, room);
    }
  }

  /** A scan that sees the node live takes that detector's mark off it. */
  lemma ScanClearsLive(w: World, d: string, v: string)
    requires Live(w, v)
    ensures v !in Next(w, Scan(d)).watches[d].stale
  {
  }

  /** Being live now is not enough: a mark from a silence that is over is only taken off by the next
      scan, and until then the detector's node can take any of its rooms. */
  lemma MarkCostsLiveNode(w: World, d: string, v: string, room: string, id: nat)
    requires Live(w, v) && d != v && d in w.watches && v in w.watches[d].stale
    requires room in w.rooms.owners && w.rooms.owners[room] == v && id !in w.jobs && !Busy(w, d, room)
    ensures var j := JobStep(id, ElectsSelf); var steps := [BeginRecovery(id, d, room), j, j, j, j];
      LiveThroughout(w, steps, v) && Run(w, steps).rooms.owners == w.rooms.owners[room := d]
  {
    var j := JobStep(id, ElectsSelf);
    var w1 := Next(w, BeginRecovery(id, d, room));
    var w2, w3 := Next(w1, j), Next(Next(w1, j), j);
    var w4, w5 := Next(w3, j), Next(Next(w3, j), j);
    assert w2.jobs[id] == Job(d, room, AtStaleCheck(v)) && w3.jobs[id] == Job(d, room, AtRouter(v)) && w4.jobs[id] == Job(d, room, AtSwap(v));
    hide Busy;
    FiveSteps(w, w1, w2, w3, w4, w5, BeginRecovery(id, d, room), j, v);
  }

  lemma FiveSteps(w: World, w1: World, w2: World, w3: World, w4: World, w5: World, s: Step, j: Step, v: string)
    requires w1 == Next(w, s) && w2 == Next(w1, j) && w3 == Next(w2, j) && w4 == Next(w3, j) && w5 == Next(w4, j)
    requires Live(w, v) && Live(w1, v) && Live(w2, v) && Live(w3, v) && Live(w4, v) && Live(w5, v)
    ensures LiveThroughout(w, [s, j, j, j, j], v) && Run(w, [s, j, j, j, j]) == w5
  {
    hide Next, Live;
    assert [s, j, j, j, j][1..] == [j, j, j, j] && [j, j, j, j][1..] == [j, j, j] && [j, j, j][1..] == [j, j];
    assert [j, j][1..] == [j] && [j][1..] == [];
    assert Run(w4, [j]) == w5 && Run(w3, [j, j]) == w5 && Run(w2, [j, j, j]) == w5 && Run(w1, [j, j, j, j]) == w5;
    assert LiveThroughout(w4, [j], v) && LiveThroughout(w3, [j, j], v) && LiveThroughout(w2, [j, j, j], v);
    assert LiveThroughout(w1, [j, j, j, j], v);
  }

  lemma ScanMisses(w: World, d: string, v: string)
    requires v in w.registry && d != v && Misses(w.registry[v], w.staleAfter, w.now)
    ensures var w' := Next(w, Scan(d));
      var since := if d in w.watches && v in w.watches[d].firstMissed then w.watches[d].firstMissed[v] else w.now;
      && w' == w.(watches := w'.watches) && d in w'.watches
      && v in w'.watches[d].firstMissed && w'.watches[d].firstMissed[v] == since
      && (w.now - since >= w.grace ==> v in w'.watches[d].stale)
  {
  }

  function Silence(v: string, d: string, room: string, staleAfter: nat, grace: nat): (r: seq<Step>) {
    [Register(v, Ready), ClaimRoom(room, v), Tick(staleAfter + 1), Scan(d), Tick(grace), Scan(d), Heartbeat(v)]
  }

  function NewCluster(staleAfter: nat, grace: nat): (r: World) {
    World(0, staleAfter, grace, map[], map[], RoomLocator.Table(map[], map[]), map[])
  }

  /** Such a mark comes about: a node claims a room, falls silent for longer than the timeout and the
      grace period while another scans twice, and sends one heartbeat. */
  lemma MarkIsReachable(v: string, d: string, room: string, staleAfter: nat, grace: nat)
    requires d != v && staleAfter > 0
    ensures var w := Run(NewCluster(staleAfter, grace), Silence(v, d, room, staleAfter, grace));
      && Live(w, v) && d in w.watches && v in w.watches[d].stale && w.jobs == map[]
      && room in w.rooms.owners && w.rooms.owners[room] == v
  {
    hide Run, Next, Live;
    var s, w := Silence(v, d, room, staleAfter, grace), NewCluster(staleAfter, grace);
    var w3 := Next(Next(Next(w, s[0]), s[1]), s[2]);
    var w5 := Next(Next(w3, s[3]), s[4]);
    FallsSilent(v, room, staleAfter, grace);
    ScanMisses(w3, d, v);
    Waits(Next(w3, s[3]), grace);
    ScanMisses(w5, d, v);
    Beats(Next(w5, s[5]), v);
    SevenSteps(w, s, Next(Next(w5, s[5]), s[6]));
  }

  lemma FallsSilent(v: string, room: string, staleAfter: nat, grace: nat)
    requires staleAfter > 0
    ensures var w := Next(Next(Next(NewCluster(staleAfter, grace), Register(v, Ready)), ClaimRoom(room, v)), Tick(staleAfter + 1));
      && w == World(staleAfter + 1, staleAfter, grace, map[v := NodeInfo(v, Ready, 0)], map[], RoomLocator.Table(map[room := v], map[]), map[])
      && Misses(w.registry[v], w.staleAfter, w.now)
  {
  }

  lemma Waits(w: World, dt: nat)
    ensures Next(w, Tick(dt)) == w.(now := w.now + dt)
  {
  }

  lemma Beats(w: World, v: string)
    requires v in w.registry && w.registry[v].state == Ready && w.staleAfter > 0
    ensures var w' := Next(w, Heartbeat(v)); Live(w', v) && w' == w.(registry := w'.registry)
  {
  }

  lemma SevenSteps(w: World, s: seq<Step>, w7: World)
    requires |s| == 7
    requires w7 == Next(Next(Next(Next(Next(Next(Next(w, s[0]), s[1]), s[2]), s[3]), s[4]), s[5]), s[6])
    ensures Run(w, s) == w7
  {
    hide Next;
    var w2 := Next(Next(w, s[0]), s[1]);
    var w4 := Next(Next(w2, s[2]), s[3]);
    assert Run(w, s) == Run(w2, s[2..]) by { assert s[1..][1..] == s[2..]; }
    assert Run(w2, s[2..]) == Run(w4, s[4..]) by { assert s[2..][1..][1..] == s[4..]; }
    assert s[4..] == [s[4], s[5], s[6]] && s[4..][1..] == [s[5], s[6]] && [s[5], s[6]][1..] == [s[6]] && [s[6]][1..] == [];
    var w6 := Next(Next(w4, s[4]), s[5]);
    assert Run(w4, s[4..]) == Run(Next(w4, s[4]), [s[5], s[6]]);
    assert Run(Next(w4, s[4]), [s[5], s[6]]) == Run(w6, [s[6]]);
    assert Run(w6, [s[6]]) == Run(w7, []);
  }

  // ------------------------------------------------------------------
  // Exactly when a live owner is safe
  // ------------------------------------------------------------------

  ghost predicate KeepsRoom(w: World, steps: seq<Step>, v: string, room: string) {
    LiveThroughout(w, steps, v) && ReleaseRoom(room, v) !in steps ==>
      room in Run(w, steps).rooms.owners && Run(w, steps).rooms.owners[room] == v
  }

  /** A node recovers a room at most once at a time. */
  ghost predicate OneJob(w: World) {
    forall i, j :: i in w.jobs && j in w.jobs && i != j && w.jobs[i].self == w.jobs[j].self && w.jobs[i].room == w.jobs[j].room ==>
      w.jobs[i].phase.Ended? || w.jobs[j].phase.Ended?
  }

  lemma {:induction false} RunKeepsOneJob(w: World, steps: seq<Step>)
    requires OneJob(w)
    ensures OneJob(Run(w, steps))
    decreases |steps|
  {
    if steps != [] {
      StepKeepsOneJob(w, steps[0]);
      RunKeepsOneJob(Next(w, steps[0]), steps[1..]);
    }
    hide OneJob, Next;
  }

  lemma StepKeepsOneJob(w: World, step: Step)
    requires OneJob(w)
    ensures OneJob(Next(w, step))
  {
  }

  predicate OfJobs(steps: seq<Step>) { forall s :: s in steps ==> s.BeginRecovery? || s.JobStep? }

  /** Recovery steps touch neither the clock, the registry nor the marks. */
  lemma {:induction false} JobsKeepLive(w: World, steps: seq<Step>, v: string)
    requires OfJobs(steps) && Live(w, v)
    ensures LiveThroughout(w, steps, v)
    ensures var w' := Run(w, steps); w'.now == w.now && w'.registry == w.registry && w'.watches == w.watches && w'.staleAfter == w.staleAfter
    decreases |steps|
  {
    if steps != [] {
      assert steps[0] in steps;
      var w1 := Next(w, steps[0]);
      assert w1.now == w.now && w1.registry == w.registry && w1.watches == w.watches && w1.staleAfter == w.staleAfter;
      JobsKeepLive(w1, steps[1..], v);
    }
  }

  lemma {:induction false} RunConcat(w: World, a: seq<Step>, b: seq<Step>)
    ensures Run(w, a + b) == Run(Run(w, a), b)
    decreases |a|
  {
    if a == [] { assert a + b == b; }
    else {
      assert (a + b)[1..] == a[1..] + b;
      RunConcat(Next(w, a[0]), a[1..], b);
    }
  }

  function Left(p: Phase): (r: nat) {
    match p
    case AtOwnership => 4
    case AtStaleCheck(_) => 3
    case AtRouter(_) => 2
    case AtSwap(_) => 1
    case Ended(_) => 0
  }

  /** One elected step brings a job closer to its end and changes nothing else, but for a swap. */
  lemma OneJobStep(w: World, id: nat, v: string)
    requires id in w.jobs && !w.jobs[id].phase.Ended?
    ensures var j, w' := w.jobs[id], Next(w, JobStep(id, ElectsSelf));
      && w'.jobs == w.jobs[id := w'.jobs[id]] && w'.jobs[id] == j.(phase := w'.jobs[id].phase) && Left(w'.jobs[id].phase) < Left(j.phase)
      && (w'.rooms.owners == w.rooms.owners || w'.rooms.owners == w.rooms.owners[j.room := j.self])
      && (j.phase == AtRouter(v) ==> w'.rooms == w.rooms && w'.jobs[id].phase == AtSwap(v))
      && (j.phase == AtSwap(v) && j.self != v && j.room in w.rooms.owners && w.rooms.owners[j.room] == v ==>
            w'.rooms.owners == w.rooms.owners[j.room := j.self] && w'.jobs[id].phase.Ended?)
  {
  }

  /** Some further steps end a job. Its room keeps its owner or goes to the job's node, and does go if
      the job had passed the stale check against that owner. */
  lemma {:induction false} RunJob(w: World, id: nat, v: string) returns (steps: seq<Step>)
    requires id in w.jobs && w.jobs[id].self != v && w.jobs[id].room in w.rooms.owners && w.rooms.owners[w.jobs[id].room] == v
    ensures OfJobs(steps)
    ensures var j, w' := w.jobs[id], Run(w, steps);
      && w'.jobs.Keys == w.jobs.Keys && w'.jobs[id].phase.Ended?
      && (forall k :: k in w.jobs && k != id ==> w'.jobs[k] == w.jobs[k])
      && (w'.rooms.owners == w.rooms.owners || w'.rooms.owners == w.rooms.owners[j.room := j.self])
      && (j.phase == AtRouter(v) || j.phase == AtSwap(v) ==> w'.rooms.owners == w.rooms.owners[j.room := j.self])
    decreases Left(w.jobs[id].phase)
  {
    hide Next;
    if w.jobs[id].phase.Ended? { steps := []; }
    else {
      var s := JobStep(id, ElectsSelf);
      OneJobStep(w, id, v);
      var w1 := Next(w, s);
      if w1.rooms.owners == w.rooms.owners {
        var rest := RunJob(w1, id, v);
        steps := [s] + rest;
        assert steps[1..] == rest;
      } else {
        var rest := EndJob(w1, id);
        steps := [s] + rest;
        assert steps[1..] == rest;
      }
    }
  }

  /** The same once the room is already the job's own. */
  lemma {:induction false} EndJob(w: World, id: nat) returns (steps: seq<Step>)
    requires id in w.jobs && w.jobs[id].room in w.rooms.owners && w.rooms.owners[w.jobs[id].room] == w.jobs[id].self
    ensures OfJobs(steps)
    ensures var w' := Run(w, steps);
      && w'.jobs.Keys == w.jobs.Keys && w'.jobs[id].phase.Ended?
      && (forall k :: k in w.jobs && k != id ==> w'.jobs[k] == w.jobs[k])
      && w'.rooms.owners == w.rooms.owners
    decreases Left(w.jobs[id].phase)
  {
    hide Next;
    if w.jobs[id].phase.Ended? { steps := []; }
    else {
      var s := JobStep(id, ElectsSelf);
      OneJobStep(w, id, "");
      assert Next(w, s).rooms.owners == w.rooms.owners;
      var rest := EndJob(Next(w, s), id);
      steps := [s] + rest;
      assert steps[1..] == rest;
    }
  }

  lemma {:induction false} AboveAll(ids: set<nat>) returns (b: nat)
    ensures forall x :: x in ids ==> x < b
    decreases ids
  {
    if ids == {} { b := 0; }
    else {
      var x :| x in ids;
      var rest := AboveAll(ids - {x});
      b := if x < rest then rest else x + 1;
      assert forall y :: y in ids ==> y == x || y in ids - {x};
    }
  }

  /** A marked node can lose the room, even if the marking node is busy with it already. */
  lemma MarkedCanLose(w: World, d: string, v: string, room: string) returns (steps: seq<Step>)
    requires Live(w, v) && d != v && d in w.watches && v in w.watches[d].stale && OneJob(w)
    requires room in w.rooms.owners && w.rooms.owners[room] == v
    ensures OfJobs(steps) && Run(w, steps).rooms.owners == w.rooms.owners[room := d]
  {
    var first: seq<Step> := [];
    if Busy(w, d, room) {
      var id :| id in w.jobs && w.jobs[id].self == d && w.jobs[id].room == room && !w.jobs[id].phase.Ended?;
      first := RunJob(w, id, v);
    }
    JobsKeepLive(w, first, v);
    var w1 := Run(w, first);
    hide Run, Next;
    if w1.rooms.owners == w.rooms.owners[room := d] { return first; }
    var id := AboveAll(w1.jobs.Keys);
    MarkCostsLiveNode(w1, d, v, room, id);
    var j := JobStep(id, ElectsSelf);
    RunConcat(w, first, [BeginRecovery(id, d, room), j, j, j, j]);
    steps := first + [BeginRecovery(id, d, room), j, j, j, j];
  }

  lemma LosingRun(w: World, steps: seq<Step>, v: string, room: string, d: string)
    requires OfJobs(steps) && Live(w, v) && d != v && Run(w, steps).rooms.owners == w.rooms.owners[room := d]
    ensures !KeepsRoom(w, steps, v, room)
  {
    JobsKeepLive(w, steps, v);
    assert ReleaseRoom(room, v) !in steps;
    hide Run, LiveThroughout;
  }

  /** Whatever recoveries are under way, a live owner is sure of its room in every run exactly when no
      other node has it marked and no other node's recovery of the room is past the stale check. */
  lemma SafeExactly(w: World, v: string, room: string)
    requires Live(w, v) && room in w.rooms.owners && w.rooms.owners[room] == v && OneJob(w)
    ensures (forall steps :: KeepsRoom(w, steps, v, room)) <==> Safe(w, v, room)
  {
    if Safe(w, v, room) {
      forall steps ensures KeepsRoom(w, steps, v, room) {
        if LiveThroughout(w, steps, v) && ReleaseRoom(room, v) !in steps { LiveNodeKeepsRooms(w, steps, v, room); }
      }
    } else if !Unmarked(w, v) {
      var d :| d in w.watches && d != v && v in w.watches[d].stale;
      var steps := MarkedCanLose(w, d, v, room);
      LosingRun(w, steps, v, room, d);
    } else {
      var id :| id in w.jobs && w.jobs[id].room == room && w.jobs[id].self != v
                && (w.jobs[id].phase == AtRouter(v) || w.jobs[id].phase == AtSwap(v));
      var steps := RunJob(w, id, v);
      LosingRun(w, steps, v, room, w.jobs[id].self);
    }
  }

  // ------------------------------------------------------------------
  // A dead owner loses the room
  // ------------------------------------------------------------------

  /** Elected and undisturbed, a recovery moves the room to its own node, one generation up, exactly when
      that node's detector has the owner marked, or the owner is gone from the registry or OFFLINE. */
  lemma DeadOwnerLosesExactly(w: World, d: string, v: string, room: string, id: nat)
    requires d != v && room in w.rooms.owners && w.rooms.owners[room] == v && id !in w.jobs && !Busy(w, d, room)
    ensures var j := JobStep(id, ElectsSelf); var after := Run(w, [BeginRecovery(id, d, room), j, j, j, j]).rooms;
      var dead := (d in w.watches && v in w.watches[d].stale) || v !in w.registry || w.registry[v].state == Offline;
      && (after.owners == w.rooms.owners[room := d] && RoomLocator.Gen(after, room) == RoomLocator.Gen(w.rooms, room) + 1 <==> dead)
      && (!dead ==> after == w.rooms)
  {
    var j, w1 := JobStep(id, ElectsSelf), Next(w, BeginRecovery(id, d, room));
    var w2, w3 := Next(w1, j), Next(Next(w1, j), j);
    var w4, w5 := Next(w3, j), Next(Next(w3, j), j);
    RunFive(w, BeginRecovery(id, d, room), j);
    hide Run, Busy;
    assert w2.jobs[id] == Job(d, room, AtStaleCheck(v)) && w2.rooms == w.rooms && w2.registry == w.registry && w2.watches == w.watches;
    assert w3.rooms == w.rooms && w4.rooms == w.rooms;
  }

  lemma RunFive(w: World, s: Step, j: Step)
    ensures Run(w, [s, j, j, j, j]) == Next(Next(Next(Next(Next(w, s), j), j), j), j)
  {
    hide Next;
    var w2, w4 := Next(Next(w, s), j), Next(Next(Next(Next(w, s), j), j), j);
    assert [s, j, j, j, j][1..] == [j, j, j, j] && [j, j, j, j][1..] == [j, j, j] && [j, j, j][1..] == [j, j];
    assert [j, j][1..] == [j] && [j][1..] == [];
    assert Run(w, [s, j, j, j, j]) == Run(Next(w, s), [j, j, j, j]) == Run(w2, [j, j, j]);
    assert Run(w2, [j, j, j]) == Run(Next(w2, j), [j, j]) == Run(w4, [j]);
    assert Run(w4, [j]) == Run(Next(w4, j), []);
  }

  /** A node that unregisters loses its room to the next undisturbed recovery. */
  lemma UnregisteringCostsTheRoom(w: World, d: string, v: string, room: string, id: nat)
    requires d != v && room in w.rooms.owners && w.rooms.owners[room] == v && id !in w.jobs && !Busy(w, d, room)
    ensures var j := JobStep(id, ElectsSelf);
      Run(Next(w, Unregister(v)), [BeginRecovery(id, d, room), j, j, j, j]).rooms.owners == w.rooms.owners[room := d]
  {
    DeadOwnerLosesExactly(Next(w, Unregister(v)), d, v, room, id);
  }

  /** A room is free for the next claim exactly after its owner released it. */
  lemma ReleasedGoesToTheNext(w: World, room: string, node: string, next: string)
    requires room in w.rooms.owners
    ensures Next(Next(w, ReleaseRoom(room, node)), ClaimRoom(room, next)).rooms.owners
            == if w.rooms.owners[room] == node then w.rooms.owners[room := next] else w.rooms.owners
  {
    assert (w.rooms.owners - {room})[room := next] == w.rooms.owners[room := next];
  }
}
