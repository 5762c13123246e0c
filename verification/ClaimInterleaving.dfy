/** ClaimOwner on Redis is up to three separate commands. Here any number of claim calls by any
    nodes interleave, command by command, with releases and recoveries. No key expires, no
    reply is lost, and nobody forces an owner. */
module ClaimInterleaving {
  import opened RoomLocator

  datatype Phase =
    | AtSetNX             // about to run SET NX
    | AtGet               // the key was taken: about to GET it
    | AtRetry             // the key was gone again: about to SET NX once more
    | Returned(owner: Node, claimed: bool)

  datatype Call = Call(room: Room, node: Node, phase: Phase)

  /** `released` holds a room once for every release that answered true, and `recovered` the
      generations that successful recoveries answered, in order. */
  datatype World = World(
    keys: Table, calls: map<nat, Call>, released: multiset<Room>, recovered: seq<(Room, nat)>)

  datatype Step =
    | Begin(call: nat, room: Room, node: Node)
    | Command(call: nat)
    | DoRelease(room: Room, node: Node)
    | DoRecover(room: Room, oldOwner: Node, newOwner: Node)

  function Initial(): (r: World) { World(Table(map[], map[]), map[], multiset{}, []) }

  /** The next command of one claim call. */
  function Advance(keys: Table, c: Call): (r: (Table, Call)) {
    match c.phase
    case AtSetNX =>
      var (keys', ok) := SetNXOf(keys, c.room, c.node);
      (keys', c.(phase := if ok then Returned(c.node, true) else AtGet))
    case AtGet =>
      (keys, c.(phase := match GetOf(keys, c.room) case Some(owner) => Returned(owner, false) case None => AtRetry))
    case AtRetry =>
      var (keys', ok) := SetNXOf(keys, c.room, c.node);
      (keys', c.(phase := if ok then Returned(c.node, true) else Returned("", false)))
    case Returned(_, _) => (keys, c)
  }

  /** With nothing in between, the commands of a call come to the whole operation. */
  lemma UninterruptedIsClaim(keys: Table, room: Room, node: Node)
    ensures var (keys1, c1) := Advance(keys, Call(room, node, AtSetNX));
      var (keys2, c2) := Advance(keys1, c1);
      c2.phase.Returned? && (keys2, Claimed(c2.phase.owner, c2.phase.claimed)) == RedisClaim(keys, room, node)
  {
  }

  function Next(w: World, step: Step): (w': World) {
    match step
    case Begin(id, room, node) =>
      if id in w.calls then w else w.(calls := w.calls[id := Call(room, node, AtSetNX)])
    case Command(id) =>
      if id !in w.calls then w else
      var (keys, c) := Advance(w.keys, w.calls[id]);
      w.(keys := keys, calls := w.calls[id := c])
    case DoRelease(room, node) =>
      var (keys, reply) := RedisRelease(w.keys, room, node);
      w.(keys := keys, released := if reply == Released(true) then w.released + multiset{room} else w.released)
    case DoRecover(room, oldOwner, newOwner) =>
      var (keys, reply) := RedisRecover(w.keys, room, oldOwner, newOwner);
      w.(keys := keys,
         recovered := if reply.outcome == RecoverOK then w.recovered + [(room, reply.generation)] else w.recovered)
  }

  function Run(w: World, steps: seq<Step>): (w': World)
    decreases |steps|
  {
    if steps == [] then w else Run(Next(w, steps[0]), steps[1..])
  }

  /** The calls on `room` that were told they claimed it. */
  ghost function Winners(w: World, room: Room): (r: set<nat>) {
    set id | id in w.calls && Won(w.calls[id], room)
  }

  predicate Won(c: Call, room: Room) {
    c.room == room && c.phase.Returned? && c.phase.claimed
  }

  ghost predicate Balanced(w: World, room: Room) {
    |Winners(w, room)| == w.released[room] + (if room in w.keys.owners then 1 else 0)
  }

  /** Later recoveries of a room carry larger generations, none above the stored one. */
  ghost predicate Fenced(w: World) {
    && (forall i :: 0 <= i < |w.recovered| ==> w.recovered[i].1 <= Gen(w.keys, w.recovered[i].0))
    && (forall i, j :: 0 <= i < j < |w.recovered| && w.recovered[i].0 == w.recovered[j].0 ==>
          w.recovered[i].1 < w.recovered[j].1)
  }

  lemma AdvanceClaimsFreeRoom(keys: Table, c: Call, room: Room)
    ensures var (keys', c') := Advance(keys, c);
      && (Won(c', room) && !Won(c, room) ==> room !in keys.owners && room in keys'.owners)
      && (Won(c', room) == Won(c, room) ==> (room in keys'.owners) == (room in keys.owners))
      && (Won(c, room) ==> Won(c', room))
  {
  }

  lemma CommandKeepsBalance(w: World, id: nat, room: Room)
    requires Balanced(w, room) && id in w.calls
    ensures Balanced(Next(w, Command(id)), room)
  {
    var w' := Next(w, Command(id));
    var c, c' := w.calls[id], w'.calls[id];
    AdvanceClaimsFreeRoom(w.keys, c, room);
    if Won(c', room) && !Won(c, room) {
      assert Winners(w', room) == Winners(w, room) + {id};
    } else {
      assert Winners(w', room) == Winners(w, room);
    }
  }

  lemma StepKeepsBalance(w: World, step: Step, room: Room)
    requires Balanced(w, room)
    ensures Balanced(Next(w, step), room)
  {
    match step
    case Begin(_, _, _) => assert Winners(Next(w, step), room) == Winners(w, room);
    case Command(id) => if id in w.calls { CommandKeepsBalance(w, id, room); }
    case DoRelease(_, _) => assert Winners(Next(w, step), room) == Winners(w, room);
    case DoRecover(_, _, _) => assert Winners(Next(w, step), room) == Winners(w, room);
  }

  lemma StepKeepsFenced(w: World, step: Step)
    requires Fenced(w)
    ensures Fenced(Next(w, step))
  {
  }

  lemma {:induction false} RunKeepsBoth(w: World, steps: seq<Step>, room: Room)
    requires Balanced(w, room) && Fenced(w)
    ensures Balanced(Run(w, steps), room) && Fenced(Run(w, steps))
    decreases |steps|
  {
    if steps != [] {
      StepKeepsBalance(w, steps[0], room);
      StepKeepsFenced(w, steps[0]);
      RunKeepsBoth(Next(w, steps[0]), steps[1..], room);
    }
  }

  /** In every interleaving, successful claims of a room minus its successful releases is one when
      the room is owned and zero when it is not. */
  lemma ClaimsBalanceReleases(steps: seq<Step>, room: Room)
    ensures var w := Run(Initial(), steps);
      |Winners(w, room)| - w.released[room] == if room in w.keys.owners then 1 else 0
  {
    assert Winners(Initial(), room) == {};
    RunKeepsBoth(Initial(), steps, room);
  }

  /** So between two releases exactly one of any number of racing claims can win. */
  lemma OneWinnerUntilReleased(steps: seq<Step>, room: Room, a: nat, b: nat)
    requires Run(Initial(), steps).released[room] == 0
    requires a in Winners(Run(Initial(), steps), room) && b in Winners(Run(Initial(), steps), room)
    ensures a == b
  {
    ClaimsBalanceReleases(steps, room);
    var winners := Winners(Run(Initial(), steps), room);
    if a != b {
      assert {a, b} <= winners && |{a, b}| == 2;
      SubsetIsSmaller({a, b}, winners);
    }
  }

  lemma {:induction false} SubsetIsSmaller(a: set<nat>, b: set<nat>)
    requires a <= b
    ensures |a| <= |b|
    decreases a
  {
    if a != {} {
      var x :| x in a;
      SubsetIsSmaller(a - {x}, b - {x});
    }
  }

  /** The generations that recoveries of a room hand out strictly increase along every run, also
      across a release and a new claim. */
  lemma GenerationsIncrease(steps: seq<Step>, i: nat, j: nat)
    requires i < j < |Run(Initial(), steps).recovered|
    ensures var log := Run(Initial(), steps).recovered; log[i].0 == log[j].0 ==> log[i].1 < log[j].1
  {
    assert Winners(Initial(), "") == {};
    RunKeepsBoth(Initial(), steps, "");
  }

  // ------------------------------------------------------------------
  // Every call has its effect
  // ------------------------------------------------------------------

  /** With nobody in between, a call begun at any point is over after two commands, with the whole
      operation's effect and answer. */
  lemma UndisturbedCallTakesEffect(w: World, id: nat, room: Room, node: Node)
    requires id !in w.calls
    ensures var w' := Run(w, [Begin(id, room, node), Command(id), Command(id)]);
      var owner := if room in w.keys.owners then w.keys.owners[room] else node;
      && w' == w.(keys := w'.keys, calls := w.calls[id := Call(room, node, Returned(owner, room !in w.keys.owners))])
      && w'.keys == w.keys.(owners := w.keys.owners[room := owner])
  {
    RunThree(w, Begin(id, room, node), Command(id), Command(id));
    hide Run;
    if room in w.keys.owners { assert w.keys.owners == w.keys.owners[room := w.keys.owners[room]]; }
  }

  lemma RunThree(w: World, a: Step, b: Step, c: Step)
    ensures Run(w, [a, b, c]) == Next(Next(Next(w, a), b), c)
  {
    assert [a, b, c][1..] == [b, c] && [b, c][1..] == [c] && [c][1..] == [];
    assert Run(w, [a, b, c]) == Run(Next(w, a), [b, c]) == Run(Next(Next(w, a), b), [c]);
    hide Next;
  }

  /** A release frees the room, and is counted, exactly if the releasing node owns it. A recovery moves it
      one generation up, and is counted, exactly if the old owner still owns it and is not the new one. */
  lemma ReleasesAndRecoveriesTakeEffect(w: World, room: Room, node: Node, next: Node)
    ensures var w' := Next(w, DoRelease(room, node)); var mine := room in w.keys.owners && w.keys.owners[room] == node;
      && w'.keys == (if mine then w.keys.(owners := w.keys.owners - {room}) else w.keys)
      && w'.released == (if mine then w.released + multiset{room} else w.released) && w'.calls == w.calls && w'.recovered == w.recovered
    ensures var w' := Next(w, DoRecover(room, node, next));
      var moved := room in w.keys.owners && w.keys.owners[room] == node != next; var gen := Gen(w.keys, room) + 1;
      && w'.keys == (if moved then Table(w.keys.owners[room := next], w.keys.gens[room := gen]) else w.keys)
      && w'.recovered == (if moved then w.recovered + [(room, gen)] else w.recovered) && w'.calls == w.calls && w'.released == w.released
  {
  }

  predicate OnlyClaims(steps: seq<Step>) { forall i :: 0 <= i < |steps| ==> steps[i].Begin? || steps[i].Command? }

  /** Without releases and recoveries: a call past its first command finds the room owned, and one that
      has returned was told the owner. */
  ghost predicate Told(w: World) {
    forall id :: id in w.calls ==>
      var c := w.calls[id];
      && !c.phase.AtRetry? && (!c.phase.AtSetNX? ==> c.room in w.keys.owners)
      && (c.phase.Returned? ==> c.phase.owner == w.keys.owners[c.room] && (c.phase.claimed ==> c.node == c.phase.owner))
  }

  lemma {:induction false} RunKeepsTold(w: World, steps: seq<Step>)
    requires Told(w) && OnlyClaims(steps)
    ensures Told(Run(w, steps)) && Run(w, steps).released == w.released
    decreases |steps|
  {
    if steps != [] {
      assert steps[0].Begin? || steps[0].Command?;
      RunKeepsTold(Next(w, steps[0]), steps[1..]);
    }
  }

  /** However many claims race, as soon as one has returned exactly one has won, and everyone who has
      returned was told its node. */
  lemma LosersLearnTheWinner(steps: seq<Step>, id: nat)
    requires OnlyClaims(steps) && id in Run(Initial(), steps).calls && Run(Initial(), steps).calls[id].phase.Returned?
    ensures var w := Run(Initial(), steps); var c := w.calls[id];
      exists win :: win in Winners(w, c.room) && w.calls[win].node == c.phase.owner && (c.phase.claimed <==> id == win)
  {
    var w := Run(Initial(), steps);
    var room := w.calls[id].room;
    RunKeepsTold(Initial(), steps);
    ClaimsBalanceReleases(steps, room);
    hide Run;
    assert |Winners(w, room)| == 1;
    var win :| win in Winners(w, room);
    if w.calls[id].phase.claimed { OneWinnerUntilReleased(steps, room, id, win); }
  }
}
