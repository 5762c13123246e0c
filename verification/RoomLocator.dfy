/** Room ownership behind one contract with two implementations: maps under a lock, and
    Redis keys with server-side scripts. A missing generation reads as 0 in both. */
module RoomLocator {
  import opened Wrappers

  type Room = string
  type Node = string

  datatype Outcome = RecoverFailed | RecoverConflict | RecoverAlready | RecoverOK

  datatype Op =
    | Claim(room: Room, node: Node)
    | Release(room: Room, node: Node)
    | Recover(room: Room, oldOwner: Node, newOwner: Node)
    | Lookup(room: Room)

  datatype Reply =
    | Claimed(owner: Node, won: bool)
    | Released(done: bool)
    | Recovered(outcome: Outcome, owner: Node, generation: nat)
    | Owned(found: bool, owner: Node, generation: nat)

  /** A table of owners and one of generations: the two Go maps, or the two Redis key families. */
  datatype Table = Table(owners: map<Room, Node>, gens: map<Room, nat>)

  function Gen(t: Table, room: Room): (r: nat) {
    if room in t.gens then t.gens[room] else 0
  }

  // ------------------------------------------------------------------
  // The in-memory operations
  // ------------------------------------------------------------------

  function ClaimIn(t: Table, room: Room, node: Node): (r: (Table, Reply)) {
    if room in t.owners then (t, Claimed(t.owners[room], false))
    else (t.(owners := t.owners[room := node]), Claimed(node, true))
  }

  function RecoverIn(t: Table, room: Room, oldOwner: Node, newOwner: Node): (r: (Table, Reply)) {
    if room !in t.owners then (t, Recovered(RecoverFailed, "", 0))
    else if t.owners[room] == newOwner then (t, Recovered(RecoverAlready, newOwner, Gen(t, room)))
    else if t.owners[room] != oldOwner then (t, Recovered(RecoverConflict, t.owners[room], Gen(t, room)))
    else
      (Table(t.owners[room := newOwner], t.gens[room := Gen(t, room) + 1]),
       Recovered(RecoverOK, newOwner, Gen(t, room) + 1))
  }

  function LookupIn(t: Table, room: Room): (r: Reply) {
    if room in t.owners then Owned(true, t.owners[room], Gen(t, room)) else Owned(false, "", 0)
  }

  /** A release drops the generation with the owner. */
  function ReleaseIn(t: Table, room: Room, node: Node): (r: (Table, Reply)) {
    if room in t.owners && t.owners[room] == node then (Table(t.owners - {room}, t.gens - {room}), Released(true))
    else (t, Released(false))
  }

  // ------------------------------------------------------------------
  // The Redis commands, and the operations built from them
  // ------------------------------------------------------------------

  function SetNXOf(t: Table, room: Room, node: Node): (r: (Table, bool)) {
    if room in t.owners then (t, false) else (t.(owners := t.owners[room := node]), true)
  }

  function GetOf(t: Table, room: Room): (r: Option<Node>) {
    if room in t.owners then Some(t.owners[room]) else None
  }

  function GetGenOf(t: Table, room: Room): (r: Option<nat>) {
    if room in t.gens then Some(t.gens[room]) else None
  }

  /** compareDeleteScript: the generation key is another key and stays. */
  function CompareDeleteOf(t: Table, room: Room, want: Node): (r: (Table, bool)) {
    if GetOf(t, room) == Some(want) then (t.(owners := t.owners - {room}), true) else (t, false)
  }

  /** recoverOwnerScript: 0 missing, 1 moved, 2 already there, 3 someone else's. */
  function RecoverScriptOf(t: Table, room: Room, oldOwner: Node, newOwner: Node): (r: (Table, nat, nat)) {
    match GetOf(t, room)
    case None => (t, 0, 0)
    case Some(cur) =>
      var gen := if GetGenOf(t, room).Some? then GetGenOf(t, room).value else 0;
      if cur == newOwner then (t, 2, gen)
      else if cur != oldOwner then (t, 3, gen)
      else (Table(t.owners[room := newOwner], t.gens[room := gen + 1]), 1, gen + 1)
  }

  /** SET NX, and on a loss GET and perhaps SET NX again, with nothing in between. */
  function RedisClaim(t: Table, room: Room, node: Node): (r: (Table, Reply)) {
    var (t1, ok) := SetNXOf(t, room, node);
    if ok then (t1, Claimed(node, true))
    else match GetOf(t1, room)
      case Some(cur) => (t1, Claimed(cur, false))
      case None =>
        var (t2, again) := SetNXOf(t1, room, node);
        if again then (t2, Claimed(node, true)) else (t2, Claimed("", false))
  }

  function RedisRelease(t: Table, room: Room, node: Node): (r: (Table, Reply)) {
    var (t', deleted) := CompareDeleteOf(t, room, node);
    (t', Released(deleted))
  }

  /** The script, and for a conflict a GET of the owner. */
  function RedisRecover(t: Table, room: Room, oldOwner: Node, newOwner: Node): (r: (Table, Reply)) {
    var (t', code, gen) := RecoverScriptOf(t, room, oldOwner, newOwner);
    if code == 1 then (t', Recovered(RecoverOK, newOwner, gen))
    else if code == 2 then (t', Recovered(RecoverAlready, newOwner, gen))
    else if code == 3 then
      (t', Recovered(RecoverConflict, if GetOf(t', room).Some? then GetOf(t', room).value else "", gen))
    else (t', Recovered(RecoverFailed, "", 0))
  }

  function RedisLookup(t: Table, room: Room): (r: Reply) {
    match GetOf(t, room)
    case None => Owned(false, "", 0)
    case Some(owner) => Owned(true, owner, if GetGenOf(t, room).Some? then GetGenOf(t, room).value else 0)
  }

  /** With nothing in between, the Redis calls do what the in-memory ones do, except that a release
      leaves the generation behind. */
  lemma RedisDoesTheSame(t: Table, room: Room, a: Node, b: Node)
    ensures RedisClaim(t, room, a) == ClaimIn(t, room, a)
    ensures RedisRecover(t, room, a, b) == RecoverIn(t, room, a, b)
    ensures RedisLookup(t, room) == LookupIn(t, room)
    ensures RedisRelease(t, room, a).1 == ReleaseIn(t, room, a).1
    ensures RedisRelease(t, room, a).0 == Table(ReleaseIn(t, room, a).0.owners, t.gens)
  {
  }

  datatype Backend = InMemory | Redis

  function Apply(t: Table, op: Op, backend: Backend): (r: (Table, Reply)) {
    match backend
    case InMemory =>
      (match op
       case Claim(room, node) => ClaimIn(t, room, node)
       case Release(room, node) => ReleaseIn(t, room, node)
       case Recover(room, oldOwner, newOwner) => RecoverIn(t, room, oldOwner, newOwner)
       case Lookup(room) => (t, LookupIn(t, room)))
    case Redis =>
      (match op
       case Claim(room, node) => RedisClaim(t, room, node)
       case Release(room, node) => RedisRelease(t, room, node)
       case Recover(room, oldOwner, newOwner) => RedisRecover(t, room, oldOwner, newOwner)
       case Lookup(room) => (t, RedisLookup(t, room)))
  }

  // ------------------------------------------------------------------
  // The in-memory locator
  // ------------------------------------------------------------------

  class InMemoryRoomLocator {
    var owners: map<Room, Node>
    var gens: map<Room, nat>

    ghost function State(): (r: Table)
      reads this
    {
      Table(owners, gens)
    }

    constructor ()
      ensures State() == Table(map[], map[])
    {
      owners, gens := map[], map[];
    }

    method Ownership(room: Room) returns (owner: Node, generation: nat, ok: bool)
      ensures Owned(ok, owner, generation) == LookupIn(State(), room)
      ensures ok <==> room in owners
      ensures ok ==> owner == owners[room] && generation == if room in gens then gens[room] else 0
    {
      if room !in owners { return "", 0, false; }
      return owners[room], if room in gens then gens[room] else 0, true;
    }

    method ClaimOwner(room: Room, node: Node) returns (owner: Node, claimed: bool)
      modifies this
      ensures (State(), Claimed(owner, claimed)) == ClaimIn(old(State()), room, node)
      ensures claimed <==> room !in old(owners)
      ensures room in owners && owner == owners[room] && (claimed ==> owner == node)
      ensures gens == old(gens) && owners == if claimed then old(owners)[room := node] else old(owners)
    {
      if room in owners { return owners[room], false; }
      owners := owners[room := node];
      return node, true;
    }

    method ReleaseOwner(room: Room, node: Node) returns (released: bool)
      modifies this
      ensures (State(), Released(released)) == ReleaseIn(old(State()), room, node)
      ensures released <==> room in old(owners) && old(owners)[room] == node
      ensures if released then owners == old(owners) - {room} && gens == old(gens) - {room} else State() == old(State())
    {
      if room in owners && owners[room] == node {
        owners := owners - {room};
        gens := gens - {room};
        return true;
      }
      return false;
    }

    method RecoverOwner(room: Room, oldOwner: Node, newOwner: Node)
      returns (outcome: Outcome, owner: Node, generation: nat)
      modifies this
      ensures (State(), Recovered(outcome, owner, generation)) == RecoverIn(old(State()), room, oldOwner, newOwner)
      ensures outcome == RecoverFailed <==> room !in old(owners)
      ensures outcome == RecoverAlready <==> room in old(owners) && old(owners)[room] == newOwner
      ensures outcome == RecoverOK <==> room in old(owners) && old(owners)[room] == oldOwner != newOwner
      ensures outcome == RecoverOK ==> owners == old(owners)[room := newOwner] && generation == old(Gen(State(), room)) + 1 && gens == old(gens)[room := generation]
      ensures outcome != RecoverOK ==> State() == old(State())
    {
      if room !in owners { return RecoverFailed, "", 0; }
      var cur := owners[room];
      var gen := if room in gens then gens[room] else 0;
      if cur == newOwner { return RecoverAlready, cur, gen; }
      if cur != oldOwner { return RecoverConflict, cur, gen; }
      owners := owners[room := newOwner];
      gens := gens[room := gen + 1];
      return RecoverOK, newOwner, gen + 1;
    }
  }

  // ------------------------------------------------------------------
  // The Redis locator: atomic server commands, and the calls built from them
  // ------------------------------------------------------------------

  class RedisRoomLocator {
    var rooms: map<Room, Node>
    var roomgen: map<Room, nat>

    ghost function State(): (r: Table)
      reads this
    {
      Table(rooms, roomgen)
    }

    method SetNX(room: Room, node: Node) returns (ok: bool)
      modifies this
      ensures (State(), ok) == SetNXOf(old(State()), room, node)
    {
      ok := room !in rooms;
      if ok { rooms := rooms[room := node]; }
    }

    method Get(room: Room) returns (owner: Option<Node>)
      ensures owner == GetOf(State(), room)
    {
      owner := if room in rooms then Some(rooms[room]) else None;
    }

    method GetGen(room: Room) returns (gen: Option<nat>)
      ensures gen == GetGenOf(State(), room)
    {
      gen := if room in roomgen then Some(roomgen[room]) else None;
    }

    method CompareDelete(room: Room, want: Node) returns (deleted: bool)
      modifies this
      ensures (State(), deleted) == CompareDeleteOf(old(State()), room, want)
      ensures deleted <==> room in old(rooms) && old(rooms)[room] == want
      ensures roomgen == old(roomgen) && rooms == if deleted then old(rooms) - {room} else old(rooms)
    {
      deleted := room in rooms && rooms[room] == want;
      if deleted { rooms := rooms - {room}; }
    }

    method RecoverScript(room: Room, oldOwner: Node, newOwner: Node) returns (code: nat, gen: nat)
      modifies this
      ensures (State(), code, gen) == RecoverScriptOf(old(State()), room, oldOwner, newOwner)
      ensures code == 1 <==> room in old(rooms) && old(rooms)[room] == oldOwner != newOwner
      ensures if code == 1 then rooms == old(rooms)[room := newOwner] && gen == old(Gen(State(), room)) + 1 && roomgen == old(roomgen)[room := gen]
              else State() == old(State())
    {
      if room !in rooms { return 0, 0; }
      var cur := rooms[room];
      gen := if room in roomgen then roomgen[room] else 0;
      if cur == newOwner { return 2, gen; }
      if cur != oldOwner { return 3, gen; }
      gen := gen + 1;
      rooms := rooms[room := newOwner];
      roomgen := roomgen[room := gen];
      return 1, gen;
    }

    /** Any number of commands from other clients, or none. */
    method OtherClients(ghost quiet: bool)
      modifies this
      ensures quiet ==> State() == old(State())
    {
    }

    /** With no other client in between this is the in-memory lookup; with others, the owner is the one
        found first. */
    method Ownership(room: Room, ghost quiet: bool) returns (owner: Node, generation: nat, ok: bool)
      modifies this
      ensures quiet ==> State() == old(State()) && Owned(ok, owner, generation) == RedisLookup(old(State()), room)
      ensures ok == GetOf(old(State()), room).Some? && owner == if ok then GetOf(old(State()), room).value else ""
    {
      var found := Get(room);
      if found.None? { return "", 0, false; }
      OtherClients(quiet);
      var gen := GetGen(room);
      return found.value, if gen.Some? then gen.value else 0, true;
    }

    /** With no other client in between this is the in-memory claim. With others, the answer is true of
        the keys as the last command left or found them: the winner owns the room, a loser is told who
        does, and told nobody only if others came in between. */
    method ClaimOwner(room: Room, node: Node, ghost quiet: bool) returns (owner: Node, claimed: bool)
      modifies this
      ensures quiet ==> (State(), Claimed(owner, claimed)) == RedisClaim(old(State()), room, node)
      ensures room !in old(rooms) ==> claimed && State() == old(State()).(owners := old(rooms)[room := node])
      ensures claimed ==> owner == node && room in rooms && rooms[room] == node
      ensures !claimed ==> room in rooms && (owner == rooms[room] || (owner == "" && !quiet))
    {
      var ok := SetNX(room, node);
      if ok { return node, true; }
      OtherClients(quiet);
      var cur := Get(room);
      if cur.None? {
        OtherClients(quiet);
        ok := SetNX(room, node);
        if ok { return node, true; }
        return "", false;
      }
      return cur.value, false;
    }

    method ReleaseOwner(room: Room, node: Node) returns (released: bool)
      modifies this
      ensures (State(), Released(released)) == RedisRelease(old(State()), room, node)
    {
      released := CompareDelete(room, node);
    }

    /** The script decides. Another client can only get between it and the GET that names the owner of
        a conflict. */
    method RecoverOwner(room: Room, oldOwner: Node, newOwner: Node, ghost quiet: bool)
      returns (outcome: Outcome, owner: Node, generation: nat)
      modifies this
      ensures quiet || outcome != RecoverConflict ==>
        (State(), Recovered(outcome, owner, generation)) == RedisRecover(old(State()), room, oldOwner, newOwner)
      ensures var reply := RedisRecover(old(State()), room, oldOwner, newOwner).1;
        reply.Recovered? && outcome == reply.outcome && generation == reply.generation
      ensures outcome == RecoverConflict ==> owner == if room in rooms then rooms[room] else ""
    {
      var code, gen := RecoverScript(room, oldOwner, newOwner);
      if code == 1 { return RecoverOK, newOwner, gen; }
      if code == 2 { return RecoverAlready, newOwner, gen; }
      if code == 3 {
        OtherClients(quiet);
        var cur := Get(room);
        return RecoverConflict, if cur.Some? then cur.value else "", gen;
      }
      return RecoverFailed, "", 0;
    }
  }

  // ------------------------------------------------------------------
  // The two backends run side by side
  // ------------------------------------------------------------------

  function Run(ops: seq<Op>, backend: Backend): (t: Table) {
    if ops == [] then Table(map[], map[])
    else Apply(Run(ops[..|ops| - 1], backend), ops[|ops| - 1], backend).0
  }

  /** The reply to the last operation. */
  function LastReply(ops: seq<Op>, backend: Backend): (r: Reply)
    requires ops != []
  {
    Apply(Run(ops[..|ops| - 1], backend), ops[|ops| - 1], backend).1
  }

  /** A reply without the generation it carries. */
  function Visible(r: Reply): (res: Reply) {
    match r
    case Recovered(outcome, owner, _) => Recovered(outcome, owner, 0)
    case Owned(found, owner, _) => Owned(found, owner, 0)
    case _ => r
  }

  /** How often `room` was recovered, in all or since it was last released. */
  function RecoveriesOf(ops: seq<Op>, room: Room, sinceRelease: bool): (n: nat) {
    if ops == [] then 0
    else
      Tally(RecoveriesOf(ops[..|ops| - 1], room, sinceRelease), ops[|ops| - 1], LastReply(ops, Redis), room, sinceRelease)
  }

  function ReleasesOf(ops: seq<Op>, room: Room): (n: nat) {
    if ops == [] then 0
    else
      ReleasesOf(ops[..|ops| - 1], room) +
      if ops[|ops| - 1].room == room && LastReply(ops, Redis) == Released(true) then 1 else 0
  }

  /** The count of recoveries after one more operation on `room` got this reply. */
  function Tally(before: nat, op: Op, reply: Reply, room: Room, sinceRelease: bool): (n: nat) {
    if op.room != room then before
    else if reply.Recovered? && reply.outcome == RecoverOK then before + 1
    else if sinceRelease && reply == Released(true) then 0
    else before
  }

  lemma OneOperationAgrees(m: Table, r: Table, op: Op, room: Room)
    requires m.owners == r.owners
    requires room !in m.owners ==> Gen(m, room) == 0
    ensures var (m', reply) := Apply(m, op, InMemory);
      var (r', reply') := Apply(r, op, Redis);
      && m'.owners == r'.owners && Visible(reply) == Visible(reply')
      && Gen(m', room) == Tally(Gen(m, room), op, reply', room, true)
      && Gen(r', room) == Tally(Gen(r, room), op, reply', room, false)
      && (room !in m'.owners ==> Gen(m', room) == 0)
  {
    match op
    case Claim(at, node) => RedisDoesTheSame(r, at, node, node);
    case Release(at, node) => RedisDoesTheSame(r, at, node, node);
    case Recover(at, oldOwner, newOwner) => RedisDoesTheSame(r, at, oldOwner, newOwner);
    case Lookup(at) => RedisDoesTheSame(r, at, "", "");
    hide RedisClaim, RedisRelease, RedisRecover, RedisLookup;
  }

  /** Both backends own the same rooms and say the same things after every history. The in-memory
      generation counts the recoveries since the last release, the Redis one all of them. */
  lemma {:induction false} BackendsAgree(ops: seq<Op>, room: Room)
    ensures Run(ops, InMemory).owners == Run(ops, Redis).owners
    ensures ops != [] ==> Visible(LastReply(ops, InMemory)) == Visible(LastReply(ops, Redis))
    ensures Gen(Run(ops, InMemory), room) == RecoveriesOf(ops, room, true)
    ensures Gen(Run(ops, Redis), room) == RecoveriesOf(ops, room, false)
    ensures room !in Run(ops, InMemory).owners ==> Gen(Run(ops, InMemory), room) == 0
  {
    if ops != [] {
      var prefix := ops[..|ops| - 1];
      BackendsAgree(prefix, room);
      OneOperationAgrees(Run(prefix, InMemory), Run(prefix, Redis), ops[|ops| - 1], room);
    }
  }

  lemma {:induction false} SinceReleaseIsFewer(ops: seq<Op>, room: Room)
    ensures RecoveriesOf(ops, room, true) <= RecoveriesOf(ops, room, false)
    ensures ReleasesOf(ops, room) == 0 ==>
              RecoveriesOf(ops, room, true) == RecoveriesOf(ops, room, false)
  {
    if ops != [] {
      SinceReleaseIsFewer(ops[..|ops| - 1], room);
    }
  }

  /** The generations agree until a room's first release, and Redis is never behind. */
  lemma GenerationsCompared(ops: seq<Op>, room: Room)
    ensures Gen(Run(ops, InMemory), room) <= Gen(Run(ops, Redis), room)
    ensures ReleasesOf(ops, room) == 0 ==> Gen(Run(ops, InMemory), room) == Gen(Run(ops, Redis), room)
  {
    BackendsAgree(ops, room);
    SinceReleaseIsFewer(ops, room);
  }
}
