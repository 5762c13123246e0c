/** The store object over its two maps, and every run of the messages and tracks it is fed. */
module ParticipantStoreRuns {
  import opened Wrappers
  import opened ParticipantStore

  datatype Remote = Remote(name: Option<string>, pubs: seq<Pub>)

  datatype Member = Member(id: string, name: Option<string>)

  datatype SnapMember = SnapMember(id: string, name: Option<string>, tracks: seq<SnapTrack>)

  // ------------------------------------------------------------------
  // What a room_joined message asks for
  // ------------------------------------------------------------------

  function FromMembers(ms: seq<Member>): (d: map<string, Desired>) {
    if ms == [] then map[]
    else FromMembers(ms[..|ms| - 1])[ms[|ms| - 1].id := Desired(ms[|ms| - 1].name, None)]
  }

  function OrElse(name: Option<string>, d: map<string, Desired>, id: string): (r: Option<string>) {
    if name.Some? then name else if id in d then d[id].name else None
  }

  function WithSnapshot(d: map<string, Desired>, snap: seq<SnapMember>): (r: map<string, Desired>) {
    if snap == [] then d
    else
      var before, m := WithSnapshot(d, snap[..|snap| - 1]), snap[|snap| - 1];
      before[m.id := Desired(OrElse(m.name, before, m.id), Some(m.tracks))]
  }

  function Joined(s: Slot, d: map<string, Desired>, id: string): (r: Slot) {
    if id in d then Reconcile(s, d[id]) else Depart(s)
  }

  // ------------------------------------------------------------------
  // The store
  // ------------------------------------------------------------------

  class Store {
    var localIdentity: Option<string>
    var remote: map<string, Remote>
    var pending: map<string, seq<Track>>

    ghost function SlotOf(id: string): (r: Slot)
      reads this
    {
      var buffered := if id in pending then pending[id] else [];
      if id in remote then Slot(true, remote[id].name, remote[id].pubs, buffered)
      else Slot(false, None, [], buffered)
    }

    constructor ()
      ensures localIdentity == None && forall id :: SlotOf(id) == Slot(false, None, [], [])
    {
      localIdentity, remote, pending := None, map[], map[];
    }

    method EnsureRemote(id: string, name: Option<string>)
      modifies this`remote
      ensures SlotOf(id) == Ensure(old(SlotOf(id)), name)
      ensures forall k :: k != id ==> SlotOf(k) == old(SlotOf(k))
      ensures remote.Keys == old(remote.Keys) + {id}
    {
      if id !in remote { remote := remote[id := Remote(name, [])]; }
      else if Truthy(name) && !Truthy(remote[id].name) { remote := remote[id := remote[id].(name := name)]; }
    }

    method TakeBufferedTrack(id: string, kind: Kind) returns (t: Option<Track>)
      modifies this`pending
      ensures var was := old(SlotOf(id)).buffered; var b := BufferedIndex(was, kind);
        && t == (if b < |was| then Some(was[b]) else None)
        && SlotOf(id) == old(SlotOf(id)).(buffered := if b < |was| then Cut(was, b) else was)
      ensures forall k :: k != id ==> SlotOf(k) == old(SlotOf(k))
    {
      if id !in pending { return None; }
      var list := pending[id];
      var b := BufferedIndex(list, kind);
      if b == |list| { return None; }
      t := Some(list[b]);
      list := list[..b] + list[b + 1..];
      pending := if list == [] then pending - {id} else pending[id := list];
    }

    method AnnouncePub(id: string, pubId: string, kind: Kind, muted: bool)
      requires id in remote
      modifies this
      ensures SlotOf(id) == Announce(old(SlotOf(id)), pubId, kind, muted)
      ensures forall k :: k != id ==> SlotOf(k) == old(SlotOf(k))
      ensures remote.Keys == old(remote.Keys) && localIdentity == old(localIdentity)
    {
      var pubs := remote[id].pubs;
      var i := IndexOf(pubs, pubId);
      if i < |pubs| {
        pubs := pubs[i := pubs[i].(muted := muted)];
      } else {
        var t := TakeBufferedTrack(id, kind);
        pubs := pubs + [Pub(pubId, kind, muted, t)];
      }
      remote := remote[id := remote[id].(pubs := pubs)];
    }

    /** publication_added, _muted and _removed; those of the local participant are not for this store. */
    method ApplyPublicationEvent(removed: bool, id: string, pubId: string, kind: Kind, muted: bool)
      modifies this
      ensures localIdentity == Some(id) ==> forall k :: SlotOf(k) == old(SlotOf(k))
      ensures localIdentity != Some(id) ==> var s := Ensure(old(SlotOf(id)), None);
        SlotOf(id) == if removed then Retract(s, pubId) else Announce(s, pubId, kind, muted)
      ensures forall k :: k != id ==> SlotOf(k) == old(SlotOf(k))
      ensures localIdentity == old(localIdentity)
    {
      if localIdentity == Some(id) { return; }
      EnsureRemote(id, None);
      if removed {
        var pubs := remote[id].pubs;
        var i := IndexOf(pubs, pubId);
        if i < |pubs| { remote := remote[id := remote[id].(pubs := pubs[..i] + pubs[i + 1..])]; }
      } else {
        AnnouncePub(id, pubId, kind, muted);
      }
    }

    method AttachTrack(id: string, t: Track, trackId: Option<string>) returns (matched: bool)
      modifies this
      ensures SlotOf(id) == Attach(old(SlotOf(id)), t, trackId)
      ensures forall k :: k != id ==> SlotOf(k) == old(SlotOf(k))
      ensures matched <==> SlotOf(id).buffered == old(SlotOf(id)).buffered
      ensures localIdentity == old(localIdentity)
    {
      if id in remote {
        var pubs := remote[id].pubs;
        var i := if Truthy(trackId) then IndexOf(pubs, trackId.value) else |pubs|;
        if i == |pubs| || pubs[i].track != None { i := FreeIndex(pubs, t.kind); }
        if i < |pubs| {
          remote := remote[id := remote[id].(pubs := pubs[i := pubs[i].(track := Some(t))])];
          assert SlotOf(id).buffered == old(SlotOf(id)).buffered;
          return true;
        }
      }
      pending := pending[id := (if id in pending then pending[id] else []) + [t]];
      matched := false;
      assert SlotOf(id).buffered == old(SlotOf(id)).buffered + [t];
    }

    method ApplyParticipantLeft(id: string) returns (was: Option<Remote>)
      modifies this`remote
      ensures SlotOf(id) == Depart(old(SlotOf(id)))
      ensures forall k :: k != id ==> SlotOf(k) == old(SlotOf(k))
      ensures was == if id in old(remote) then Some(old(remote[id])) else None
    {
      was := if id in remote then Some(remote[id]) else None;
      remote := remote - {id};
    }

    method DropTracks()
      modifies this`remote, this`pending
      ensures forall k :: SlotOf(k) == ClearTracks(old(SlotOf(k)))
      ensures remote.Keys == old(remote).Keys
    {
      var todo := remote.Keys;
      while todo != {}
        invariant todo <= remote.Keys == old(remote).Keys && pending == old(pending)
        invariant forall k :: k in todo ==> remote[k] == old(remote[k])
        invariant forall k :: k in remote && k !in todo ==> remote[k] == old(remote[k]).(pubs := Untracked(old(remote[k]).pubs))
        decreases todo
      {
        var k :| k in todo;
        todo := todo - {k};
        remote := remote[k := remote[k].(pubs := Untracked(remote[k].pubs))];
      }
      pending := map[];
    }

    method ReconcileOne(id: string, d: Desired)
      modifies this
      ensures SlotOf(id) == Reconcile(old(SlotOf(id)), d)
      ensures forall k :: k != id ==> SlotOf(k) == old(SlotOf(k))
      ensures remote.Keys == old(remote.Keys) + {id} && localIdentity == old(localIdentity)
    {
      hide Announce, IndexOf, BufferedIndex, FreeIndex;
      EnsureRemote(id, d.name);
      if d.tracks.None? { return; }
      var tracks := d.tracks.value;
      var keep := set t | t in tracks :: t.id;
      remote := remote[id := remote[id].(pubs := KeepListed(remote[id].pubs, keep))];
      ghost var base := SlotOf(id);
      for i := 0 to |tracks|
        invariant id in remote && SlotOf(id) == AnnounceAll(base, tracks[..i])
        invariant forall k :: k != id ==> SlotOf(k) == old(SlotOf(k))
        invariant remote.Keys == old(remote.Keys) + {id} && localIdentity == old(localIdentity)
      {
        assert tracks[..i + 1][..i] == tracks[..i];
        AnnouncePub(id, tracks[i].id, tracks[i].kind, tracks[i].muted);
      }
      assert tracks[..|tracks|] == tracks;
    }

    /** room_joined: afterwards every slot is what the message asks for, and the participants reported
        as added and removed are exactly the differences in membership. */
    method ApplyRoomJoined(members: seq<Member>, snapshot: seq<SnapMember>) returns (added: set<string>, removed: set<string>)
      modifies this
      ensures var d := WithSnapshot(FromMembers(members), snapshot);
        && (forall k :: SlotOf(k) == Joined(old(SlotOf(k)), d, k))
        && remote.Keys == d.Keys
        && added == d.Keys - old(remote.Keys) && removed == old(remote.Keys) - d.Keys
      ensures localIdentity == old(localIdentity)
    {
      var d: map<string, Desired> := map[];
      for i := 0 to |members|
        invariant d == FromMembers(members[..i])
      {
        assert members[..i + 1][..i] == members[..i];
        d := d[members[i].id := Desired(members[i].name, None)];
      }
      assert members[..|members|] == members;
      for i := 0 to |snapshot|
        invariant d == WithSnapshot(FromMembers(members), snapshot[..i])
      {
        assert snapshot[..i + 1][..i] == snapshot[..i];
        var m := snapshot[i];
        d := d[m.id := Desired(OrElse(m.name, d, m.id), Some(m.tracks))];
      }
      assert snapshot[..|snapshot|] == snapshot;
      added, removed := ReconcileAll(d);
    }

    method ReconcileAll(d: map<string, Desired>) returns (added: set<string>, removed: set<string>)
      modifies this
      ensures forall k :: SlotOf(k) == Joined(old(SlotOf(k)), d, k)
      ensures remote.Keys == d.Keys && added == d.Keys - old(remote.Keys) && removed == old(remote.Keys) - d.Keys
      ensures localIdentity == old(localIdentity)
    {
      removed := remote.Keys - d.Keys;
      remote := remote - removed;
      added := d.Keys - remote.Keys;
      var todo := d.Keys;
      while todo != {}
        invariant todo <= d.Keys && remote.Keys <= d.Keys && d.Keys - todo <= remote.Keys
        invariant forall k :: k !in todo ==> SlotOf(k) == Joined(old(SlotOf(k)), d, k)
        invariant forall k :: k in todo ==> SlotOf(k) == old(SlotOf(k))
        invariant localIdentity == old(localIdentity)
        decreases todo
      {
        var id :| id in todo;
        todo := todo - {id};
        ReconcileOne(id, d[id]);
      }
    }
  }

  // ------------------------------------------------------------------
  // Every run
  // ------------------------------------------------------------------

  /** `tracks` is the identities of the media tracks that have arrived so far. */
  datatype World = World(slots: map<string, Slot>, tracks: set<nat>)

  function At(w: World, id: string): (r: Slot) {
    if id in w.slots then w.slots[id] else Slot(false, None, [], [])
  }

  datatype Step =
    | TrackArrives(id: string, track: Track, trackId: Option<string>)
    | Announced(id: string, pubId: string, kind: Kind, muted: bool)
    | Retracted(id: string, pubId: string)
    | ParticipantJoined(id: string, name: Option<string>)
    | ParticipantLeft(id: string)
    | RoomJoined(desired: map<string, Desired>)
    | TracksCleared

  function Next(w: World, step: Step): (w': World) {
    match step
    case TrackArrives(id, t, trackId) =>
      if t.id in w.tracks then w
      else World(w.slots[id := Attach(At(w, id), t, trackId)], w.tracks + {t.id})
    case Announced(id, pubId, kind, muted) => w.(slots := w.slots[id := Announce(Ensure(At(w, id), None), pubId, kind, muted)])
    case Retracted(id, pubId) => w.(slots := w.slots[id := Retract(Ensure(At(w, id), None), pubId)])
    case ParticipantJoined(id, name) => w.(slots := w.slots[id := Ensure(At(w, id), name)])
    case ParticipantLeft(id) => w.(slots := w.slots[id := Depart(At(w, id))])
    case RoomJoined(d) => w.(slots := map id | id in w.slots.Keys + d.Keys :: Joined(At(w, id), d, id))
    case TracksCleared => w.(slots := map id | id in w.slots :: ClearTracks(w.slots[id]))
  }

  function Run(w: World, steps: seq<Step>): (w': World)
    decreases |steps|
  {
    if steps == [] then w else Run(Next(w, steps[0]), steps[1..])
  }

  ghost predicate Inv(w: World) {
    && (forall id :: SlotInv(At(w, id)))
    && (forall id, t :: Holds(At(w, id), t) ==> t.id in w.tracks)
    && (forall a, b, t :: a != b && Holds(At(w, a), t) ==> !Holds(At(w, b), t))
  }

  /** A slot changed without gaining a track. */
  ghost predicate Shrinks(s: Slot, s': Slot) {
    SlotInv(s') && forall t :: Holds(s', t) ==> Holds(s, t)
  }

  lemma ShrinkingKeepsInv(w: World, w': World)
    requires Inv(w) && w'.tracks == w.tracks
    requires forall id :: Shrinks(At(w, id), At(w', id))
    ensures Inv(w')
  {
  }

  lemma DepartShrinks(s: Slot)
    requires SlotInv(s)
    ensures Shrinks(s, Depart(s)) && Shrinks(s, ClearTracks(s)) && Shrinks(s, s)
  {
  }

  lemma SlotShrinks(w: World, step: Step, id: string)
    requires Inv(w) && !step.TrackArrives?
    ensures Shrinks(At(w, id), At(Next(w, step), id))
  {
    var s := At(w, id);
    assert SlotInv(s);
    DepartShrinks(s);
    hide SlotInv, Holds, Announce, Retract, Reconcile, Ensure, ClearTracks;
    match step
    case Announced(at, pubId, kind, muted) =>
      EnsureKeepsInv(s, None);
      AnnounceKeepsInv(Ensure(s, None), pubId, kind, muted);
    case Retracted(at, pubId) =>
      EnsureKeepsInv(s, None);
      RetractKeepsInv(Ensure(s, None), pubId);
    case ParticipantJoined(at, name) => EnsureKeepsInv(s, name);
    case ParticipantLeft(at) =>
    case RoomJoined(d) => if id in d { ReconcileKeepsInv(s, d[id]); }
    case TracksCleared =>
  }

  lemma ArrivalKeepsInv(w: World, step: Step)
    requires Inv(w) && step.TrackArrives?
    ensures Inv(Next(w, step))
  {
    if step.track.id !in w.tracks {
      assert SlotInv(At(w, step.id)) && !Holds(At(w, step.id), step.track);
      AttachKeepsInv(At(w, step.id), step.track, step.trackId);
      hide SlotInv, Holds, Attach;
      var w' := Next(w, step);
      assert forall id :: id != step.id ==> At(w', id) == At(w, id);
    }
  }

  lemma StepKeepsInv(w: World, step: Step)
    requires Inv(w)
    ensures Inv(Next(w, step))
  {
    hide Inv, Shrinks;
    if step.TrackArrives? { ArrivalKeepsInv(w, step); }
    else {
      forall id ensures Shrinks(At(w, id), At(Next(w, step), id)) { SlotShrinks(w, step, id); }
      ShrinkingKeepsInv(w, Next(w, step));
    }
  }

  lemma {:induction false} RunKeepsInv(w: World, steps: seq<Step>)
    requires Inv(w)
    ensures Inv(Run(w, steps))
    decreases |steps|
  {
    hide Inv;
    if steps != [] {
      StepKeepsInv(w, steps[0]);
      RunKeepsInv(Next(w, steps[0]), steps[1..]);
    }
  }

  lemma Reachable(steps: seq<Step>)
    ensures Inv(Run(World(map[], {}), steps))
  {
    NothingYet();
    hide Inv;
    RunKeepsInv(World(map[], {}), steps);
  }

  lemma NothingYet()
    ensures Inv(World(map[], {}))
  {
  }

  lemma SlotOfWorld(w: World, id: string, other: string, t: Track)
    requires Inv(w)
    ensures SlotInv(At(w, id)) && (id != other && Holds(At(w, id), t) ==> !Holds(At(w, other), t))
  {
  }

  /** In every reachable state, no buffered track waits while a publication of its stream and kind is
      free, and each track is in at most one place of one participant. */
  lemma MatchingIsMaximal(steps: seq<Step>, id: string, other: string, t: Track)
    ensures var w := Run(World(map[], {}), steps);
      && Maximal(At(w, id)) && OnePlace(At(w, id))
      && (id != other && Holds(At(w, id), t) ==> !Holds(At(w, other), t))
  {
    hide Inv, Run;
    Reachable(steps);
    SlotOfWorld(Run(World(map[], {}), steps), id, other, t);
  }

  // ------------------------------------------------------------------
  // No track is lost
  // ------------------------------------------------------------------

  /** The step takes the track away: its publication is retracted or omitted by a snapshot, its
      participant goes while it is on a publication, or all tracks are cleared. */
  predicate Loses(w: World, step: Step, id: string, t: Track) {
    var pubs := At(w, id).pubs;
    match step
    case Retracted(at, pubId) => at == id && OnOneOf(pubs, t, {pubId})
    case ParticipantLeft(at) => at == id && OnPub(pubs, t)
    case RoomJoined(d) =>
      OnPub(pubs, t) && (id !in d || (d[id].tracks.Some? && !OnOneOf(pubs, t, Listed(d[id].tracks.value))))
    case TracksCleared => true
    case _ => false
  }

  lemma ClearedHoldsNothing(s: Slot, t: Track)
    ensures !Holds(ClearTracks(s), t)
    ensures Holds(Depart(s), t) <==> t in s.buffered
  {
  }

  lemma OnPubNotBuffered(s: Slot, t: Track)
    requires SlotInv(s)
    ensures OnPub(s.pubs, t) ==> t !in s.buffered
  {
  }

  lemma OnOneOfIsOnPub(pubs: seq<Pub>, t: Track, ids: set<string>)
    ensures OnOneOf(pubs, t, ids) ==> OnPub(pubs, t)
  {
  }

  /** A held track is still held after a step exactly when the step does not take it away. */
  lemma StepKeepsTrack(w: World, step: Step, id: string, t: Track)
    requires Inv(w) && Holds(At(w, id), t)
    ensures Holds(At(Next(w, step), id), t) <==> !Loses(w, step, id, t)
  {
    var s := At(w, id);
    assert SlotInv(s);
    ClearedHoldsNothing(s, t);
    OnPubNotBuffered(s, t);
    assert Holds(s, t) <==> t in s.buffered || OnPub(s.pubs, t);
    hide SlotInv, Inv, Announce, Retract, Attach, Reconcile, ClearTracks, OnPub, OnOneOf, Holds;
    match step
    case TrackArrives(at, track, trackId) => AttachKeepsTracks(s, track, trackId, t);
    case Announced(at, pubId, kind, muted) =>
      EnsureKeepsInv(s, None);
      AnnounceKeepsTracks(Ensure(s, None), pubId, kind, muted, t);
    case Retracted(at, pubId) =>
      EnsureKeepsInv(s, None);
      EnsureKeepsPubs(s);
      RetractKeepsInv(Ensure(s, None), pubId);
      hide Ensure;
    case ParticipantJoined(at, name) => EnsureKeepsInv(s, name);
    case ParticipantLeft(at) =>
    case RoomJoined(d) =>
      if id in d {
        ReconcileKeepsInv(s, d[id]);
        if d[id].tracks.Some? { OnOneOfIsOnPub(s.pubs, t, Listed(d[id].tracks.value)); }
      }
      hide Listed;
    case TracksCleared =>
  }

  lemma EnsureKeepsPubs(s: Slot)
    requires SlotInv(s)
    ensures Ensure(s, None).pubs == s.pubs
  {
  }

  /** Somewhere in the run a step takes the track away. */
  predicate LostIn(w: World, steps: seq<Step>, id: string, t: Track)
    decreases |steps|
  {
    steps != [] && (Loses(w, steps[0], id, t) || LostIn(Next(w, steps[0]), steps[1..], id, t))
  }

  lemma StepRegainsNothing(w: World, step: Step, id: string, t: Track)
    requires Inv(w) && t.id in w.tracks && !Holds(At(w, id), t)
    ensures t.id in Next(w, step).tracks && !Holds(At(Next(w, step), id), t)
  {
    if step.TrackArrives? {
      AttachKeepsTracks(At(w, id), step.track, step.trackId, t);
      hide Inv, Holds, Attach;
    } else {
      SlotShrinks(w, step, id);
      hide Inv, Holds;
    }
  }

  lemma {:induction false} RunRegainsNothing(w: World, steps: seq<Step>, id: string, t: Track)
    requires Inv(w) && t.id in w.tracks && !Holds(At(w, id), t)
    ensures !Holds(At(Run(w, steps), id), t)
    decreases |steps|
  {
    hide Inv, Holds, Next;
    if steps != [] {
      StepRegainsNothing(w, steps[0], id, t);
      StepKeepsInv(w, steps[0]);
      RunRegainsNothing(Next(w, steps[0]), steps[1..], id, t);
    }
  }

  /** A held track is held at the end of a run exactly when no step of it took the track away. */
  lemma {:induction false} HeldExactlyUntilLost(w: World, steps: seq<Step>, id: string, t: Track)
    requires Inv(w) && Holds(At(w, id), t)
    ensures Holds(At(Run(w, steps), id), t) <==> !LostIn(w, steps, id, t)
    decreases |steps|
  {
    hide Loses, Holds, Next;
    if steps != [] {
      StepKeepsTrack(w, steps[0], id, t);
      StepKeepsInv(w, steps[0]);
      var w1 := Next(w, steps[0]);
      if Holds(At(w1, id), t) { HeldExactlyUntilLost(w1, steps[1..], id, t); }
      else {
        assert t.id in w.tracks;
        TracksGrow(w, steps[0]);
        RunRegainsNothing(w1, steps[1..], id, t);
      }
    }
  }

  lemma TracksGrow(w: World, step: Step)
    ensures w.tracks <= Next(w, step).tracks
  {
  }

  /** An arriving track is held by its participant, waiting or attached, until a step takes it away. */
  lemma ArrivedTrackStays(history: seq<Step>, id: string, t: Track, trackId: Option<string>, steps: seq<Step>)
    requires t.id !in Run(World(map[], {}), history).tracks
    ensures var w := Next(Run(World(map[], {}), history), TrackArrives(id, t, trackId));
      Holds(At(Run(w, steps), id), t) <==> !LostIn(w, steps, id, t)
  {
    hide Inv, Holds, Next, Run, LostIn;
    var w := Run(World(map[], {}), history);
    Reachable(history);
    ArrivalIsHeld(w, id, t, trackId);
    HeldExactlyUntilLost(Next(w, TrackArrives(id, t, trackId)), steps, id, t);
  }

  lemma ArrivalIsHeld(w: World, id: string, t: Track, trackId: Option<string>)
    requires Inv(w) && t.id !in w.tracks
    ensures var w' := Next(w, TrackArrives(id, t, trackId)); Inv(w') && Holds(At(w', id), t)
  {
    hide Inv, Holds, Attach;
    StepKeepsInv(w, TrackArrives(id, t, trackId));
    AttachKeepsTracks(At(w, id), t, trackId, t);
    assert At(Next(w, TrackArrives(id, t, trackId)), id) == Attach(At(w, id), t, trackId);
  }

  lemma JoinedIsSettled(s: Slot, d: map<string, Desired>, id: string)
    requires SlotInv(s)
    ensures var s' := Joined(s, d, id);
      && Joined(s', d, id) == s'
      && (s'.present <==> id in d)
      && (id in d && d[id].tracks.Some? ==>
            Ids(s'.pubs) == Listed(d[id].tracks.value) && MutedAsListed(s'.pubs, d[id].tracks.value))
  {
    if id in d {
      ReconcileIsIdempotent(s, d[id]);
      ReconcileKeepsInv(s, d[id]);
      if d[id].tracks.Some? { ReconcileIsExact(s, d[id]); }
    }
  }

  /** After a room_joined exactly its members are present with exactly the publications it lists,
      muted as it lists them, and a repeated one finds everything in place. */
  lemma RoomJoinedIsIdempotent(steps: seq<Step>, d: map<string, Desired>, id: string)
    ensures var w := Next(Run(World(map[], {}), steps), RoomJoined(d));
      && At(Next(w, RoomJoined(d)), id) == At(w, id)
      && (At(w, id).present <==> id in d)
      && (id in d && d[id].tracks.Some? ==>
            Ids(At(w, id).pubs) == Listed(d[id].tracks.value) && MutedAsListed(At(w, id).pubs, d[id].tracks.value))
  {
    var w0 := Run(World(map[], {}), steps);
    hide Ids, Listed, MutedAsListed, SlotInv, Inv, Run, Reconcile;
    Reachable(steps);
    SlotOfWorld(w0, id, id, Track(0, Audio));
    JoinedIsSettled(At(w0, id), d, id);
    var w := Next(w0, RoomJoined(d));
    assert At(w, id) == Joined(At(w0, id), d, id);
    assert At(Next(w, RoomJoined(d)), id) == Joined(At(w, id), d, id);
  }

  // ------------------------------------------------------------------
  // What the message asks for
  // ------------------------------------------------------------------

  /** A room_joined names exactly the participants of its member list and its snapshot. Tracks come from a
      participant's last snapshot entry, and without one there are none to reconcile. */
  lemma {:induction false} DesiredExactly(ms: seq<Member>, snap: seq<SnapMember>, id: string)
    ensures var d := WithSnapshot(FromMembers(ms), snap);
      && (id in d <==> (exists i :: 0 <= i < |ms| && ms[i].id == id) || (exists i :: 0 <= i < |snap| && snap[i].id == id))
      && (id in d ==> (d[id].tracks.Some? <==> exists i :: 0 <= i < |snap| && snap[i].id == id))
      && (id in d && d[id].tracks.Some? ==> exists i :: LastEntry(snap, i, id) && d[id].tracks.value == snap[i].tracks)
    decreases |snap|
  {
    if snap == [] {
      MembersExactly(ms, id);
    } else {
      var before, m := snap[..|snap| - 1], snap[|snap| - 1];
      DesiredExactly(ms, before, id);
      assert forall i :: 0 <= i < |before| ==> before[i] == snap[i];
      if m.id == id { assert LastEntry(snap, |snap| - 1, id); }
      else { assert forall i :: LastEntry(before, i, id) ==> LastEntry(snap, i, id); }
    }
  }

  ghost predicate LastEntry(snap: seq<SnapMember>, i: int, id: string) {
    0 <= i < |snap| && snap[i].id == id && forall j :: i < j < |snap| ==> snap[j].id != id
  }

  lemma {:induction false} MembersExactly(ms: seq<Member>, id: string)
    ensures var d := FromMembers(ms);
      (id in d <==> exists i :: 0 <= i < |ms| && ms[i].id == id) && (id in d ==> d[id].tracks == None)
  {
    if ms != [] {
      MembersExactly(ms[..|ms| - 1], id);
      assert forall i :: 0 <= i < |ms| - 1 ==> ms[..|ms| - 1][i] == ms[i];
    }
  }

  /** The name is the one given last: by the newest snapshot entry that gives one since the member list, or
      else by the last entry of the member list. */
  lemma NameGiven(d: map<string, Desired>, snap: seq<SnapMember>, m: SnapMember)
    ensures var before, after := WithSnapshot(d, snap), WithSnapshot(d, snap + [m]);
      && m.id in after && after[m.id].name == (if m.name.Some? then m.name else if m.id in before then before[m.id].name else None)
      && forall id :: id != m.id ==> (id in after <==> id in before) && (id in after ==> after[id] == before[id])
  {
    assert (snap + [m])[..|snap|] == snap;
  }

  // ------------------------------------------------------------------
  // Who is there and with what, by the events alone
  // ------------------------------------------------------------------

  predicate PresentAfter(was: bool, step: Step, id: string) {
    match step
    case Announced(i, _, _, _) => was || i == id
    case Retracted(i, _) => was || i == id
    case ParticipantJoined(i, _) => was || i == id
    case ParticipantLeft(i) => was && i != id
    case RoomJoined(d) => id in d
    case _ => was
  }

  predicate ListedAfter(was: bool, step: Step, id: string, pubId: string) {
    match step
    case Announced(i, p, _, _) => was || (i == id && p == pubId)
    case Retracted(i, p) => was && !(i == id && p == pubId)
    case ParticipantLeft(i) => was && i != id
    case RoomJoined(d) => id in d && if d[id].tracks.Some? then exists t :: t in d[id].tracks.value && t.id == pubId else was
    case _ => was
  }

  function PresentIn(was: bool, steps: seq<Step>, id: string): (r: bool)
    decreases |steps|
  {
    if steps == [] then was else PresentIn(PresentAfter(was, steps[0], id), steps[1..], id)
  }

  function ListedIn(was: bool, steps: seq<Step>, id: string, pubId: string): (r: bool)
    decreases |steps|
  {
    if steps == [] then was else ListedIn(ListedAfter(was, steps[0], id, pubId), steps[1..], id, pubId)
  }

  lemma SlotPresent(w: World, step: Step, id: string)
    ensures At(Next(w, step), id).present <==> PresentAfter(At(w, id).present, step, id)
  {
    if step.RoomJoined? && id in step.desired && step.desired[id].tracks.Some? {
      var s1, d := Ensure(At(w, id), step.desired[id].name), step.desired[id];
      AnnounceAllPresent(s1.(pubs := KeepListed(s1.pubs, Listed(d.tracks.value))), d.tracks.value);
    }
    hide Attach, KeepListed, AnnounceAll, Untracked;
  }

  lemma {:induction false} AnnounceAllPresent(s: Slot, tracks: seq<SnapTrack>)
    ensures AnnounceAll(s, tracks).present == s.present
  {
    if tracks != [] { AnnounceAllPresent(s, tracks[..|tracks| - 1]); }
  }

  lemma SlotListed(w: World, step: Step, id: string, pubId: string)
    requires SlotInv(At(w, id))
    ensures pubId in Ids(At(Next(w, step), id).pubs) <==> ListedAfter(pubId in Ids(At(w, id).pubs), step, id, pubId)
  {
    hide Attach, Announce, IndexOf, Cut, Untracked, AnnounceAll, KeepListed;
    var s := At(w, id);
    match step
    case TrackArrives(_, t, trackId) => AttachIds(s, t, trackId);
    case Announced(_, p, kind, muted) => AnnounceIds(Ensure(s, None), p, kind, muted);
    case Retracted(_, p) => EnsureKeepsInv(s, None); RetractIds(Ensure(s, None).pubs, p);
    case ParticipantJoined(_, _) =>
    case ParticipantLeft(_) =>
    case RoomJoined(d) => if id in d && d[id].tracks.Some? { ReconcileIsExact(s, d[id]); }
    case TracksCleared => OtherPlaces(s, "", None); SameIds(s.pubs, ClearTracks(s).pubs);
  }

  lemma SameIds(a: seq<Pub>, b: seq<Pub>)
    requires OnlyTracks(a, b)
    ensures Ids(a) == Ids(b)
  {
    forall x ensures x in Ids(a) <==> x in Ids(b) {
      if x in Ids(a) { var i: nat :| i < |a| && a[i].id == x; assert b[i] in b; }
      if x in Ids(b) { var i: nat :| i < |b| && b[i].id == x; assert a[i] in a; }
    }
  }

  lemma AttachIds(s: Slot, t: Track, trackId: Option<string>)
    requires SlotInv(s)
    ensures Ids(Attach(s, t, trackId).pubs) == Ids(s.pubs)
  {
    if s.pubs != [] { AttachPlaces(s, t, trackId, 0); SameIds(s.pubs, Attach(s, t, trackId).pubs); }
    hide Ids, SlotInv;
  }

  lemma {:induction false} RunFollowsEvents(w: World, steps: seq<Step>, id: string, pubId: string)
    requires Inv(w)
    ensures At(Run(w, steps), id).present <==> PresentIn(At(w, id).present, steps, id)
    ensures pubId in Ids(At(Run(w, steps), id).pubs) <==> ListedIn(pubId in Ids(At(w, id).pubs), steps, id, pubId)
    decreases |steps|
  {
    if steps != [] {
      SlotPresent(w, steps[0], id);
      SlotListed(w, steps[0], id, pubId);
      StepKeepsInv(w, steps[0]);
      hide Inv, Next, At, ListedAfter, PresentAfter, Ids;
      RunFollowsEvents(Next(w, steps[0]), steps[1..], id, pubId);
    }
  }

  /** In every run a participant is present, and a publication listed, exactly as the events since the
      start say: announcements and joins add, retractions and departures remove, and a room_joined
      replaces, tracks and matching aside. */
  lemma StoreFollowsEvents(steps: seq<Step>, id: string, pubId: string)
    ensures var s := At(Run(World(map[], {}), steps), id);
      && (s.present <==> PresentIn(false, steps, id))
      && ((exists p :: p in s.pubs && p.id == pubId) <==> ListedIn(false, steps, id, pubId))
  {
    RunFollowsEvents(World(map[], {}), steps, id, pubId);
  }
}
