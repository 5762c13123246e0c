/** The browser SDK's view of the other participants: publications announced by signaling, and media
    tracks that arrive on their own and are matched to them, or wait in a buffer. What the store
    holds for one participant id (also the media stream id) is a slot. */
module ParticipantStore {
  import opened Wrappers

  datatype Kind = Audio | Video

  /** A track is an object: `id` is its identity. */
  datatype Track = Track(id: nat, kind: Kind)

  datatype Pub = Pub(id: string, kind: Kind, muted: bool, track: Option<Track>)

  /** `pubs` is in insertion order, as a JavaScript Map iterates. */
  datatype Slot = Slot(present: bool, name: Option<string>, pubs: seq<Pub>, buffered: seq<Track>)

  // ------------------------------------------------------------------
  // One slot
  // ------------------------------------------------------------------

  function IndexOf(pubs: seq<Pub>, id: string): (i: nat)
    ensures i <= |pubs| && (i < |pubs| ==> pubs[i].id == id)
    ensures forall j :: 0 <= j < i ==> pubs[j].id != id
  {
    if pubs == [] then 0
    else
      var i := IndexOf(pubs[..|pubs| - 1], id);
      if i < |pubs| - 1 || pubs[|pubs| - 1].id == id then i else |pubs|
  }

  /** The first free publication of a kind. */
  function FreeIndex(pubs: seq<Pub>, kind: Kind): (i: nat)
    ensures i <= |pubs| && (i < |pubs| ==> pubs[i].kind == kind && pubs[i].track == None)
    ensures forall j :: 0 <= j < i ==> pubs[j].kind != kind || pubs[j].track != None
  {
    if pubs == [] then 0
    else
      var i, last := FreeIndex(pubs[..|pubs| - 1], kind), pubs[|pubs| - 1];
      if i < |pubs| - 1 || (last.kind == kind && last.track == None) then i else |pubs|
  }

  /** The first buffered track of a kind. */
  function BufferedIndex(buffered: seq<Track>, kind: Kind): (i: nat)
    ensures i <= |buffered| && (i < |buffered| ==> buffered[i].kind == kind)
    ensures forall j :: 0 <= j < i ==> buffered[j].kind != kind
  {
    if buffered == [] then 0
    else
      var i := BufferedIndex(buffered[..|buffered| - 1], kind);
      if i < |buffered| - 1 || buffered[|buffered| - 1].kind == kind then i else |buffered|
  }

  /** The sequence without its i-th element. */
  function Cut<T>(s: seq<T>, i: nat): (r: seq<T>)
    requires i < |s|
    ensures |r| == |s| - 1 && forall k :: 0 <= k < |r| ==> r[k] == s[if k < i then k else k + 1]
  {
    s[..i] + s[i + 1..]
  }

  predicate Truthy(name: Option<string>) { name.Some? && name.value != "" }

  function Ensure(s: Slot, name: Option<string>): (r: Slot) {
    if !s.present then s.(present := true, name := name, pubs := [])
    else if Truthy(name) && !Truthy(s.name) then s.(name := name)
    else s
  }

  /** An announced publication: known ones get their mute state, new ones take a waiting track. */
  function Announce(s: Slot, id: string, kind: Kind, muted: bool): (s': Slot) {
    var i := IndexOf(s.pubs, id);
    if i < |s.pubs| then s.(pubs := s.pubs[i := s.pubs[i].(muted := muted)])
    else
      var b := BufferedIndex(s.buffered, kind);
      if b < |s.buffered| then
        s.(pubs := s.pubs + [Pub(id, kind, muted, Some(s.buffered[b]))], buffered := Cut(s.buffered, b))
      else s.(pubs := s.pubs + [Pub(id, kind, muted, None)])
  }

  function Retract(s: Slot, id: string): (s': Slot) {
    var i := IndexOf(s.pubs, id);
    if i < |s.pubs| then s.(pubs := Cut(s.pubs, i)) else s
  }

  /** An arriving track goes to the publication it names if that is free, else to the first free one
      of its kind, else into the buffer. */
  function Attach(s: Slot, t: Track, trackId: Option<string>): (s': Slot) {
    var named := if Truthy(trackId) then IndexOf(s.pubs, trackId.value) else |s.pubs|;
    var i := if named < |s.pubs| && s.pubs[named].track == None then named else FreeIndex(s.pubs, t.kind);
    if s.present && i < |s.pubs| then s.(pubs := s.pubs[i := s.pubs[i].(track := Some(t))])
    else s.(buffered := s.buffered + [t])
  }

  function Depart(s: Slot): (r: Slot) { s.(present := false, name := None, pubs := []) }

  function Untracked(pubs: seq<Pub>): (r: seq<Pub>) {
    seq(|pubs|, i requires 0 <= i < |pubs| => pubs[i].(track := None))
  }

  function ClearTracks(s: Slot): (r: Slot) { s.(pubs := Untracked(s.pubs), buffered := []) }

  datatype SnapTrack = SnapTrack(id: string, kind: Kind, muted: bool)

  datatype Desired = Desired(name: Option<string>, tracks: Option<seq<SnapTrack>>)

  function Listed(tracks: seq<SnapTrack>): (r: set<string>) { set t | t in tracks :: t.id }

  function KeepListed(pubs: seq<Pub>, ids: set<string>): (r: seq<Pub>) {
    if pubs == [] then []
    else KeepListed(pubs[..|pubs| - 1], ids) + if pubs[|pubs| - 1].id in ids then [pubs[|pubs| - 1]] else []
  }

  function AnnounceAll(s: Slot, tracks: seq<SnapTrack>): (s': Slot) {
    if tracks == [] then s
    else
      var t := tracks[|tracks| - 1];
      Announce(AnnounceAll(s, tracks[..|tracks| - 1]), t.id, t.kind, t.muted)
  }

  /** What room_joined makes of a slot the server lists. */
  function Reconcile(s: Slot, d: Desired): (s': Slot) {
    var s1 := Ensure(s, d.name);
    if d.tracks.None? then s1
    else AnnounceAll(s1.(pubs := KeepListed(s1.pubs, Listed(d.tracks.value))), d.tracks.value)
  }

  // ------------------------------------------------------------------
  // The invariant of a slot
  // ------------------------------------------------------------------

  ghost predicate DistinctPubs(pubs: seq<Pub>) {
    forall i, j :: 0 <= i < j < |pubs| ==> pubs[i].id != pubs[j].id
  }

  /** No buffered track waits while a publication of its kind is free. */
  ghost predicate Maximal(s: Slot) {
    forall i, j :: 0 <= i < |s.pubs| && 0 <= j < |s.buffered| && s.pubs[i].track == None ==> s.pubs[i].kind != s.buffered[j].kind
  }

  /** Each track is in one place. */
  ghost predicate OnePlace(s: Slot) {
    && (forall i, j :: 0 <= i < j < |s.pubs| && s.pubs[i].track.Some? ==> s.pubs[i].track != s.pubs[j].track)
    && (forall i, j :: 0 <= i < j < |s.buffered| ==> s.buffered[i] != s.buffered[j])
    && (forall i, j :: 0 <= i < |s.pubs| && 0 <= j < |s.buffered| ==> s.pubs[i].track != Some(s.buffered[j]))
  }

  predicate Holds(s: Slot, t: Track) {
    t in s.buffered || OnPub(s.pubs, t)
  }

  predicate OnPub(pubs: seq<Pub>, t: Track) { exists i :: 0 <= i < |pubs| && pubs[i].track == Some(t) }

  /** The track is on a publication with one of these ids. */
  predicate OnOneOf(pubs: seq<Pub>, t: Track, ids: set<string>) {
    exists i :: 0 <= i < |pubs| && pubs[i].track == Some(t) && pubs[i].id in ids
  }

  ghost predicate SlotInv(s: Slot) {
    DistinctPubs(s.pubs) && Maximal(s) && OnePlace(s) && (!s.present ==> s.pubs == [])
  }

  lemma PubReplaced(pubs: seq<Pub>, i: nat, q: Pub, t: Track)
    requires i < |pubs| && (pubs[i].track == None || q.track == pubs[i].track)
    ensures OnPub(pubs[i := q], t) <==> OnPub(pubs, t) || q.track == Some(t)
  {
    var after := pubs[i := q];
    if OnPub(pubs, t) {
      var j: nat :| j < |pubs| && pubs[j].track == Some(t);
      assert after[j].track == Some(t);
    }
    assert after[i] == q;
  }

  lemma PubAdded(pubs: seq<Pub>, q: Pub, t: Track)
    ensures OnPub(pubs + [q], t) <==> OnPub(pubs, t) || q.track == Some(t)
  {
    var after := pubs + [q];
    if OnPub(pubs, t) {
      var j: nat :| j < |pubs| && pubs[j].track == Some(t);
      assert after[j].track == Some(t);
    }
    assert after[|pubs|] == q;
  }

  lemma CutMembers(buffered: seq<Track>, b: nat, t: Track)
    requires b < |buffered|
    ensures t in buffered <==> t in Cut(buffered, b) || t == buffered[b]
  {
    var r := Cut(buffered, b);
    if j: nat :| j < |buffered| && buffered[j] == t && j != b { assert r[if j < b then j else j - 1] == t; }
  }

  /** Announcing a publication neither gains nor loses a track. */
  lemma AnnounceKeepsTracks(s: Slot, id: string, kind: Kind, muted: bool, t: Track)
    ensures Holds(Announce(s, id, kind, muted), t) <==> Holds(s, t)
  {
    var i, b := IndexOf(s.pubs, id), BufferedIndex(s.buffered, kind);
    if i < |s.pubs| { PubReplaced(s.pubs, i, s.pubs[i].(muted := muted), t); }
    else if b < |s.buffered| {
      PubAdded(s.pubs, Pub(id, kind, muted, Some(s.buffered[b])), t);
      CutMembers(s.buffered, b, t);
    } else {
      PubAdded(s.pubs, Pub(id, kind, muted, None), t);
    }
    hide OnPub, IndexOf, BufferedIndex, Cut;
  }

  /** An arriving track is held afterwards, and so is every track held before. */
  lemma AttachKeepsTracks(s: Slot, t: Track, trackId: Option<string>, u: Track)
    ensures Holds(Attach(s, t, trackId), u) <==> Holds(s, u) || u == t
  {
    var named := if Truthy(trackId) then IndexOf(s.pubs, trackId.value) else |s.pubs|;
    var i := if named < |s.pubs| && s.pubs[named].track == None then named else FreeIndex(s.pubs, t.kind);
    if i < |s.pubs| { PubReplaced(s.pubs, i, s.pubs[i].(track := Some(t)), u); }
    hide OnPub, IndexOf, FreeIndex;
  }

  lemma AnnounceKnownKeepsInv(s: Slot, id: string, kind: Kind, muted: bool)
    requires SlotInv(s) && IndexOf(s.pubs, id) < |s.pubs|
    ensures SlotInv(Announce(s, id, kind, muted))
  {
  }

  lemma AnnounceNewKeepsInv(s: Slot, id: string, kind: Kind, muted: bool)
    requires SlotInv(s) && s.present && IndexOf(s.pubs, id) == |s.pubs|
    ensures SlotInv(Announce(s, id, kind, muted))
  {
    var s', b := Announce(s, id, kind, muted), BufferedIndex(s.buffered, kind);
    if b < |s.buffered| {
      hide IndexOf, BufferedIndex;
      assert s'.pubs[..|s.pubs|] == s.pubs && s'.pubs[|s.pubs|].track == Some(s.buffered[b]);
      assert s'.buffered == Cut(s.buffered, b);
      hide Cut;
      assert OnePlace(s');
    }
  }

  lemma AnnounceKeepsInv(s: Slot, id: string, kind: Kind, muted: bool)
    requires SlotInv(s) && s.present
    ensures SlotInv(Announce(s, id, kind, muted)) && Announce(s, id, kind, muted).present
    ensures forall t :: Holds(Announce(s, id, kind, muted), t) <==> Holds(s, t)
  {
    if IndexOf(s.pubs, id) < |s.pubs| { AnnounceKnownKeepsInv(s, id, kind, muted); }
    else { AnnounceNewKeepsInv(s, id, kind, muted); }
    hide SlotInv, Holds, IndexOf, BufferedIndex;
    forall t ensures Holds(Announce(s, id, kind, muted), t) <==> Holds(s, t) { AnnounceKeepsTracks(s, id, kind, muted, t); }
  }

  lemma RetractKeepsInv(s: Slot, id: string)
    requires SlotInv(s)
    ensures SlotInv(Retract(s, id))
    ensures forall t :: Holds(Retract(s, id), t) <==> Holds(s, t) && !OnOneOf(s.pubs, t, {id})
  {
    var i, s' := IndexOf(s.pubs, id), Retract(s, id);
    forall t ensures Holds(s', t) <==> Holds(s, t) && !OnOneOf(s.pubs, t, {id}) {
      if i < |s.pubs| { CutPub(s.pubs, i, t); }
    }
  }

  lemma CutPub(pubs: seq<Pub>, i: nat, t: Track)
    requires i < |pubs|
    ensures OnPub(Cut(pubs, i), t) <==> exists j :: 0 <= j < |pubs| && j != i && pubs[j].track == Some(t)
  {
    var r := Cut(pubs, i);
    if j: nat :| j < |pubs| && j != i && pubs[j].track == Some(t) { assert r[if j < i then j else j - 1] == pubs[j]; }
  }

  lemma AttachKeepsInv(s: Slot, t: Track, trackId: Option<string>)
    requires SlotInv(s) && !Holds(s, t)
    ensures SlotInv(Attach(s, t, trackId))
    ensures forall u :: Holds(Attach(s, t, trackId), u) <==> Holds(s, u) || u == t
  {
    AttachKeepsSlotInv(s, t, trackId);
    hide SlotInv, Holds, Attach;
    forall u ensures Holds(Attach(s, t, trackId), u) <==> Holds(s, u) || u == t { AttachKeepsTracks(s, t, trackId, u); }
  }

  lemma AttachKeepsSlotInv(s: Slot, t: Track, trackId: Option<string>)
    requires SlotInv(s) && !Holds(s, t)
    ensures SlotInv(Attach(s, t, trackId))
  {
  }

  lemma {:induction false} KeepListedIsPart(pubs: seq<Pub>, ids: set<string>)
    requires DistinctPubs(pubs)
    ensures var r := KeepListed(pubs, ids);
      && (forall p :: p in r <==> p in pubs && p.id in ids)
      && DistinctPubs(r)
  {
    if pubs != [] {
      var init, last := pubs[..|pubs| - 1], pubs[|pubs| - 1];
      assert pubs == init + [last];
      KeepListedIsPart(init, ids);
      var kept := KeepListed(init, ids);
      forall i | 0 <= i < |kept|
        ensures kept[i].id != last.id
      {
        assert kept[i] in init;
      }
    }
  }

  lemma KeepListedKeepsInv(s: Slot, ids: set<string>)
    requires SlotInv(s)
    ensures var s' := s.(pubs := KeepListed(s.pubs, ids)); 
      SlotInv(s') && forall t :: Holds(s', t) <==> t in s.buffered || OnOneOf(s.pubs, t, ids)
  {
    KeepListedIsPart(s.pubs, ids);
    var s' := s.(pubs := KeepListed(s.pubs, ids));
    forall i | 0 <= i < |s'.pubs|
      ensures s'.pubs[i] in s.pubs
    {
      assert s'.pubs[i] in s'.pubs;
    }
    forall i, j | 0 <= i < j < |s'.pubs| && s'.pubs[i].track.Some?
      ensures s'.pubs[i].track != s'.pubs[j].track
    {
      var a :| 0 <= a < |s.pubs| && s.pubs[a] == s'.pubs[i];
      var b :| 0 <= b < |s.pubs| && s.pubs[b] == s'.pubs[j];
    }
  }

  lemma {:induction false} AnnounceAllKeepsInv(s: Slot, tracks: seq<SnapTrack>)
    requires SlotInv(s) && s.present
    ensures SlotInv(AnnounceAll(s, tracks)) && AnnounceAll(s, tracks).present && AnnounceAll(s, tracks).name == s.name
    ensures forall t :: Holds(AnnounceAll(s, tracks), t) <==> Holds(s, t)
  {
    hide SlotInv, Holds, IndexOf, BufferedIndex;
    if tracks != [] {
      var t := tracks[|tracks| - 1];
      AnnounceAllKeepsInv(s, tracks[..|tracks| - 1]);
      AnnounceKeepsInv(AnnounceAll(s, tracks[..|tracks| - 1]), t.id, t.kind, t.muted);
    }
  }

  lemma EnsureKeepsInv(s: Slot, name: Option<string>)
    requires SlotInv(s)
    ensures SlotInv(Ensure(s, name)) && Ensure(s, name).present && forall t :: Holds(Ensure(s, name), t) <==> Holds(s, t)
  {
  }

  lemma ReconcileKeepsInv(s: Slot, d: Desired)
    requires SlotInv(s)
    ensures SlotInv(Reconcile(s, d)) && Reconcile(s, d).present
    ensures forall t :: Holds(Reconcile(s, d), t) <==>
      if d.tracks.None? then Holds(s, t) else t in s.buffered || OnOneOf(s.pubs, t, Listed(d.tracks.value))
  {
    var s1 := Ensure(s, d.name);
    EnsureKeepsInv(s, d.name);
    assert s1.buffered == s.buffered && s1.pubs == s.pubs;
    hide SlotInv, Holds, Ensure;
    if d.tracks.Some? {
      KeepListedKeepsInv(s1, Listed(d.tracks.value));
      AnnounceAllKeepsInv(s1.(pubs := KeepListed(s1.pubs, Listed(d.tracks.value))), d.tracks.value);
    }
  }

  // ------------------------------------------------------------------
  // room_joined: exactly the server's publications, and idempotent
  // ------------------------------------------------------------------

  function Ids(pubs: seq<Pub>): (r: set<string>) { set p | p in pubs :: p.id }

  lemma IdsOfMore(pubs: seq<Pub>, q: Pub)
    ensures Ids(pubs + [q]) == Ids(pubs) + {q.id}
  {
    assert forall p :: p in pubs + [q] <==> p in pubs || p == q;
  }

  lemma IdsOfUpdate(pubs: seq<Pub>, i: nat, q: Pub)
    requires i < |pubs| && q.id == pubs[i].id
    ensures Ids(pubs[i := q]) == Ids(pubs) && q.id in Ids(pubs)
  {
    var after := pubs[i := q];
    forall x ensures x in Ids(pubs) <==> x in Ids(after) {
      if x in Ids(pubs) {
        var k :| 0 <= k < |pubs| && pubs[k].id == x;
        assert after[k] in after;
      }
      if x in Ids(after) {
        var k :| 0 <= k < |after| && after[k].id == x;
        assert pubs[k] in pubs;
      }
    }
  }

  lemma ListedMore(tracks: seq<SnapTrack>, t: SnapTrack)
    ensures Listed(tracks + [t]) == Listed(tracks) + {t.id}
  {
    assert forall x :: x in tracks + [t] <==> x in tracks || x == t;
  }

  lemma AnnounceIds(s: Slot, id: string, kind: Kind, muted: bool)
    ensures Ids(Announce(s, id, kind, muted).pubs) == Ids(s.pubs) + {id}
  {
    var i, pubs := IndexOf(s.pubs, id), Announce(s, id, kind, muted).pubs;
    hide Ids;
    if i < |s.pubs| { IdsOfUpdate(s.pubs, i, pubs[i]); } else { IdsOfMore(s.pubs, pubs[|s.pubs|]); }
  }

  lemma {:induction false} AnnounceAllIds(s: Slot, tracks: seq<SnapTrack>)
    ensures Ids(AnnounceAll(s, tracks).pubs) == Ids(s.pubs) + Listed(tracks)
  {
    if tracks == [] {
      assert Listed(tracks) == {};
    } else {
      hide Announce, Ids, Listed;
      var init, t := tracks[..|tracks| - 1], tracks[|tracks| - 1];
      AnnounceAllIds(s, init);
      AnnounceIds(AnnounceAll(s, init), t.id, t.kind, t.muted);
      ListedMore(init, t);
      assert tracks == init + [t];
    }
  }

  /** The snapshot is authoritative: afterwards the participant has exactly the listed publications, muted
      as listed. */
  lemma ReconcileIsExact(s: Slot, d: Desired)
    requires SlotInv(s) && d.tracks.Some?
    ensures Ids(Reconcile(s, d).pubs) == Listed(d.tracks.value) && MutedAsListed(Reconcile(s, d).pubs, d.tracks.value)
  {
    var s1, ids := Ensure(s, d.name), Listed(d.tracks.value);
    EnsureKeepsInv(s, d.name);
    KeepListedIsPart(s1.pubs, ids);
    AnnounceAllIds(s1.(pubs := KeepListed(s1.pubs, ids)), d.tracks.value);
    AnnounceAllMutes(s1.(pubs := KeepListed(s1.pubs, ids)), d.tracks.value);
    hide AnnounceAll, KeepListed, Listed, Ids, MutedAsListed;
  }

  /** The mute state a publication ends with: the last one listed for it. */
  function LastMuted(tracks: seq<SnapTrack>, id: string, before: bool): (r: bool) {
    if tracks == [] then before
    else if tracks[|tracks| - 1].id == id then tracks[|tracks| - 1].muted
    else LastMuted(tracks[..|tracks| - 1], id, before)
  }

  ghost predicate MutedAsListed(pubs: seq<Pub>, tracks: seq<SnapTrack>) {
    forall i :: 0 <= i < |pubs| ==> pubs[i].muted == LastMuted(tracks, pubs[i].id, pubs[i].muted)
  }

  lemma {:induction false} LastMutedIsSettled(tracks: seq<SnapTrack>, id: string, before: bool, other: bool)
    ensures id in Listed(tracks) ==> LastMuted(tracks, id, before) == LastMuted(tracks, id, other)
    ensures id !in Listed(tracks) ==> LastMuted(tracks, id, before) == before
  {
    if tracks != [] {
      var init, t := tracks[..|tracks| - 1], tracks[|tracks| - 1];
      assert tracks == init + [t];
      ListedMore(init, t);
      hide Listed;
      LastMutedIsSettled(init, id, before, other);
    }
  }

  /** Announcing known publications again only sets their mute states. */
  lemma {:induction false} AnnounceAllKnown(s: Slot, tracks: seq<SnapTrack>)
    requires DistinctPubs(s.pubs) && Listed(tracks) <= Ids(s.pubs)
    ensures var s' := AnnounceAll(s, tracks);
      && s' == s.(pubs := s'.pubs) && |s'.pubs| == |s.pubs|
      && forall i :: 0 <= i < |s.pubs| ==> s'.pubs[i] == s.pubs[i].(muted := LastMuted(tracks, s.pubs[i].id, s.pubs[i].muted))
  {
    if tracks != [] {
      var init, t := tracks[..|tracks| - 1], tracks[|tracks| - 1];
      assert tracks == init + [t];
      ListedMore(init, t);
      hide Listed;
      AnnounceAllKnown(s, init);
      var s1 := AnnounceAll(s, init);
      var i := IndexOf(s1.pubs, t.id);
      assert t.id in Ids(s.pubs);
      var k :| 0 <= k < |s.pubs| && s.pubs[k].id == t.id;
      assert s1.pubs[k].id == t.id;
      assert i == k;
    }
  }

  lemma {:induction false} AnnounceAllMutes(s: Slot, tracks: seq<SnapTrack>)
    requires DistinctPubs(s.pubs)
    ensures DistinctPubs(AnnounceAll(s, tracks).pubs) && MutedAsListed(AnnounceAll(s, tracks).pubs, tracks)
  {
    if tracks != [] {
      var init, t := tracks[..|tracks| - 1], tracks[|tracks| - 1];
      AnnounceAllMutes(s, init);
      var s1, s2 := AnnounceAll(s, init), AnnounceAll(s, tracks);
      forall i | 0 <= i < |s2.pubs|
        ensures s2.pubs[i].muted == LastMuted(tracks, s2.pubs[i].id, s2.pubs[i].muted)
      {
        if s2.pubs[i].id != t.id { assert s2.pubs[i] == s1.pubs[i]; }
      }
    }
  }

  lemma AnnounceAllSettled(r: Slot, tracks: seq<SnapTrack>)
    requires DistinctPubs(r.pubs) && Ids(r.pubs) == Listed(tracks) && MutedAsListed(r.pubs, tracks)
    ensures AnnounceAll(r, tracks) == r
  {
    AnnounceAllKnown(r, tracks);
    hide AnnounceAll, Listed, Ids, DistinctPubs, LastMuted;
    assert AnnounceAll(r, tracks).pubs == r.pubs;
  }

  lemma {:induction false} KeepAll(pubs: seq<Pub>, ids: set<string>)
    requires Ids(pubs) <= ids
    ensures KeepListed(pubs, ids) == pubs
  {
    if pubs != [] {
      var init, last := pubs[..|pubs| - 1], pubs[|pubs| - 1];
      IdsOfMore(init, last);
      assert pubs == init + [last];
      KeepAll(init, ids);
    }
  }

  /** A slot that already is what the entry asks for stays as it is. */
  lemma SettledStays(r: Slot, d: Desired)
    requires r.present && Ensure(r, d.name) == r && DistinctPubs(r.pubs) && d.tracks.Some?
    requires Ids(r.pubs) == Listed(d.tracks.value) && MutedAsListed(r.pubs, d.tracks.value)
    ensures Reconcile(r, d) == r
  {
    KeepAll(r.pubs, Ids(r.pubs));
    AnnounceAllSettled(r, d.tracks.value);
    hide AnnounceAll, KeepListed, Ids, Listed, DistinctPubs, MutedAsListed;
  }

  /** Applying the same room_joined entry again changes nothing. */
  lemma ReconcileIsIdempotent(s: Slot, d: Desired)
    requires SlotInv(s)
    ensures Reconcile(Reconcile(s, d), d) == Reconcile(s, d)
  {
    if d.tracks.Some? {
      var s1, tracks := Ensure(s, d.name), d.tracks.value;
      var s2 := s1.(pubs := KeepListed(s1.pubs, Listed(tracks)));
      EnsureKeepsInv(s, d.name);
      KeepListedKeepsInv(s1, Listed(tracks));
      AnnounceAllKeepsInv(s2, tracks);
      ReconcileIsExact(s, d);
      AnnounceAllMutes(s2, tracks);
      hide AnnounceAll, KeepListed, Holds, Maximal, OnePlace, MutedAsListed, Listed, Ids, DistinctPubs;
      SettledStays(Reconcile(s, d), d);
    }
  }

  // ------------------------------------------------------------------
  // Where things go
  // ------------------------------------------------------------------

  /** Nothing about a publication changes but its track. */
  ghost predicate OnlyTracks(pubs: seq<Pub>, after: seq<Pub>) {
    |after| == |pubs| && forall i :: 0 <= i < |pubs| ==> after[i] == pubs[i].(track := after[i].track)
  }

  /** An arriving track goes to the publication its id names if that one is free; failing that to the first
      free publication of its kind; failing that it waits at the end of the buffer. */
  lemma AttachPlaces(s: Slot, t: Track, trackId: Option<string>, i: nat)
    requires SlotInv(s) && i < |s.pubs|
    ensures var s' := Attach(s, t, trackId);
      var named := trackId.Some? && trackId.value != "" && s.pubs[i].id == trackId.value && s.pubs[i].track == None;
      var noneNamed := forall j :: 0 <= j < |s.pubs| ==> !(trackId.Some? && trackId.value != "" && s.pubs[j].id == trackId.value && s.pubs[j].track == None);
      var firstFree := s.pubs[i].track == None && s.pubs[i].kind == t.kind && forall j :: 0 <= j < i ==> s.pubs[j].track != None || s.pubs[j].kind != t.kind;
      && OnlyTracks(s.pubs, s'.pubs) && s'.present == s.present && s'.name == s.name
      && s'.pubs[i].track == (if named || (noneNamed && firstFree) then Some(t) else s.pubs[i].track)
      && (named || (noneNamed && firstFree) ==> s'.buffered == s.buffered)
  {
    hide Maximal, OnePlace;
  }

  lemma AttachBuffers(s: Slot, t: Track, trackId: Option<string>)
    requires SlotInv(s)
    requires forall i :: 0 <= i < |s.pubs| ==>
      || s.pubs[i].track != None
      || (s.pubs[i].kind != t.kind && !(trackId.Some? && trackId.value != "" && s.pubs[i].id == trackId.value))
    ensures Attach(s, t, trackId) == s.(buffered := s.buffered + [t])
  {
    hide Maximal, OnePlace;
  }

  /** An announced publication is there afterwards with the announced mute state. A new one comes last,
      with the announced kind and the first waiting track of that kind; a known one keeps kind and track. */
  lemma AnnouncePlaces(s: Slot, id: string, kind: Kind, muted: bool)
    requires DistinctPubs(s.pubs)
    ensures var s' := Announce(s, id, kind, muted);
      && s'.present == s.present && s'.name == s.name
      && (forall i :: 0 <= i < |s.pubs| ==> s'.pubs[i] == if s.pubs[i].id == id then s.pubs[i].(muted := muted) else s.pubs[i])
      && (id in Ids(s.pubs) ==> |s'.pubs| == |s.pubs| && s'.buffered == s.buffered)
      && (id !in Ids(s.pubs) ==> |s'.pubs| == |s.pubs| + 1 && var p := s'.pubs[|s.pubs|];
            p.id == id && p.kind == kind && p.muted == muted
            && (p.track == None <==> forall t :: t in s.buffered ==> t.kind != kind)
            && (p.track.Some? ==> FirstOf(s.buffered, kind, p.track.value)))
  {
    var i := IndexOf(s.pubs, id);
    if i < |s.pubs| { assert s.pubs[i] in s.pubs; }
    var b := BufferedIndex(s.buffered, kind);
    if b < |s.buffered| { assert s.buffered[b] in s.buffered && FirstAt(s.buffered, kind, b); }
    assert forall t :: t in s.buffered ==> exists j :: 0 <= j < |s.buffered| && s.buffered[j] == t;
  }

  predicate FirstAt(buffered: seq<Track>, kind: Kind, b: nat) {
    b < |buffered| && buffered[b].kind == kind && forall j :: 0 <= j < b ==> buffered[j].kind != kind
  }

  /** The first waiting track of a kind. */
  ghost predicate FirstOf(buffered: seq<Track>, kind: Kind, t: Track) {
    exists b: nat :: FirstAt(buffered, kind, b) && buffered[b] == t
  }

  /** A retracted publication is gone and no other; clearing leaves every publication as it was but for
      its track; a participant keeps its first known name, and comes and goes with its publications. */
  lemma OtherPlaces(s: Slot, id: string, name: Option<string>)
    requires SlotInv(s)
    ensures Ids(Retract(s, id).pubs) == Ids(s.pubs) - {id} && Retract(s, id).buffered == s.buffered
    ensures OnlyTracks(s.pubs, ClearTracks(s).pubs) && ClearTracks(s).present == s.present && ClearTracks(s).name == s.name
    ensures Depart(s) == Slot(false, None, [], s.buffered)
    ensures !s.present ==> Ensure(s, name) == Slot(true, name, [], s.buffered)
    ensures s.present && s.name.Some? && s.name.value != "" ==> Ensure(s, name) == s
    ensures s.present && (s.name == None || s.name == Some("")) ==>
      Ensure(s, name) == if name.Some? && name.value != "" then s.(name := name) else s
  {
    RetractIds(s.pubs, id);
  }

  lemma CutIds(pubs: seq<Pub>, i: nat)
    requires DistinctPubs(pubs) && i < |pubs|
    ensures Ids(Cut(pubs, i)) == Ids(pubs) - {pubs[i].id}
  {
    var after := Cut(pubs, i);
    hide Cut;
    forall p ensures p in after <==> p in pubs && p.id != pubs[i].id {
      if p in pubs && p.id != pubs[i].id {
        var j: nat :| j < |pubs| && pubs[j] == p;
        assert after[if j < i then j else j - 1] == p;
      }
    }
  }

  lemma RetractIds(pubs: seq<Pub>, id: string)
    requires DistinctPubs(pubs)
    ensures var i := IndexOf(pubs, id); Ids(if i < |pubs| then Cut(pubs, i) else pubs) == Ids(pubs) - {id}
  {
    var i := IndexOf(pubs, id);
    if i < |pubs| { CutIds(pubs, i); }
    hide IndexOf, Cut;
  }
}
