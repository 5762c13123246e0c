/** Logical sessions on one node: a table keyed by the physical participant id and an index from
    (identity, room) to the current primary, with generation fencing on resume. */
module Sessions {

  datatype Phase = Connected | Recovering(since: int)

  datatype Session = Session(
    sid: string, logical: string, room: string, node: string, generation: nat, phase: Phase)

  /** Sessions that were closed are simply no longer in `byPhys`. */
  datatype Registry = Registry(byPhys: map<string, Session>, primary: map<string, string>)

  datatype Claim = Claim(sid: string, generation: nat)

  datatype OpenResult =
    | Opened(session: Session, kick: set<string>, reconnected: bool)
    | StaleSession

  // ------------------------------------------------------------------
  // The index key
  // ------------------------------------------------------------------

  function Key(logical: string, room: string): (k: string) { logical + ['\0'] + room }

  function KeyOf(s: Session): (k: string) { Key(s.logical, s.room) }

  predicate NulFree(s: string) { '\0' !in s }

  lemma KeyIsInjective(a: string, r: string, b: string, q: string)
    requires NulFree(a) && NulFree(b) && Key(a, r) == Key(b, q)
    ensures a == b && r == q
  {
    var k := Key(a, r);
    assert k[|a|] == '\0' && k[|b|] == '\0';
    assert forall i :: 0 <= i < |a| ==> k[i] == a[i] && a[i] in a;
    assert forall i :: 0 <= i < |b| ==> k[i] == b[i] && b[i] in b;
    assert k[..|a|] == a && k[..|b|] == b && k[|a| + 1..] == r && k[|b| + 1..] == q;
  }

  ghost predicate ShareKey(a: string, b: string) { exists r, q :: Key(a, r) == Key(b, q) }

  /** Two identities can share an index entry exactly when they are the same or one continues the
      other past a NUL. */
  lemma KeysCollideExactly(a: string, b: string)
    ensures ShareKey(a, b) <==> a == b || a + ['\0'] <= b || b + ['\0'] <= a
  {
    if ShareKey(a, b) {
      var r, q :| Key(a, r) == Key(b, q);
      if |a| < |b| { PrefixOfKey(a, r, b, q); } else if |b| < |a| { PrefixOfKey(b, q, a, r); }
      else { assert Key(a, r)[..|a|] == a && Key(b, q)[..|b|] == b; }
    } else {
      assert Key(a, "") == Key(b, "") ==> a != b;
      if a + ['\0'] <= b { Continues(a, b); }
      if b + ['\0'] <= a { Continues(b, a); }
    }
  }

  lemma PrefixOfKey(a: string, r: string, b: string, q: string)
    requires Key(a, r) == Key(b, q) && |a| < |b|
    ensures a + ['\0'] <= b
  {
    assert Key(a, r)[..|a| + 1] == a + ['\0'] && Key(b, q)[..|b|] == b;
    assert Key(b, q)[..|b|][..|a| + 1] == Key(b, q)[..|a| + 1];
  }

  lemma Continues(a: string, b: string)
    requires a + ['\0'] <= b
    ensures ShareKey(a, b) && ShareKey(b, a)
  {
    var r := b[|a| + 1..] + ['\0'];
    assert Key(a, r) == Key(b, "");
  }

  // ------------------------------------------------------------------
  // Operations on values
  // ------------------------------------------------------------------

  function OpenFresh(r: Registry, logical: string, room: string, phys: string, node: string, sid: string): (r': (Registry, OpenResult)) {
    var s := Session(sid, logical, room, node, 1, Connected);
    (Registry(r.byPhys[phys := s], r.primary[Key(logical, room) := phys]), Opened(s, {}, false))
  }

  predicate Accepts(r: Registry, logical: string, room: string, claim: Claim) {
    var key := Key(logical, room);
    && key in r.primary && r.primary[key] in r.byPhys
    && var prev := r.byPhys[r.primary[key]];
       prev.sid == claim.sid && (claim.generation == 0 || claim.generation >= prev.generation)
  }

  /** A resume advances the generation and re-binds the session to the new connection. */
  function Resume(r: Registry, logical: string, room: string, phys: string, node: string, claim: Claim): (r': (Registry, OpenResult)) {
    if !Accepts(r, logical, room, claim) then (r, StaleSession)
    else
      var key := Key(logical, room);
      var prevPhys := r.primary[key];
      var prev := r.byPhys[prevPhys];
      var s := prev.(generation := prev.generation + 1, node := node, phase := Connected);
      (Registry((r.byPhys - {prevPhys})[phys := s], r.primary[key := phys]),
       Opened(s, if prev.phase == Connected && prevPhys != phys then {prevPhys} else {}, true))
  }

  function MarkRecovering(r: Registry, phys: string, now: int): (r': Registry) {
    if phys !in r.byPhys then r
    else r.(byPhys := r.byPhys[phys := r.byPhys[phys].(phase := Recovering(now))])
  }

  function Close(r: Registry, logical: string, room: string, phys: string): (r': Registry) {
    if phys !in r.byPhys then r
    else
      var key := Key(logical, room);
      Registry(r.byPhys - {phys},
               if key in r.primary && r.primary[key] == phys then r.primary - {key} else r.primary)
  }

  predicate Expired(s: Session, cutoff: int) { s.phase.Recovering? && s.phase.since < cutoff }

  function Sweep(r: Registry, cutoff: int): (r': Registry) {
    Without(r, ExpiredIn(r, cutoff))
  }

  function ExpiredIn(r: Registry, cutoff: int): (res: set<string>) {
    set phys | phys in r.byPhys && Expired(r.byPhys[phys], cutoff)
  }

  /** One session leaves, with the index entry that is its own. */
  function Drop(r: Registry, phys: string): (r': Registry)
    requires phys in r.byPhys
  {
    var key := KeyOf(r.byPhys[phys]);
    Registry(r.byPhys - {phys}, if key in r.primary && r.primary[key] == phys then r.primary - {key} else r.primary)
  }

  /** The registry without some sessions, and without the index entries that point at them. */
  function Without(r: Registry, gone: set<string>): (r': Registry)
    requires gone <= r.byPhys.Keys
  {
    Registry(r.byPhys - gone, map key | key in r.primary && !PointsInto(r, key, gone) :: r.primary[key])
  }

  predicate PointsInto(r: Registry, key: string, gone: set<string>)
    requires gone <= r.byPhys.Keys && key in r.primary
  {
    r.primary[key] in gone && KeyOf(r.byPhys[r.primary[key]]) == key
  }

  /** Dropping one expired session first leaves the same registry in the end. */
  lemma DropThenSweep(r: Registry, phys: string, cutoff: int)
    requires phys in r.byPhys && Expired(r.byPhys[phys], cutoff)
    ensures Sweep(Drop(r, phys), cutoff) == Sweep(r, cutoff)
    ensures |ExpiredIn(Drop(r, phys), cutoff)| == |ExpiredIn(r, cutoff)| - 1
  {
    var d := Drop(r, phys);
    assert ExpiredIn(d, cutoff) == ExpiredIn(r, cutoff) - {phys};
    var a, b := Sweep(d, cutoff), Sweep(r, cutoff);
    assert a.byPhys == b.byPhys;
    assert a.primary.Keys == b.primary.Keys;
    assert a.primary == b.primary;
  }

  /** Exactly the sessions parked since before the cutoff are gone, each with the entry that is its own. */
  ghost predicate Swept(before: Registry, after: Registry, cutoff: int) {
    && (forall p :: p in after.byPhys <==>
          p in before.byPhys && !(before.byPhys[p].phase.Recovering? && before.byPhys[p].phase.since < cutoff))
    && (forall p :: p in after.byPhys ==> after.byPhys[p] == before.byPhys[p])
    && (forall key :: key in after.primary <==>
          key in before.primary && !(before.primary[key] in before.byPhys && before.primary[key] !in after.byPhys
                                     && Key(before.byPhys[before.primary[key]].logical, before.byPhys[before.primary[key]].room) == key))
    && (forall key :: key in after.primary ==> after.primary[key] == before.primary[key])
  }

  lemma SweepIsExact(r: Registry, cutoff: int)
    ensures Swept(r, Sweep(r, cutoff), cutoff)
  {
  }

  lemma NothingToSweep(r: Registry, cutoff: int)
    requires forall phys :: phys in r.byPhys ==> !Expired(r.byPhys[phys], cutoff)
    ensures ExpiredIn(r, cutoff) == {} && Sweep(r, cutoff) == r
  {
    assert ExpiredIn(r, cutoff) == {};
    assert Sweep(r, cutoff).primary == r.primary;
  }

  // ------------------------------------------------------------------
  // The registry object
  // ------------------------------------------------------------------

  class SessionRegistry {
    const recoveryTimeout: int
    var byPhys: map<string, Session>
    var primary: map<string, string>

    ghost function State(): (r: Registry)
      reads this
    {
      Registry(byPhys, primary)
    }

    constructor (recoveryTimeout: int)
      ensures State() == Registry(map[], map[]) && this.recoveryTimeout == recoveryTimeout
    {
      this.recoveryTimeout := recoveryTimeout;
      byPhys, primary := map[], map[];
    }

    method Open(logical: string, room: string, phys: string, node: string, sid: string) returns (res: OpenResult)
      modifies this
      ensures (State(), res) == OpenFresh(old(State()), logical, room, phys, node, sid)
      ensures res.Opened? && res.kick == {} && !res.reconnected
      ensures byPhys == old(byPhys)[phys := Session(sid, logical, room, node, 1, Connected)] && primary == old(primary)[Key(logical, room) := phys]
    {
      var s := Session(sid, logical, room, node, 1, Connected);
      byPhys := byPhys[phys := s];
      primary := primary[Key(logical, room) := phys];
      return Opened(s, {}, false);
    }

    method OpenResuming(logical: string, room: string, phys: string, node: string, claim: Claim) returns (res: OpenResult)
      modifies this
      ensures (State(), res) == Resume(old(State()), logical, room, phys, node, claim)
      ensures res.Opened? <==> var key := Key(logical, room);
        && key in old(primary) && old(primary)[key] in old(byPhys)
        && var prev := old(byPhys)[old(primary)[key]]; prev.sid == claim.sid && (claim.generation == 0 || claim.generation >= prev.generation)
      ensures res.Opened? ==> forall p :: p in res.kick <==> p in old(byPhys) && old(byPhys)[p].phase.Connected? && p !in byPhys
      ensures res.Opened? ==> var key := Key(logical, room); var prevPhys := old(primary)[key]; var prev := old(byPhys)[prevPhys];
        && res.session == prev.(generation := prev.generation + 1, node := node, phase := Connected) && res.reconnected
        && primary == old(primary)[key := phys] && phys in byPhys && byPhys[phys] == res.session
        && forall p :: p != phys ==> (p in byPhys <==> p in old(byPhys) && p != prevPhys) && (p in byPhys ==> byPhys[p] == old(byPhys)[p])
      ensures res.StaleSession? ==> State() == old(State())
    {
      var key := Key(logical, room);
      if key !in primary || primary[key] !in byPhys { return StaleSession; }
      var prevPhys := primary[key];
      var prev := byPhys[prevPhys];
      if prev.sid != claim.sid { return StaleSession; }
      if claim.generation != 0 && claim.generation < prev.generation { return StaleSession; }
      var kick := {};
      if prev.phase == Connected && prevPhys != phys { kick := {prevPhys}; }
      byPhys := byPhys - {prevPhys};
      prev := prev.(generation := prev.generation + 1, node := node, phase := Connected);
      byPhys := byPhys[phys := prev];
      primary := primary[key := phys];
      return Opened(prev, kick, true);
    }

    method Park(phys: string, now: int) returns (parked: bool)
      modifies this
      ensures State() == MarkRecovering(old(State()), phys, now) && parked == (phys in old(byPhys))
      ensures primary == old(primary)
      ensures byPhys == if parked then old(byPhys)[phys := old(byPhys)[phys].(phase := Recovering(now))] else old(byPhys)
    {
      if phys !in byPhys { return false; }
      byPhys := byPhys[phys := byPhys[phys].(phase := Recovering(now))];
      return true;
    }

    method CloseSession(logical: string, room: string, phys: string)
      modifies this
      ensures State() == Close(old(State()), logical, room, phys)
      ensures byPhys == old(byPhys) - {phys}
      ensures forall key :: key in primary <==>
        key in old(primary) && !(phys in old(byPhys) && key == Key(logical, room) && old(primary)[key] == phys)
      ensures forall key :: key in primary ==> primary[key] == old(primary)[key]
    {
      if phys !in byPhys { return; }
      byPhys := byPhys - {phys};
      var key := Key(logical, room);
      if key in primary && primary[key] == phys {
        primary := primary - {key};
      }
    }

    method DropSession(phys: string)
      requires phys in byPhys
      modifies this
      ensures State() == Drop(old(State()), phys)
    {
      var s := byPhys[phys];
      byPhys := byPhys - {phys};
      if KeyOf(s) in primary && primary[KeyOf(s)] == phys {
        primary := primary - {KeyOf(s)};
      }
    }

    /** Closes the sessions parked since before the cutoff, in whatever order the table yields them. */
    method SweepBefore(cutoff: int) returns (n: nat)
      modifies this
      ensures State() == Sweep(old(State()), cutoff)
      ensures n == |ExpiredIn(old(State()), cutoff)|
      ensures Swept(old(State()), State(), cutoff)
    {
      SweepIsExact(State(), cutoff);
      n := 0;
      var todo := byPhys.Keys;
      while todo != {}
        invariant Sweep(State(), cutoff) == Sweep(old(State()), cutoff)
        invariant n + |ExpiredIn(State(), cutoff)| == |ExpiredIn(old(State()), cutoff)|
        invariant todo <= byPhys.Keys && forall p :: p in byPhys && p !in todo ==> !Expired(byPhys[p], cutoff)
        decreases todo
      {
        var phys :| phys in todo;
        todo := todo - {phys};
        if Expired(byPhys[phys], cutoff) {
          DropThenSweep(State(), phys, cutoff);
          DropSession(phys);
          n := n + 1;
        }
      }
      NothingToSweep(State(), cutoff);
    }

    method SweepExpired(now: int) returns (n: nat)
      modifies this
      ensures recoveryTimeout <= 0 ==> State() == old(State()) && n == 0
      ensures recoveryTimeout > 0 ==> State() == Sweep(old(State()), now - recoveryTimeout)
      ensures recoveryTimeout > 0 ==> n == |ExpiredIn(old(State()), now - recoveryTimeout)|
      ensures recoveryTimeout > 0 ==> Swept(old(State()), State(), now - recoveryTimeout) && n == |old(byPhys)| - |byPhys|
    {
      if recoveryTimeout <= 0 { return 0; }
      n := SweepBefore(now - recoveryTimeout);
      assert byPhys.Keys == old(byPhys).Keys - ExpiredIn(old(State()), now - recoveryTimeout);
    }
  }
}
