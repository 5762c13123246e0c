/** Every run of the session registry: connections open, resume, drop, close and expire in any
    order. Physical ids and session ids are fresh, as UUIDs are. */
module SessionRuns {
  import opened Sessions

  /** `issued` holds the pairs handed to clients so far, and `accepted` a pair once for every
      resume that presented it after it was issued and succeeded. `kicked` is the physical ids the
      registry has asked to be disconnected. */
  datatype World = World(
    reg: Registry, physUsed: set<string>, sidsUsed: set<string>, issued: set<Claim>, accepted: multiset<Claim>, kicked: set<string>)

  datatype Step =
    | Connect(logical: string, room: string, phys: string, node: string, sid: string)
    | Reconnect(logical: string, room: string, phys: string, node: string, claim: Claim)
    | Drops(phys: string, now: int)
    | Leaves(logical: string, room: string, phys: string)
    | Sweeps(cutoff: int)

  function Initial(): (r: World) { World(Registry(map[], map[]), {}, {}, {}, multiset{}, {}) }

  function Next(w: World, step: Step): (w': World) {
    match step
    case Connect(logical, room, phys, node, sid) =>
      if phys in w.physUsed || sid in w.sidsUsed then w
      else World(OpenFresh(w.reg, logical, room, phys, node, sid).0, w.physUsed + {phys}, w.sidsUsed + {sid},
                 w.issued + {Claim(sid, 1)}, w.accepted, w.kicked)
    case Reconnect(logical, room, phys, node, claim) =>
      if phys in w.physUsed then w
      else
        var (reg, res) := Resume(w.reg, logical, room, phys, node, claim);
        if res.StaleSession? then w.(physUsed := w.physUsed + {phys})
        else World(reg, w.physUsed + {phys}, w.sidsUsed, w.issued + {Claim(claim.sid, res.session.generation)},
                   if claim in w.issued then w.accepted + multiset{claim} else w.accepted, w.kicked + res.kick)
    case Drops(phys, now) => w.(reg := MarkRecovering(w.reg, phys, now))
    case Leaves(logical, room, phys) => w.(reg := Close(w.reg, logical, room, phys))
    case Sweeps(cutoff) => w.(reg := Sweep(w.reg, cutoff))
  }

  function Run(w: World, steps: seq<Step>): (w': World)
    decreases |steps|
  {
    if steps == [] then w else Run(Next(w, steps[0]), steps[1..])
  }

  // ------------------------------------------------------------------
  // At most one resume per issued pair
  // ------------------------------------------------------------------

  ghost predicate Known(w: World) {
    && (forall p :: p in w.reg.byPhys ==> p in w.physUsed && w.reg.byPhys[p].sid in w.sidsUsed)
    && (forall k :: k in w.reg.primary ==> w.reg.primary[k] in w.physUsed)
    && (forall c :: c in w.issued || c in w.accepted ==> c.sid in w.sidsUsed)
  }

  ghost predicate OneHolder(w: World) {
    forall p, q :: p in w.reg.byPhys && q in w.reg.byPhys && p != q ==> w.reg.byPhys[p].sid != w.reg.byPhys[q].sid
  }

  /** An issued generation is at least 1 and not above the session's; an accepted one is below it. */
  ghost predicate Fenced(w: World) {
    && (forall c :: c in w.issued ==> c.generation >= 1)
    && (forall c, p :: c in w.issued && p in w.reg.byPhys && w.reg.byPhys[p].sid == c.sid ==> c.generation <= w.reg.byPhys[p].generation)
    && (forall c, p :: c in w.accepted && p in w.reg.byPhys && w.reg.byPhys[p].sid == c.sid ==> c.generation < w.reg.byPhys[p].generation)
  }

  ghost predicate Inv(w: World) {
    Known(w) && OneHolder(w) && Fenced(w) && (forall c :: w.accepted[c] <= 1)
  }

  lemma ConnectKeepsInv(w: World, step: Step)
    requires Inv(w) && step.Connect?
    ensures Inv(Next(w, step))
  {
  }

  /** An accepted resume moves one session to the new connection, one generation up, and leaves the rest. */
  lemma ResumeMovesOne(w: World, step: Step)
    requires Inv(w) && step.Reconnect? && step.phys !in w.physUsed && Accepts(w.reg, step.logical, step.room, step.claim)
    ensures var old', new' := w.reg.byPhys, Next(w, step).reg.byPhys;
      var from := w.reg.primary[Key(step.logical, step.room)];
      && from in old' && step.phys in new' && new'.Keys == old'.Keys - {from} + {step.phys}
      && new'[step.phys].sid == old'[from].sid == step.claim.sid
      && new'[step.phys].generation == old'[from].generation + 1
      && (step.claim.generation == 0 || step.claim.generation >= old'[from].generation)
      && (forall p :: p in new' && p != step.phys ==> p in old' && new'[p] == old'[p] && old'[p].sid != step.claim.sid)
  {
  }

  lemma ReconnectKeepsInv(w: World, step: Step)
    requires Inv(w) && step.Reconnect?
    ensures Inv(Next(w, step))
  {
    if Accepts(w.reg, step.logical, step.room, step.claim) && step.phys !in w.physUsed {
      ResumeMovesOne(w, step);
      ReconnectKeepsFenced(w, step);
      var w' := Next(w, step);
      assert Known(w');
      assert OneHolder(w');
      if step.claim in w.issued {
        assert step.claim !in w.accepted;
      }
    }
  }

  lemma ReconnectKeepsFenced(w: World, step: Step)
    requires Inv(w) && step.Reconnect? && step.phys !in w.physUsed && Accepts(w.reg, step.logical, step.room, step.claim)
    ensures Fenced(Next(w, step))
  {
    ResumeMovesOne(w, step);
  }

  lemma OthersKeepInv(w: World, step: Step)
    requires Inv(w) && (step.Drops? || step.Leaves? || step.Sweeps?)
    ensures Inv(Next(w, step))
  {
  }

  lemma StepKeepsInv(w: World, step: Step)
    requires Inv(w)
    ensures Inv(Next(w, step))
  {
    match step {
      case Connect(_, _, _, _, _) => ConnectKeepsInv(w, step);
      case Reconnect(_, _, _, _, _) => ReconnectKeepsInv(w, step);
      case _ => OthersKeepInv(w, step);
    }
  }

  lemma {:induction false} RunKeepsInv(w: World, steps: seq<Step>)
    requires Inv(w)
    ensures Inv(Run(w, steps))
    decreases |steps|
  {
    if steps != [] {
      StepKeepsInv(w, steps[0]);
      RunKeepsInv(Next(w, steps[0]), steps[1..]);
    }
  }

  /** In any run, once a (session, generation) pair has been issued it is accepted at most once, and
      after that no resume with it can succeed. */
  lemma ResumesAtMostOnce(steps: seq<Step>, c: Claim)
    ensures var w := Run(Initial(), steps);
      && w.accepted[c] <= 1
      && (c in w.accepted && c in w.issued ==> forall logical, room :: !Accepts(w.reg, logical, room, c))
  {
    RunKeepsInv(Initial(), steps);
  }

  /** The session has gone past this generation, wherever it is. */
  ghost predicate Outrun(w: World, c: Claim) {
    && c.sid in w.sidsUsed && c.generation >= 1
    && forall p :: p in w.reg.byPhys && w.reg.byPhys[p].sid == c.sid ==> c.generation < w.reg.byPhys[p].generation
  }

  lemma StepKeepsOutrun(w: World, step: Step, c: Claim)
    requires Inv(w) && Outrun(w, c)
    ensures Outrun(Next(w, step), c)
  {
    if step.Reconnect? && step.phys !in w.physUsed && Accepts(w.reg, step.logical, step.room, step.claim) {
      ResumeMovesOne(w, step);
      hide Inv;
    }
  }

  lemma {:induction false} RunKeepsOutrun(w: World, steps: seq<Step>, c: Claim)
    requires Inv(w) && Outrun(w, c)
    ensures Outrun(Run(w, steps), c)
    decreases |steps|
  {
    hide Inv, Outrun, Next;
    if steps != [] {
      StepKeepsInv(w, steps[0]);
      StepKeepsOutrun(w, steps[0], c);
      RunKeepsOutrun(Next(w, steps[0]), steps[1..], c);
    }
  }

  ghost predicate AcceptedLater(w: World, rest: seq<Step>, logical: string, room: string, c: Claim) {
    Accepts(Run(w, rest).reg, logical, room, c)
  }

  /** The fence has two holes, both in the test itself: a claim that has just been accepted can be
      accepted again in some later run exactly when its generation was 0, which is never compared, or
      above the session's, and so not issued yet. */
  lemma RepeatsExactly(steps: seq<Step>, logical: string, room: string, phys: string, node: string, c: Claim)
    requires var w := Run(Initial(), steps); phys !in w.physUsed && Accepts(w.reg, logical, room, c)
    ensures var w := Run(Initial(), steps); var w' := Next(w, Reconnect(logical, room, phys, node, c));
      (exists rest, l, q :: AcceptedLater(w', rest, l, q, c)) <==>
        c.generation == 0 || c.generation > w.reg.byPhys[w.reg.primary[Key(logical, room)]].generation
  {
    var w, step := Run(Initial(), steps), Reconnect(logical, room, phys, node, c);
    RunKeepsInv(Initial(), steps);
    hide Inv, Next, Run, AcceptedLater;
    if c.generation == 0 || c.generation > w.reg.byPhys[w.reg.primary[Key(logical, room)]].generation {
      AcceptedAgain(w, step);
      assert AcceptedLater(Next(w, step), [], logical, room, c);
    } else {
      forall rest, l, q ensures !AcceptedLater(Next(w, step), rest, l, q, c) { NeverAgain(w, step, rest, l, q); }
    }
  }

  lemma AcceptedAgain(w: World, step: Step)
    requires step.Reconnect? && step.phys !in w.physUsed && Accepts(w.reg, step.logical, step.room, step.claim)
    requires step.claim.generation == 0 || step.claim.generation > w.reg.byPhys[w.reg.primary[Key(step.logical, step.room)]].generation
    ensures AcceptedLater(Next(w, step), [], step.logical, step.room, step.claim)
  {
    assert Run(Next(w, step), []) == Next(w, step);
  }

  lemma NeverAgain(w: World, step: Step, rest: seq<Step>, logical: string, room: string)
    requires Inv(w) && step.Reconnect? && step.phys !in w.physUsed && Accepts(w.reg, step.logical, step.room, step.claim)
    requires step.claim.generation == w.reg.byPhys[w.reg.primary[Key(step.logical, step.room)]].generation >= 1
    ensures !AcceptedLater(Next(w, step), rest, logical, room, step.claim)
  {
    StepKeepsInv(w, step);
    AcceptedIsUsed(w, step);
    RunKeepsOutrun(Next(w, step), rest, step.claim);
    hide Run, Next, Inv;
  }

  lemma AcceptedIsUsed(w: World, step: Step)
    requires Inv(w) && step.Reconnect? && step.phys !in w.physUsed && Accepts(w.reg, step.logical, step.room, step.claim)
    requires step.claim.generation == w.reg.byPhys[w.reg.primary[Key(step.logical, step.room)]].generation >= 1
    ensures Outrun(Next(w, step), step.claim)
  {
    ResumeMovesOne(w, step);
  }

  // ------------------------------------------------------------------
  // Closed and superseded sessions stay gone
  // ------------------------------------------------------------------

  ghost predicate Resumable(r: Registry, sid: string) {
    exists key :: key in r.primary && r.primary[key] in r.byPhys && r.byPhys[r.primary[key]].sid == sid
  }

  lemma StepRevivesNothing(w: World, step: Step, sid: string)
    requires Inv(w) && sid in w.sidsUsed && !Resumable(w.reg, sid)
    ensures sid in Next(w, step).sidsUsed && !Resumable(Next(w, step).reg, sid)
  {
  }

  lemma {:induction false} RunRevivesNothing(w: World, steps: seq<Step>, sid: string)
    requires Inv(w) && sid in w.sidsUsed && !Resumable(w.reg, sid)
    ensures !Resumable(Run(w, steps).reg, sid)
    decreases |steps|
  {
    if steps != [] {
      StepRevivesNothing(w, steps[0], sid);
      StepKeepsInv(w, steps[0]);
      RunRevivesNothing(Next(w, steps[0]), steps[1..], sid);
    }
  }

  /** A session that was closed can never be resumed, whatever happens afterwards. */
  lemma ClosedNeverResumes(history: seq<Step>, logical: string, room: string, phys: string, rest: seq<Step>)
    requires phys in Run(Initial(), history).reg.byPhys
    ensures var w := Run(Initial(), history);
      !Resumable(Run(Next(w, Leaves(logical, room, phys)), rest).reg, w.reg.byPhys[phys].sid)
  {
    var w := Run(Initial(), history);
    RunKeepsInv(Initial(), history);
    OthersKeepInv(w, Leaves(logical, room, phys));
    RunRevivesNothing(Next(w, Leaves(logical, room, phys)), rest, w.reg.byPhys[phys].sid);
  }

  /** Nor can one that a sweep removed. */
  lemma SweptNeverResumes(history: seq<Step>, cutoff: int, phys: string, rest: seq<Step>)
    requires var r := Run(Initial(), history).reg; phys in r.byPhys && Expired(r.byPhys[phys], cutoff)
    ensures var w := Run(Initial(), history);
      !Resumable(Run(Next(w, Sweeps(cutoff)), rest).reg, w.reg.byPhys[phys].sid)
  {
    var w := Run(Initial(), history);
    RunKeepsInv(Initial(), history);
    OthersKeepInv(w, Sweeps(cutoff));
    RunRevivesNothing(Next(w, Sweeps(cutoff)), rest, w.reg.byPhys[phys].sid);
  }

  /** A physical id that has been taken over, closed or swept never comes back, so its late
      MarkRecovering and Close calls change nothing. */
  lemma {:induction false} GonePhysIsInert(w: World, steps: seq<Step>, phys: string)
    requires Known(w) && phys in w.physUsed && phys !in w.reg.byPhys
    ensures var reg := Run(w, steps).reg;
      && phys !in reg.byPhys
      && (forall now :: MarkRecovering(reg, phys, now) == reg)
      && (forall logical, room :: Close(reg, logical, room, phys) == reg)
    decreases |steps|
  {
    if steps != [] {
      StepKeepsKnown(w, steps[0], phys);
      GonePhysIsInert(Next(w, steps[0]), steps[1..], phys);
    }
  }

  lemma StepKeepsKnown(w: World, step: Step, phys: string)
    requires Known(w) && phys in w.physUsed && phys !in w.reg.byPhys
    ensures var w' := Next(w, step); Known(w') && phys in w'.physUsed && phys !in w'.reg.byPhys
  {
    if step.Sweeps? { SweepKeepsKnown(w, step.cutoff); }
    else if step.Reconnect? { ReconnectKeepsKnown(w, step); }
    hide Sweep, Resume;
  }

  lemma ReconnectKeepsKnown(w: World, step: Step)
    requires Known(w) && step.Reconnect?
    ensures var w' := Next(w, step);
      Known(w') && w.physUsed <= w'.physUsed && forall p :: p in w'.reg.byPhys ==> p in w.reg.byPhys || p !in w.physUsed
  {
  }

  lemma SweepKeepsKnown(w: World, cutoff: int)
    requires Known(w)
    ensures var w' := Next(w, Sweeps(cutoff)); Known(w') && w'.reg.byPhys.Keys <= w.reg.byPhys.Keys
  {
  }

  // ------------------------------------------------------------------
  // The index points at live sessions of the right identity
  // ------------------------------------------------------------------

  ghost predicate Linked(r: Registry) {
    forall key :: key in r.primary ==> r.primary[key] in r.byPhys && KeyOf(r.byPhys[r.primary[key]]) == key
  }

  /** Close breaks the index exactly when it is given another key than the closed primary's own. */
  lemma CloseKeepsLinksExactly(r: Registry, logical: string, room: string, phys: string)
    requires Linked(r) && phys in r.byPhys
    ensures var own := KeyOf(r.byPhys[phys]);
      Linked(Close(r, logical, room, phys)) <==>
        (own in r.primary && r.primary[own] == phys ==> Key(logical, room) == own)
  {
    var own := KeyOf(r.byPhys[phys]);
    var r' := Close(r, logical, room, phys);
    if own in r.primary && r.primary[own] == phys && Key(logical, room) != own {
      assert own in r'.primary && r'.primary[own] !in r'.byPhys;
    }
  }

  /** Connections close and are named as the server does it. */
  predicate Proper(w: World, step: Step) {
    match step
    case Connect(logical, _, _, _, _) => NulFree(logical)
    case Reconnect(logical, _, _, _, _) => NulFree(logical)
    case Leaves(logical, room, phys) =>
      phys in w.reg.byPhys ==> w.reg.byPhys[phys].logical == logical && w.reg.byPhys[phys].room == room
    case _ => true
  }

  ghost predicate ProperRun(w: World, steps: seq<Step>)
    decreases |steps|
  {
    steps == [] || (Proper(w, steps[0]) && ProperRun(Next(w, steps[0]), steps[1..]))
  }

  ghost predicate Named(r: Registry) {
    forall p :: p in r.byPhys ==> NulFree(r.byPhys[p].logical)
  }

  lemma StepKeepsLinked(w: World, step: Step)
    requires Known(w) && Linked(w.reg) && Named(w.reg) && OneHolder(w) && Proper(w, step)
    ensures Linked(Next(w, step).reg) && Named(Next(w, step).reg)
  {
    match step
    case Reconnect(_, _, _, _, _) => ReconnectKeepsLinked(w, step);
    case Connect(_, _, _, _, _) => hide OneHolder;
    case Drops(_, _) => hide OneHolder, Known;
    case Leaves(_, _, _) => hide OneHolder, Known;
    case Sweeps(_) => hide OneHolder, Known;
  }

  lemma ReconnectKeepsLinked(w: World, step: Step)
    requires step.Reconnect? && Known(w) && Linked(w.reg) && Named(w.reg) && OneHolder(w) && NulFree(step.logical)
    ensures Linked(Next(w, step).reg) && Named(Next(w, step).reg)
  {
  }

  lemma {:induction false} RunKeepsLinked(w: World, steps: seq<Step>)
    requires Inv(w) && Linked(w.reg) && Named(w.reg) && ProperRun(w, steps)
    ensures Linked(Run(w, steps).reg) && Named(Run(w, steps).reg)
    decreases |steps|
  {
    if steps != [] {
      StepKeepsLinked(w, steps[0]);
      StepKeepsInv(w, steps[0]);
      RunKeepsLinked(Next(w, steps[0]), steps[1..]);
    }
  }

  /** In every proper run an index entry for (identity, room) leads to a live session of exactly that
      identity and room, so a resume can only ever take over one's own session. */
  lemma PrimaryIsOwnLiveSession(steps: seq<Step>, logical: string, room: string)
    requires ProperRun(Initial(), steps) && NulFree(logical)
    ensures var r := Run(Initial(), steps).reg;
      Key(logical, room) in r.primary ==>
        && r.primary[Key(logical, room)] in r.byPhys
        && r.byPhys[r.primary[Key(logical, room)]].logical == logical
        && r.byPhys[r.primary[Key(logical, room)]].room == room
  {
    RunKeepsLinked(Initial(), steps);
    var r := Run(Initial(), steps).reg;
    if Key(logical, room) in r.primary {
      var s := r.byPhys[r.primary[Key(logical, room)]];
      KeyIsInjective(s.logical, s.room, logical, room);
    }
  }

  /** A fresh connection for the same identity and room supersedes the old session for good. */
  lemma SupersededNeverResumes(history: seq<Step>, step: Step, rest: seq<Step>)
    requires ProperRun(Initial(), history)
    requires step.Connect? && Proper(Run(Initial(), history), step)
    requires var w := Run(Initial(), history);
      step.phys !in w.physUsed && step.sid !in w.sidsUsed && Key(step.logical, step.room) in w.reg.primary
    ensures var w := Run(Initial(), history); var from := w.reg.primary[Key(step.logical, step.room)];
      from in w.reg.byPhys && !Resumable(Run(Next(w, step), rest).reg, w.reg.byPhys[from].sid)
  {
    var w := Run(Initial(), history);
    RunKeepsInv(Initial(), history);
    RunKeepsLinked(Initial(), history);
    ConnectKeepsInv(w, step);
    RunRevivesNothing(Next(w, step), rest, w.reg.byPhys[w.reg.primary[Key(step.logical, step.room)]].sid);
  }

  // ------------------------------------------------------------------
  // Who is kicked, and who can resume
  // ------------------------------------------------------------------

  /** The physical ids that were connected before a step and are gone after it. */
  function Replaced(w: World, w': World): (ids: set<string>) {
    set p | p in w.reg.byPhys && w.reg.byPhys[p].phase.Connected? && p !in w'.reg.byPhys
  }

  /** A reconnect kicks exactly the connected sockets it replaces, and nothing else kicks anyone. */
  lemma StepKicksExactly(w: World, step: Step)
    requires Inv(w)
    ensures Next(w, step).kicked == w.kicked + if step.Reconnect? then Replaced(w, Next(w, step)) else {}
  {
    if step.Reconnect? && step.phys !in w.physUsed && Accepts(w.reg, step.logical, step.room, step.claim) { ResumeMovesOne(w, step); }
  }

  /** The same along every run: everyone kicked so far is gone, and was replaced by some reconnect. */
  lemma {:induction false} KickedAreReplaced(history: seq<Step>, p: string)
    ensures var w := Run(Initial(), history);
      && (p in w.kicked ==> p !in w.reg.byPhys && p in w.physUsed)
      && (p in w.kicked <==> exists i :: 0 <= i < |history| && ReplacedAt(history, i, p))
    decreases |history|
  {
    if history != [] {
      var before, step := history[..|history| - 1], history[|history| - 1];
      KickedAreReplaced(before, p);
      RunAppend(before, step);
      assert history == before + [step];
      RunKeepsInv(Initial(), before);
      StepKicksExactly(Run(Initial(), before), step);
      StepKeepsInv(Run(Initial(), before), step);
      assert forall i :: 0 <= i < |before| ==> history[..i] == before[..i] && history[i] == before[i];
      assert history[..|before|] == before;
      assert ReplacedAt(history, |before|, p) <==> step.Reconnect? && p in Replaced(Run(Initial(), before), Next(Run(Initial(), before), step));
      assert forall i :: 0 <= i < |before| ==> (ReplacedAt(history, i, p) <==> ReplacedAt(before, i, p));
      KickStaysGone(Run(Initial(), before), step, p);
      hide Run, Next, Inv, Replaced, ReplacedAt;
    }
  }

  ghost predicate ReplacedAt(history: seq<Step>, i: nat, p: string)
    requires i < |history|
  {
    var w := Run(Initial(), history[..i]);
    history[i].Reconnect? && p in Replaced(w, Next(w, history[i]))
  }

  lemma KickStaysGone(w: World, step: Step, p: string)
    requires Inv(w)
    ensures p in Replaced(w, Next(w, step)) ==> p !in Next(w, step).reg.byPhys && p in Next(w, step).physUsed
    ensures p in w.physUsed && p !in w.reg.byPhys ==> p in Next(w, step).physUsed && p !in Next(w, step).reg.byPhys
  {
    if p in w.physUsed && p !in w.reg.byPhys { StepKeepsKnown(w, step, p); }
  }

  lemma RunAppend(steps: seq<Step>, step: Step)
    ensures Run(Initial(), steps + [step]) == Next(Run(Initial(), steps), step)
  {
    RunAppendFrom(Initial(), steps, step);
  }

  lemma {:induction false} RunAppendFrom(w: World, steps: seq<Step>, step: Step)
    ensures Run(w, steps + [step]) == Next(Run(w, steps), step)
    decreases |steps|
  {
    if steps == [] { assert (steps + [step])[1..] == []; }
    else {
      assert (steps + [step])[1..] == steps[1..] + [step];
      RunAppendFrom(Next(w, steps[0]), steps[1..], step);
    }
  }

  /** The pair a client was last given does resume: right after a fresh open, and right after a resume,
      the claim just issued is accepted. */
  lemma NewestPairResumes(w: World, step: Step)
    requires Inv(w) && (step.Connect? || step.Reconnect?) && step.phys !in w.physUsed
    requires (step.Connect? && step.sid !in w.sidsUsed) || (step.Reconnect? && Accepts(w.reg, step.logical, step.room, step.claim))
    ensures var w' := Next(w, step);
      && Key(step.logical, step.room) in w'.reg.primary && w'.reg.primary[Key(step.logical, step.room)] == step.phys && step.phys in w'.reg.byPhys
      && var s := w'.reg.byPhys[step.phys];
        s.phase == Connected && Claim(s.sid, s.generation) in w'.issued && Accepts(w'.reg, step.logical, step.room, Claim(s.sid, s.generation))
  {
  }

  /** A dropped connection stays resumable, and a sweep ends that exactly when the drop was before its
      cutoff. */
  lemma ParkedResumesUntilSwept(w: World, logical: string, room: string, claim: Claim, now: int, cutoff: int)
    requires Accepts(w.reg, logical, room, claim)
    ensures var dropped := Next(w, Drops(w.reg.primary[Key(logical, room)], now));
      && Accepts(dropped.reg, logical, room, claim)
      && (Accepts(Next(dropped, Sweeps(cutoff)).reg, logical, room, claim) <==> now >= cutoff)
  {
    var dropped := Next(w, Drops(w.reg.primary[Key(logical, room)], now));
    SweepIsExact(dropped.reg, cutoff);
    hide Sweep, Key;
  }
}
