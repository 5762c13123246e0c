/** The lock-free parts of a publication: the copy-on-write list of subscriber sinks, replaced by
    compare-and-swap loops, and the keyframe limiter. Every load and every CAS is its own step,
    and any number of callers interleave. */
module Fanout {

  datatype Entry = Entry(id: nat, sink: string)

  // ------------------------------------------------------------------
  // The sink list
  // ------------------------------------------------------------------

  /** A list is installed under a fresh pointer, and a pointer somebody still holds is never reused. */
  datatype Phase =
    | Ready                                      // about to load the list pointer
    | Loaded(ptr: nat, snapshot: seq<Entry>)     // holds a list, about to CAS its replacement in
    | Finished

  /** An attach call draws a fresh id and is known by it; the detach function it returns runs its body
      at most once, so it too is known by the id. `log` is the attachments in the order their CAS
      won, `at` where in it each id is, `gone` the ids whose detach CAS won. */
  datatype Sinks = Sinks(
    ptr: nat, list: seq<Entry>, nextId: nat,
    attaches: map<nat, AttachCall>, detaches: map<nat, Phase>,
    log: seq<Entry>, at: map<nat, nat>, gone: set<nat>)

  datatype AttachCall = AttachCall(sink: string, phase: Phase)

  datatype Step =
    | BeginAttach(sink: string)
    | LoadForAttach(id: nat)
    | SwapForAttach(id: nat)
    | BeginDetach(id: nat)
    | LoadForDetach(id: nat)
    | SwapForDetach(id: nat)

  function Without(list: seq<Entry>, ids: set<nat>): (r: seq<Entry>) {
    if list == [] then []
    else Without(list[..|list| - 1], ids) + if list[|list| - 1].id in ids then [] else [list[|list| - 1]]
  }

  function Next(w: Sinks, step: Step): (w': Sinks) {
    match step
    case BeginAttach(sink) =>
      w.(nextId := w.nextId + 1, attaches := w.attaches[w.nextId + 1 := AttachCall(sink, Ready)])
    case LoadForAttach(id) =>
      if id !in w.attaches || !w.attaches[id].phase.Ready? then w
      else w.(attaches := w.attaches[id := w.attaches[id].(phase := Loaded(w.ptr, w.list))])
    case SwapForAttach(id) =>
      if id !in w.attaches || !w.attaches[id].phase.Loaded? then w
      else
        var call := w.attaches[id];
        if call.phase.ptr != w.ptr then w.(attaches := w.attaches[id := call.(phase := Ready)])
        else
          var entry := Entry(id, call.sink);
          w.(ptr := w.ptr + 1, list := call.phase.snapshot + [entry],
             attaches := w.attaches[id := call.(phase := Finished)], log := w.log + [entry], at := w.at[id := |w.log|])
    case BeginDetach(id) =>
      if id !in w.attaches || !w.attaches[id].phase.Finished? || id in w.detaches then w
      else w.(detaches := w.detaches[id := Ready])
    case LoadForDetach(id) =>
      if id !in w.detaches || !w.detaches[id].Ready? then w
      else w.(detaches := w.detaches[id := Loaded(w.ptr, w.list)])
    case SwapForDetach(id) =>
      if id !in w.detaches || !w.detaches[id].Loaded? then w
      else if w.detaches[id].ptr != w.ptr then w.(detaches := w.detaches[id := Ready])
      else
        w.(ptr := w.ptr + 1, list := Without(w.detaches[id].snapshot, {id}),
           detaches := w.detaches[id := Finished], gone := w.gone + {id})
  }

  function Run(w: Sinks, steps: seq<Step>): (w': Sinks)
    decreases |steps|
  {
    if steps == [] then w else Run(Next(w, steps[0]), steps[1..])
  }

  function NoSinks(): (r: Sinks) { Sinks(0, [], 0, map[], map[], [], map[], {}) }

  /** A list held under the current pointer is the current list. */
  predicate UpToDate(w: Sinks, p: Phase) {
    p.Loaded? ==> p.ptr <= w.ptr && (p.ptr == w.ptr ==> p.snapshot == w.list)
  }

  /** Every attachment that took effect is in the log once, as it was made. */
  ghost predicate LogInv(w: Sinks) {
    && (forall id :: id in w.at ==>
          w.at[id] < |w.log| && id in w.attaches && w.attaches[id].phase.Finished? && w.log[w.at[id]] == Entry(id, w.attaches[id].sink))
    && (forall i :: 0 <= i < |w.log| ==> w.log[i].id in w.at && w.at[w.log[i].id] == i)
    && (forall id :: id in w.attaches && w.attaches[id].phase.Finished? ==> id in w.at)
    && (forall id :: id in w.attaches ==> id <= w.nextId)
    && (forall id :: id in w.detaches ==> id in w.at)
    && (forall id :: id in w.gone <==> id in w.detaches && w.detaches[id].Finished?)
  }

  ghost predicate ListInv(w: Sinks) {
    && w.list == Without(w.log, w.gone)
    && (forall id :: id in w.attaches ==> UpToDate(w, w.attaches[id].phase))
    && (forall id :: id in w.detaches ==> UpToDate(w, w.detaches[id]))
  }

  lemma {:induction false} WithoutNothingNew(list: seq<Entry>, ids: set<nat>, e: Entry)
    requires e.id !in ids
    ensures Without(list + [e], ids) == Without(list, ids) + [e]
  {
    assert (list + [e])[..|list|] == list;
  }

  lemma {:induction false} WithoutTwice(list: seq<Entry>, ids: set<nat>, id: nat)
    ensures Without(Without(list, ids), {id}) == Without(list, ids + {id})
  {
    if list != [] {
      var init, last := list[..|list| - 1], list[|list| - 1];
      WithoutTwice(init, ids, id);
      var kept := Without(init, ids);
      if last.id in ids {
        assert Without(list, ids) == kept;
      } else {
        assert (kept + [last])[..|kept|] == kept;
      }
    }
  }

  lemma {:induction false} WithoutMembers(list: seq<Entry>, ids: set<nat>, e: Entry)
    ensures e in Without(list, ids) <==> e in list && e.id !in ids
  {
    if list != [] {
      assert list == list[..|list| - 1] + [list[|list| - 1]];
      WithoutMembers(list[..|list| - 1], ids, e);
    }
  }

  lemma {:induction false} WithoutDistinct(list: seq<Entry>, ids: set<nat>, i: nat, j: nat)
    requires forall i, j :: 0 <= i < j < |list| ==> list[i].id != list[j].id
    requires i < j < |Without(list, ids)|
    ensures Without(list, ids)[i].id != Without(list, ids)[j].id
  {
    var init, last := list[..|list| - 1], list[|list| - 1];
    var kept := Without(init, ids);
    if j < |kept| {
      WithoutDistinct(init, ids, i, j);
    } else {
      WithoutMembers(init, ids, kept[i]);
      var k :| 0 <= k < |init| && init[k] == kept[i];
      assert list[k].id != list[|list| - 1].id;
    }
  }

  lemma SwapForAttachKeepsLog(w: Sinks, id: nat)
    requires LogInv(w)
    ensures LogInv(Next(w, SwapForAttach(id)))
  {
    hide Without;
  }

  lemma DetachStepsKeepLog(w: Sinks, step: Step)
    requires LogInv(w) && (step.BeginDetach? || step.LoadForDetach? || step.SwapForDetach?)
    ensures LogInv(Next(w, step))
  {
    hide Without;
  }

  lemma StepKeepsLog(w: Sinks, step: Step)
    requires LogInv(w)
    ensures LogInv(Next(w, step))
  {
    match step
    case SwapForAttach(id) => SwapForAttachKeepsLog(w, id);
    case BeginAttach(_) =>
    case LoadForAttach(_) =>
    case _ => DetachStepsKeepLog(w, step);
  }

  lemma AttachStepsKeepList(w: Sinks, step: Step)
    requires LogInv(w) && ListInv(w) && (step.BeginAttach? || step.LoadForAttach? || step.SwapForAttach?)
    ensures ListInv(Next(w, step))
  {
    hide Without;
    if step.SwapForAttach? && step.id in w.attaches && w.attaches[step.id].phase.Loaded? {
      WithoutNothingNew(w.log, w.gone, Entry(step.id, w.attaches[step.id].sink));
    }
  }

  lemma DetachStepsKeepList(w: Sinks, step: Step)
    requires ListInv(w) && (step.BeginDetach? || step.LoadForDetach? || step.SwapForDetach?)
    ensures ListInv(Next(w, step))
  {
    hide Without;
    WithoutTwice(w.log, w.gone, step.id);
  }

  lemma {:induction false} RunKeepsInv(w: Sinks, steps: seq<Step>)
    requires LogInv(w) && ListInv(w)
    ensures LogInv(Run(w, steps)) && ListInv(Run(w, steps))
    decreases |steps|
  {
    hide LogInv, ListInv;
    if steps != [] {
      StepKeepsLog(w, steps[0]);
      if steps[0].BeginAttach? || steps[0].LoadForAttach? || steps[0].SwapForAttach? {
        AttachStepsKeepList(w, steps[0]);
      } else {
        DetachStepsKeepList(w, steps[0]);
      }
      RunKeepsInv(Next(w, steps[0]), steps[1..]);
    }
  }

  /** The attach calls that have returned and whose detach has not taken effect. */
  predicate Live(w: Sinks, e: Entry) {
    && e.id in w.attaches && w.attaches[e.id] == AttachCall(e.sink, Finished)
    && !(e.id in w.detaches && w.detaches[e.id].Finished?)
  }

  /** In every interleaving the list is the attachments in the order they took effect, less the
      detached ones: no update is lost, and each live sink is there exactly once. */
  lemma ListIsAttachedNotDetached(steps: seq<Step>)
    ensures var w := Run(NoSinks(), steps);
      && w.list == Without(w.log, w.gone)
      && (forall e :: e in w.list <==> Live(w, e))
      && (forall i, j :: 0 <= i < j < |w.list| ==> w.list[i].id != w.list[j].id)
  {
    RunKeepsInv(NoSinks(), steps);
    var w := Run(NoSinks(), steps);
    forall e
      ensures e in w.list <==> Live(w, e)
    {
      WithoutMembers(w.log, w.gone, e);
      if e in w.log {
        var k :| 0 <= k < |w.log| && w.log[k] == e;
      }
    }
    forall i, j | 0 <= i < j < |w.list|
      ensures w.list[i].id != w.list[j].id
    {
      WithoutDistinct(w.log, w.gone, i, j);
    }
  }

  /** Calling a detach again after it has run changes nothing. */
  lemma DetachIsIdempotent(w: Sinks, id: nat)
    requires id in w.detaches && w.detaches[id].Finished?
    ensures Run(w, [BeginDetach(id), LoadForDetach(id), SwapForDetach(id)]) == w
  {
    var steps := [BeginDetach(id), LoadForDetach(id), SwapForDetach(id)];
    assert steps[1..] == [LoadForDetach(id), SwapForDetach(id)] && steps[1..][1..] == [SwapForDetach(id)];
    assert [SwapForDetach(id)][1..] == [];
    assert Run(w, steps) == Run(w, steps[1..]) == Run(w, [SwapForDetach(id)]) == Run(w, []);
  }

  // ------------------------------------------------------------------
  // A swap fails only when another took effect
  // ------------------------------------------------------------------

  /** Every pointer is one update that took effect. */
  ghost predicate Counted(w: Sinks) { LogInv(w) && ListInv(w) && w.ptr == |w.log| + |w.gone| }

  ghost predicate Later(w: Sinks, w': Sinks) { w.log <= w'.log && w.gone <= w'.gone }

  lemma StepCounts(w: Sinks, step: Step)
    requires LogInv(w) && w.ptr == |w.log| + |w.gone|
    ensures var w' := Next(w, step); w'.ptr == |w'.log| + |w'.gone| && Later(w, w')
  {
    hide Without;
    if step.SwapForDetach? && step.id in w.detaches { assert w.detaches[step.id].Loaded? ==> step.id !in w.gone; }
    hide LogInv;
  }

  lemma StepKeepsCount(w: Sinks, step: Step)
    requires Counted(w)
    ensures Counted(Next(w, step)) && Later(w, Next(w, step))
  {
    RunKeepsInv(w, [step]);
    assert Run(w, [step]) == Next(w, step);
    StepCounts(w, step);
    hide LogInv, ListInv, Next, Run, Later;
  }

  lemma {:induction false} RunKeepsCount(w: Sinks, steps: seq<Step>)
    requires Counted(w)
    ensures Counted(Run(w, steps)) && Later(w, Run(w, steps))
    decreases |steps|
  {
    if steps != [] {
      StepKeepsCount(w, steps[0]);
      hide Counted;
      RunKeepsCount(Next(w, steps[0]), steps[1..]);
    }
  }

  lemma SubsetSizes(a: set<nat>, b: set<nat>)
    requires a <= b
    ensures |a| <= |b| && (|a| == |b| ==> a == b)
  {
    assert b == a + (b - a);
  }

  /** The list has not moved exactly when no attach and no detach took effect. */
  lemma SameListUnlessOvertaken(w: Sinks, w': Sinks)
    requires Counted(w) && Counted(w') && Later(w, w')
    ensures w'.ptr == w.ptr <==> w'.log == w.log && w'.gone == w.gone
    ensures w'.ptr == w.ptr ==> w'.list == w.list
  {
    SubsetSizes(w.gone, w'.gone);
    hide LogInv, Without, UpToDate;
  }

  lemma {:induction false} OthersKeepCalls(w: Sinks, id: nat, steps: seq<Step>)
    requires forall i :: 0 <= i < |steps| ==> steps[i] != LoadForAttach(id) && steps[i] != SwapForAttach(id)
    requires id in w.attaches && id <= w.nextId
    ensures id in Run(w, steps).attaches && Run(w, steps).attaches[id] == w.attaches[id]
    decreases |steps|
  {
    if steps != [] { OthersKeepCalls(Next(w, steps[0]), id, steps[1..]); }
  }

  lemma {:induction false} OthersKeepDetach(w: Sinks, id: nat, steps: seq<Step>)
    requires forall i :: 0 <= i < |steps| ==> steps[i] != LoadForDetach(id) && steps[i] != SwapForDetach(id)
    requires id in w.detaches
    ensures id in Run(w, steps).detaches && Run(w, steps).detaches[id] == w.detaches[id]
    decreases |steps|
  {
    if steps != [] { OthersKeepDetach(Next(w, steps[0]), id, steps[1..]); }
  }

  lemma LoadsChangeNothing(w: Sinks, load: Step)
    requires load.LoadForAttach? || load.LoadForDetach?
    ensures var w' := Next(w, load); w'.ptr == w.ptr && w'.log == w.log && w'.gone == w.gone && w'.list == w.list
  {
    hide Without;
  }

  /** What happens between a caller's load and its swap. */
  lemma LoadedThen(w: Sinks, load: Step, between: seq<Step>)
    requires Counted(w) && (load.LoadForAttach? || load.LoadForDetach?)
    ensures var m := Run(Next(w, load), between);
      (m.ptr == w.ptr <==> m.log == w.log && m.gone == w.gone) && (m.ptr == w.ptr ==> m.list == w.list)
  {
    LoadsChangeNothing(w, load);
    StepKeepsCount(w, load);
    hide Counted, Next, Later;
    RunKeepsCount(Next(w, load), between);
    SameListUnlessOvertaken(Next(w, load), Run(Next(w, load), between));
    hide Run;
  }

  lemma SwapDetach(m: Sinks, id: nat, p: nat, snapshot: seq<Entry>)
    requires id in m.detaches && m.detaches[id] == Loaded(p, snapshot) && (m.ptr == p ==> m.list == snapshot)
    ensures var end := Next(m, SwapForDetach(id));
      && id in end.detaches
      && if m.ptr == p then (forall e :: e in end.list <==> e in m.list && e.id != id) && end.detaches[id].Finished?
         else end.list == m.list && end.detaches[id].Ready?
  {
    forall e ensures e in Without(snapshot, {id}) <==> e in snapshot && e.id != id { WithoutMembers(snapshot, {id}, e); }
    hide Without;
  }

  /** An attach puts its sink at the end of the list and is done, or, exactly when another attach or
      detach took effect since it loaded the list, changes nothing and starts over. */
  lemma {:induction false} AttachFailsOnlyToAnother(before: seq<Step>, id: nat, between: seq<Step>)
    requires id in Run(NoSinks(), before).attaches && Run(NoSinks(), before).attaches[id].phase.Ready?
    requires forall i :: 0 <= i < |between| ==> between[i] != LoadForAttach(id) && between[i] != SwapForAttach(id)
    ensures var w := Run(NoSinks(), before); var m := Run(Next(w, LoadForAttach(id)), between);
      var end := Next(m, SwapForAttach(id));
      && id in end.attaches
      && if m.log == w.log && m.gone == w.gone then end.list == m.list + [Entry(id, w.attaches[id].sink)] && end.attaches[id].phase.Finished?
         else end.list == m.list && end.attaches[id].phase.Ready?
  {
    RunKeepsCount(NoSinks(), before);
    var w := Run(NoSinks(), before);
    assert id <= w.nextId;
    hide LogInv, ListInv, Counted, Without;
    LoadedThen(w, LoadForAttach(id), between);
    OthersKeepCalls(Next(w, LoadForAttach(id)), id, between);
    hide Run;
  }

  /** A detach takes exactly its own sink out of the list, under the same condition. */
  lemma {:induction false} DetachFailsOnlyToAnother(before: seq<Step>, id: nat, between: seq<Step>)
    requires id in Run(NoSinks(), before).detaches && Run(NoSinks(), before).detaches[id].Ready?
    requires forall i :: 0 <= i < |between| ==> between[i] != LoadForDetach(id) && between[i] != SwapForDetach(id)
    ensures var w := Run(NoSinks(), before); var m := Run(Next(w, LoadForDetach(id)), between);
      var end := Next(m, SwapForDetach(id));
      && id in end.detaches
      && if m.log == w.log && m.gone == w.gone then (forall e :: e in end.list <==> e in m.list && e.id != id) && end.detaches[id].Finished?
         else end.list == m.list && end.detaches[id].Ready?
  {
    RunKeepsCount(NoSinks(), before);
    hide LogInv, ListInv, Counted, Without, Run;
    var w := Run(NoSinks(), before);
    LoadedThen(w, LoadForDetach(id), between);
    OthersKeepDetach(Next(w, LoadForDetach(id)), id, between);
    var m := Run(Next(w, LoadForDetach(id)), between);
    assert m.detaches[id] == Loaded(w.ptr, w.list);
    SwapDetach(m, id, w.ptr, w.list);
    hide Next;
  }

  /** Alone, an attach puts its sink last in three steps and its detach takes that entry out in three. */
  lemma UndisturbedCallsTakeEffect(w: Sinks, sink: string, id: nat)
    ensures var n := w.nextId + 1; Run(w, [BeginAttach(sink), LoadForAttach(n), SwapForAttach(n)]).list == w.list + [Entry(n, sink)]
    ensures id in w.attaches && w.attaches[id].phase.Finished? && id !in w.detaches ==>
      forall e :: e in Run(w, [BeginDetach(id), LoadForDetach(id), SwapForDetach(id)]).list <==> e in w.list && e.id != id
  {
    var n := w.nextId + 1;
    RunThree(w, BeginAttach(sink), LoadForAttach(n), SwapForAttach(n));
    RunThree(w, BeginDetach(id), LoadForDetach(id), SwapForDetach(id));
    forall e ensures e in Without(w.list, {id}) <==> e in w.list && e.id != id { WithoutMembers(w.list, {id}, e); }
    hide Run, Without;
  }

  lemma RunThree(w: Sinks, a: Step, b: Step, c: Step)
    ensures Run(w, [a, b, c]) == Next(Next(Next(w, a), b), c)
  {
    assert [a, b, c][1..] == [b, c] && [b, c][1..] == [c] && [c][1..] == [];
    assert Run(w, [a, b, c]) == Run(Next(w, a), [b, c]) == Run(Next(Next(w, a), b), [c]);
    hide Next;
  }

  // ------------------------------------------------------------------
  // The keyframe limiter
  // ------------------------------------------------------------------

  const KEYFRAME_RATE_LIMIT: int := 1_000_000_000   // one second in nanoseconds

  datatype Request =
    | Timed(now: int)                  // has read the clock, about to load the last request time
    | Checked(now: int, last: int)     // far enough apart, about to CAS
    | Over

  /** `sent` is the times of the requests that won, in order. */
  datatype Limiter = Limiter(last: int, requests: map<nat, Request>, sent: seq<int>)

  datatype Ask =
    | ReadClock(caller: nat, now: int)
    | LoadLast(caller: nat)
    | SwapLast(caller: nat)

  function NextAsk(w: Limiter, ask: Ask): (w': Limiter) {
    match ask
    case ReadClock(c, now) =>
      if c in w.requests then w else w.(requests := w.requests[c := Timed(now)])
    case LoadLast(c) =>
      if c !in w.requests || !w.requests[c].Timed? then w
      else
        var now := w.requests[c].now;
        w.(requests := w.requests[c := if now - w.last < KEYFRAME_RATE_LIMIT then Over else Checked(now, w.last)])
    case SwapLast(c) =>
      if c !in w.requests || !w.requests[c].Checked? then w
      else if w.requests[c].last != w.last then w.(requests := w.requests[c := Over])
      else Limiter(w.requests[c].now, w.requests[c := Over], w.sent + [w.requests[c].now])
  }

  function RunAsks(w: Limiter, asks: seq<Ask>): (w': Limiter)
    decreases |asks|
  {
    if asks == [] then w else RunAsks(NextAsk(w, asks[0]), asks[1..])
  }

  ghost predicate Spaced(w: Limiter) {
    && (forall c :: c in w.requests && w.requests[c].Checked? ==> w.requests[c].now - w.requests[c].last >= KEYFRAME_RATE_LIMIT)
    && (forall i :: 0 <= i < |w.sent| ==> w.sent[i] <= w.last)
    && (forall i, j :: 0 <= i < j < |w.sent| ==> w.sent[j] - w.sent[i] >= KEYFRAME_RATE_LIMIT)
  }

  lemma {:induction false} RunKeepsSpaced(w: Limiter, asks: seq<Ask>)
    requires Spaced(w)
    ensures Spaced(RunAsks(w, asks))
    decreases |asks|
  {
    if asks != [] {
      RunKeepsSpaced(NextAsk(w, asks[0]), asks[1..]);
    }
  }

  /** However many callers race, and whatever their clocks read, the requests that win the CAS carry
      times at least one second apart. */
  lemma KeyframesAreSpaced(asks: seq<Ask>, i: nat, j: nat)
    requires i < j < |RunAsks(Limiter(0, map[], []), asks).sent|
    ensures var sent := RunAsks(Limiter(0, map[], []), asks).sent; sent[j] - sent[i] >= KEYFRAME_RATE_LIMIT
  {
    RunKeepsSpaced(Limiter(0, map[], []), asks);
  }

  /** A request alone is sent exactly when a second has passed since the last one sent. A racing one that
      far from it loses exactly when another won since it looked. */
  lemma {:induction false} RequestLosesOnlyToAnother(before: seq<Ask>, c: nat, now: int, between: seq<Ask>)
    requires c !in RunAsks(Limiter(0, map[], []), before).requests && forall i :: 0 <= i < |between| ==> between[i].caller != c
    ensures var w := RunAsks(Limiter(0, map[], []), before);
      var m := RunAsks(NextAsk(NextAsk(w, ReadClock(c, now)), LoadLast(c)), between);
      var end := NextAsk(m, SwapLast(c));
      && end.sent == (if now - LastSent(w) >= 1_000_000_000 && m.sent == w.sent then m.sent + [now] else m.sent)
      && c in end.requests && end.requests[c].Over?
  {
    var w := RunAsks(Limiter(0, map[], []), before);
    RunKeepsSpaced(Limiter(0, map[], []), before);
    RunKeepsLast(Limiter(0, map[], []), before);
    hide RunAsks;
    var w2 := NextAsk(NextAsk(w, ReadClock(c, now)), LoadLast(c));
    Looked(w, c, now);
    hide Spaced;
    RunKeepsLast(w2, between);
    OthersKeepRequest(w2, c, between);
    hide NextAsk;
    Swapped(RunAsks(w2, between), c);
  }

  lemma Looked(w: Limiter, c: nat, now: int)
    requires Spaced(w) && c !in w.requests
    ensures var w' := NextAsk(NextAsk(w, ReadClock(c, now)), LoadLast(c));
      && Spaced(w') && w'.last == w.last && w'.sent == w.sent && c in w'.requests
      && w'.requests[c] == if now - w.last < KEYFRAME_RATE_LIMIT then Over else Checked(now, w.last)
  {
  }

  lemma Swapped(m: Limiter, c: nat)
    requires c in m.requests && !m.requests[c].Timed?
    ensures NextAsk(m, SwapLast(c)).sent ==
      if m.requests[c].Checked? && m.requests[c].last == m.last then m.sent + [m.requests[c].now] else m.sent
    ensures c in NextAsk(m, SwapLast(c)).requests && NextAsk(m, SwapLast(c)).requests[c].Over?
  {
  }

  function LastSent(w: Limiter): (r: int) { if w.sent == [] then 0 else w.sent[|w.sent| - 1] }

  lemma {:induction false} RunKeepsLast(w: Limiter, asks: seq<Ask>)
    requires Spaced(w) && w.last == LastSent(w)
    ensures var w' := RunAsks(w, asks); w'.last == LastSent(w') && w.sent <= w'.sent && (w'.last == w.last ==> w'.sent == w.sent)
    ensures w.last <= RunAsks(w, asks).last
    decreases |asks|
  {
    if asks != [] {
      RunKeepsSpaced(w, [asks[0]]);
      assert RunAsks(w, [asks[0]]) == NextAsk(w, asks[0]);
      RunKeepsLast(NextAsk(w, asks[0]), asks[1..]);
    }
  }

  lemma {:induction false} OthersKeepRequest(w: Limiter, c: nat, asks: seq<Ask>)
    requires c in w.requests && forall i :: 0 <= i < |asks| ==> asks[i].caller != c
    ensures c in RunAsks(w, asks).requests && RunAsks(w, asks).requests[c] == w.requests[c]
    decreases |asks|
  {
    if asks != [] { OthersKeepRequest(NextAsk(w, asks[0]), c, asks[1..]); }
  }
}
