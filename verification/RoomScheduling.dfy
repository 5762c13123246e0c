/** The room router: which nodes may take a room, the routing decision it remembers, and what the
    placements do to the cluster between two load reports. Times are in milliseconds. */
module RoomScheduling {
  import opened Wrappers
  import opened Router

  datatype Node = Node(id: string, accepting: bool, stale: bool)

  datatype Report = Report(load: NodeLoad, at: int)

  /** A maximum of zero or less is no limit. */
  datatype Capacity = Capacity(maxRooms: int, maxParticipants: int, maxPublications: int, hard: real)

  datatype Pending = Pending(n: nat, seen: int)

  datatype Error = StateUnavailable | NoCapacity

  datatype Selection = Selected(id: string, reason: Reason) | Failed(error: Error)

  const PENDING_WINDOW: int := 5000
  const ASSIGNMENT_TTL: int := 15000

  datatype Assignment = Assignment(node: string, expires: int)

  function Limit(cap: Capacity, max: int): (r: real) {
    max as real * (if cap.hard <= 0.0 then 1.0 else cap.hard)
  }

  predicate Exceeds(cap: Capacity, current: nat, max: int) { max > 0 && current as real >= Limit(cap, max) }

  predicate OverHardLimit(cap: Capacity, l: NodeLoad) {
    || Exceeds(cap, l.rooms, cap.maxRooms)
    || Exceeds(cap, l.participants, cap.maxParticipants)
    || Exceeds(cap, l.publications, cap.maxPublications)
  }

  /** The load reports that are recent enough, by node. */
  function Fresh(reports: seq<Report>, now: int, maxAge: int): (r: map<string, NodeLoad>)
    ensures forall id :: id in r ==> r[id].id == id && exists i :: LastReport(reports, i, id, now, maxAge) && reports[i].load == r[id]
    ensures forall i :: 0 <= i < |reports| && Recent(reports[i], now, maxAge) ==> reports[i].load.id in r
  {
    if reports == [] then map[]
    else
      var before, last := Fresh(reports[..|reports| - 1], now, maxAge), reports[|reports| - 1];
      assert forall id, i :: LastReport(reports[..|reports| - 1], i, id, now, maxAge) && (last.load.id != id || !Recent(last, now, maxAge)) ==>
        LastReport(reports, i, id, now, maxAge);
      assert Recent(last, now, maxAge) ==> LastReport(reports, |reports| - 1, last.load.id, now, maxAge);
      if Recent(last, now, maxAge) then before[last.load.id := last.load] else before
  }

  predicate Recent(r: Report, now: int, maxAge: int) { now - r.at <= maxAge }

  /** The i-th report is the last recent one of its node. */
  ghost predicate LastReport(reports: seq<Report>, i: int, id: string, now: int, maxAge: int) {
    && 0 <= i < |reports| && reports[i].load.id == id && Recent(reports[i], now, maxAge)
    && forall j :: i < j < |reports| && reports[j].load.id == id ==> !Recent(reports[j], now, maxAge)
  }

  function PendingOf(pending: map<string, Pending>, id: string): (r: nat) {
    if id in pending then pending[id].n else 0
  }

  /** A node's reported load, or none, plus a room and a participant for each pending placement. */
  function Corrected(byId: map<string, NodeLoad>, pending: map<string, Pending>, id: string): (l: NodeLoad)
    ensures id in byId && byId[id].id == id ==> l.id == id
    ensures id !in byId ==> l.id == id
  {
    var l := if id in byId then byId[id] else NodeLoad(id, 0, 0, 0, 0);
    l.(rooms := l.rooms + PendingOf(pending, id), participants := l.participants + PendingOf(pending, id))
  }

  predicate Eligible(n: Node) { n.accepting && !n.stale }

  datatype Cluster = Cluster(nodes: seq<Node>, byId: map<string, NodeLoad>, cap: Capacity, policy: Policy)

  predicate Keyed(c: Cluster) { forall id :: id in c.byId ==> c.byId[id].id == id }

  function Candidates(nodes: seq<Node>, c: Cluster, pending: map<string, Pending>): (r: seq<NodeLoad>)
    ensures forall l :: l in r <==> exists n :: n in nodes && Eligible(n) && l == Corrected(c.byId, pending, n.id) && !OverHardLimit(c.cap, l)
  {
    if nodes == [] then []
    else
      var last := nodes[|nodes| - 1];
      assert nodes == nodes[..|nodes| - 1] + [last];
      var l := Corrected(c.byId, pending, last.id);
      Candidates(nodes[..|nodes| - 1], c, pending) + if Eligible(last) && !OverHardLimit(c.cap, l) then [l] else []
  }

  /** One more placement; an old count has been absorbed by a report since and starts again. */
  function Noted(pending: map<string, Pending>, id: string, now: int): (r: map<string, Pending>) {
    var n := if id in pending && now - pending[id].seen <= PENDING_WINDOW then pending[id].n else 0;
    pending[id := Pending(n + 1, now)]
  }

  datatype State = State(pending: map<string, Pending>, assignments: map<string, Assignment>)

  /** The decision still remembered for a room. */
  function Remembered(assignments: map<string, Assignment>, room: string, now: int): (id: Option<string>) {
    if room in assignments && now <= assignments[room].expires then Some(assignments[room].node) else None
  }

  predicate HasId(s: seq<NodeLoad>, id: string) { exists l :: l in s && l.id == id }

  ghost predicate PlacesBy(c: Cluster, st: State, room: string, now: int, r: Selection, st': State, ch: Choice) {
    && Called(c.policy, Candidates(c.nodes, c, st.pending), ch)
    && r == Selected(ch.load.id, ch.reason)
    && st' == State(Noted(st.pending, ch.load.id, now), st.assignments[room := Assignment(ch.load.id, now + ASSIGNMENT_TTL)])
  }

  /** A routing decision: none without candidates, the remembered one while its node is a candidate,
      otherwise the policy's, which is then remembered. */
  ghost predicate Places(c: Cluster, st: State, room: string, now: int, r: Selection, st': State) {
    var candidates := Candidates(c.nodes, c, st.pending);
    if candidates == [] then r == Failed(NoCapacity) && st' == st
    else if Remembered(st.assignments, room, now).Some? && HasId(candidates, Remembered(st.assignments, room, now).value) then
      r == Selected(Remembered(st.assignments, room, now).value, Assigned) && st' == st
    else exists ch :: PlacesBy(c, st, room, now, r, st', ch)
  }

  class RoomRouter {
    const policy: Policy
    const cap: Capacity
    const maxAge: int
    var pending: map<string, Pending>
    var assignments: map<string, Assignment>

    function Current(): (r: State)
      reads this
    {
      State(pending, assignments)
    }

    constructor (policy: Policy, cap: Capacity, maxAge: int)
      ensures Current() == State(map[], map[]) && this.policy == policy && this.cap == cap
      ensures this.maxAge == if maxAge <= 0 then 10000 else maxAge
    {
      this.policy, this.cap, this.maxAge := policy, cap, if maxAge <= 0 then 10000 else maxAge;
      pending, assignments := map[], map[];
    }

    function View(nodes: seq<Node>, reports: seq<Report>, local: string, now: int): (r: Cluster) {
      Cluster(nodes, Fresh(reports, now, maxAge), cap, policy.(local := local))
    }

    method SelectNode(stateOk: bool, nodes: seq<Node>, snapshot: Option<seq<Report>>, local: string, room: string, now: int)
      returns (r: Selection)
      modifies this
      ensures if !stateOk || snapshot.None? then r == Failed(StateUnavailable) && Current() == old(Current())
        else Places(View(nodes, snapshot.value, local, now), old(Current()), room, now, r, Current())
    {
      if !stateOk || snapshot.None? { return Failed(StateUnavailable); }
      ghost var c := View(nodes, snapshot.value, local, now);
      var candidates := Gather(nodes, snapshot.value, local, now);
      hide Candidates, Called;
      if candidates == [] { return Failed(NoCapacity); }
      if room in assignments && now <= assignments[room].expires {
        var found := Find(candidates, assignments[room].node);
        if found { return Selected(assignments[room].node, Assigned); }
      }
      var choice := Select(policy.(local := local), candidates);
      var id := choice.value.load.id;
      pending := Noted(pending, id, now);
      assignments := assignments[room := Assignment(id, now + ASSIGNMENT_TTL)];
      r := Selected(id, choice.value.reason);
      assert PlacesBy(c, old(Current()), room, now, r, Current(), choice.value);
    }

    method Gather(nodes: seq<Node>, reports: seq<Report>, local: string, now: int) returns (candidates: seq<NodeLoad>)
      ensures candidates == Candidates(nodes, View(nodes, reports, local, now), pending)
    {
      var byId := map[];
      for i := 0 to |reports|
        invariant byId == Fresh(reports[..i], now, maxAge)
      {
        assert reports[..i + 1][..i] == reports[..i];
        if Recent(reports[i], now, maxAge) { byId := byId[reports[i].load.id := reports[i].load]; }
      }
      assert reports[..|reports|] == reports;
      ghost var c := View(nodes, reports, local, now);
      candidates := [];
      for i := 0 to |nodes|
        invariant candidates == Candidates(nodes[..i], c, pending)
      {
        hide Corrected, OverHardLimit;
        assert nodes[..i + 1][..i] == nodes[..i];
        if !nodes[i].accepting || nodes[i].stale { continue; }
        var l := Corrected(byId, pending, nodes[i].id);
        if OverHardLimit(cap, l) { continue; }
        candidates := candidates + [l];
      }
      assert nodes[..|nodes|] == nodes;
    }

    method Find(s: seq<NodeLoad>, id: string) returns (found: bool)
      ensures found <==> HasId(s, id)
    {
      for i := 0 to |s|
        invariant forall j :: 0 <= j < i ==> s[j].id != id
      {
        if s[i].id == id {
          assert s[i] in s;
          return true;
        }
      }
      return false;
    }
  }

  // ------------------------------------------------------------------
  // One decision
  // ------------------------------------------------------------------

  /** A room only goes to a node that accepts sessions, is not stale and is under its hard limits. */
  lemma ChosenNodeHasRoom(c: Cluster, st: State, room: string, now: int, r: Selection, st': State)
    requires Keyed(c) && Places(c, st, room, now, r, st') && r.Selected?
    ensures exists n :: n in c.nodes && Eligible(n) && n.id == r.id && !OverHardLimit(c.cap, Corrected(c.byId, st.pending, n.id))
  {
    var s := Candidates(c.nodes, c, st.pending);
    var l: NodeLoad;
    if Remembered(st.assignments, room, now).Some? && HasId(s, Remembered(st.assignments, room, now).value) {
      l :| l in s && l.id == Remembered(st.assignments, room, now).value;
    } else {
      var ch :| PlacesBy(c, st, room, now, r, st', ch);
      ChoiceIsNearMinimum(c.policy, s, ch, s[0]);
      l := ch.load;
    }
    hide OverHardLimit, Called;
    assert l in s && l.id == r.id;
  }

  /** A decision is remembered for fifteen seconds from when the policy made it. Asked again while its
      node is a candidate, whatever the loads have become, the router repeats it and changes nothing
      exactly until then. */
  lemma DecisionStands(c: Cluster, st: State, room: string, now: int, id: string, reason: Reason, st': State,
                       c2: Cluster, later: int, r: Selection, st2: State)
    requires Places(c, st, room, now, Selected(id, reason), st')
    requires Places(c2, st', room, later, r, st2)
    requires HasId(Candidates(c2.nodes, c2, st'.pending), id)
    ensures room in st'.assignments && st'.assignments[room].node == id
    ensures reason != Assigned ==> st'.assignments[room].expires == now + 15000
    ensures reason == Assigned ==> st' == st
    ensures r == Selected(id, Assigned) <==> later <= st'.assignments[room].expires
    ensures r == Selected(id, Assigned) ==> st2 == st'
  {
    hide Candidates, Least;
  }

  /** A count is below its limit: there is none, or the count is below its fraction. */
  predicate Under(count: nat, max: int, hard: real) {
    max <= 0 || count as real < max as real * if hard > 0.0 then hard else 1.0
  }

  predicate Space(c: Cluster, pending: map<string, Pending>, id: string) {
    var l, more := if id in c.byId then c.byId[id] else NodeLoad(id, 0, 0, 0, 0), PendingOf(pending, id);
    && Under(l.rooms + more, c.cap.maxRooms, c.cap.hard)
    && Under(l.participants + more, c.cap.maxParticipants, c.cap.hard)
    && Under(l.publications, c.cap.maxPublications, c.cap.hard)
  }

  /** The pending placements count as rooms and participants, and nothing else of a report changes. */
  lemma CorrectedExactly(byId: map<string, NodeLoad>, pending: map<string, Pending>, id: string)
    ensures var l, r := Corrected(byId, pending, id), if id in byId then byId[id] else NodeLoad(id, 0, 0, 0, 0);
      && l.rooms == r.rooms + PendingOf(pending, id) && l.participants == r.participants + PendingOf(pending, id)
      && l.publications == r.publications && l.subscriptions == r.subscriptions && l.id == r.id
  {
  }

  lemma UnderIsNotOver(cap: Capacity, count: nat, max: int)
    ensures Under(count, max, cap.hard) <==> !Exceeds(cap, count, max)
  {
  }

  lemma SpaceIsNotOver(c: Cluster, pending: map<string, Pending>, id: string)
    ensures Space(c, pending, id) <==> !OverHardLimit(c.cap, Corrected(c.byId, pending, id))
  {
    CorrectedExactly(c.byId, pending, id);
    var l := Corrected(c.byId, pending, id);
    UnderIsNotOver(c.cap, l.rooms, c.cap.maxRooms);
    UnderIsNotOver(c.cap, l.participants, c.cap.maxParticipants);
    UnderIsNotOver(c.cap, l.publications, c.cap.maxPublications);
    hide Corrected, Under, Exceeds, Limit;
  }

  /** A room is refused exactly when no accepting, non-stale node has space, counting the rooms placed
      on it since its report. */
  lemma RefusedExactlyWithoutSpace(c: Cluster, st: State, room: string, now: int, r: Selection, st': State)
    requires Places(c, st, room, now, r, st')
    ensures r.Failed? <==> forall n :: n in c.nodes && n.accepting && !n.stale ==> !Space(c, st.pending, n.id)
    ensures r.Failed? ==> r.error == NoCapacity && st' == st
  {
    var s := Candidates(c.nodes, c, st.pending);
    hide Space, OverHardLimit, Corrected, Called;
    if s == [] {
      forall n | n in c.nodes && n.accepting && !n.stale ensures !Space(c, st.pending, n.id) {
        SpaceIsNotOver(c, st.pending, n.id);
        assert Corrected(c.byId, st.pending, n.id) !in s;
      }
    } else {
      assert s[0] in s;
      var n :| n in c.nodes && Eligible(n) && s[0] == Corrected(c.byId, st.pending, n.id) && !OverHardLimit(c.cap, s[0]);
      SpaceIsNotOver(c, st.pending, n.id);
    }
  }

  /** A policy decision counts one more room on the chosen node, from one again if five seconds have
      passed since the last, and is remembered for this room; nothing else changes. */
  lemma DecisionIsNoted(c: Cluster, st: State, room: string, now: int, r: Selection, st': State)
    requires Places(c, st, room, now, r, st') && r.Selected? && r.reason != Assigned
    ensures r.id in st'.pending && st'.pending[r.id].seen == now
    ensures st'.pending[r.id].n == if r.id in st.pending && now <= st.pending[r.id].seen + 5000 then st.pending[r.id].n + 1 else 1
    ensures forall id :: id != r.id ==> (id in st'.pending <==> id in st.pending) && (id in st.pending ==> st'.pending[id] == st.pending[id])
    ensures room in st'.assignments && st'.assignments[room] == Assignment(r.id, now + 15000)
    ensures forall q :: q != room ==> (q in st'.assignments <==> q in st.assignments) && (q in st.assignments ==> st'.assignments[q] == st.assignments[q])
  {
    var ch :| PlacesBy(c, st, room, now, r, st', ch);
    hide Candidates, Called, Places;
  }

  /** A node's load is known exactly when a report of it is no older than the maximum age. */
  lemma KnownExactlyWhenRecent(reports: seq<Report>, now: int, maxAge: int, id: string)
    ensures id in Fresh(reports, now, maxAge) <==> exists i :: 0 <= i < |reports| && reports[i].load.id == id && reports[i].at >= now - maxAge
  {
    var known := Fresh(reports, now, maxAge);
    if id in known {
      var i :| LastReport(reports, i, id, now, maxAge) && reports[i].load == known[id];
    }
    assert forall i :: 0 <= i < |reports| ==> (Recent(reports[i], now, maxAge) <==> reports[i].at >= now - maxAge);
  }

  // ------------------------------------------------------------------
  // Any number of decisions on one snapshot
  // ------------------------------------------------------------------

  datatype Request = Request(room: string, at: int)

  /** The placement does not restart its node's pending count: the node's last placement, if it has
      one, is still within the window. */
  predicate Counts(st: State, r: Selection, now: int) {
    r.Selected? && r.reason != Assigned && r.id in st.pending ==> now - st.pending[r.id].seen <= PENDING_WINDOW
  }

  /** `states` and `results` are a run of the router over `reqs`, of any length and duration, on a load
      snapshot that does not change and without a count being restarted. */
  ghost predicate Placements(c: Cluster, states: seq<State>, reqs: seq<Request>, results: seq<Selection>) {
    && |states| == |reqs| + 1 && |results| == |reqs|
    && (forall i :: 0 <= i < |reqs| ==> Counts(states[i], results[i], reqs[i].at))
    && (forall i :: 0 <= i < |reqs| ==> Places(c, states[i], reqs[i].room, reqs[i].at, results[i], states[i + 1]))
  }

  function Placed(results: seq<Selection>, id: string): (r: nat) {
    if results == [] then 0
    else
      var last := results[|results| - 1];
      Placed(results[..|results| - 1], id) + if last.Selected? && last.id == id && last.reason != Assigned then 1 else 0
  }

  lemma StepCounts(c: Cluster, st: State, room: string, now: int, r: Selection, st': State, id: string)
    requires Places(c, st, room, now, r, st') && Counts(st, r, now)
    ensures PendingOf(st'.pending, id) == PendingOf(st.pending, id) + Placed([r], id)
  {
    assert [r][..0] == [];
    if st' != st {
      var ch :| PlacesBy(c, st, room, now, r, st', ch);
      assert ch.reason != Assigned;
    }
    hide Candidates, Least;
  }

  lemma {:induction false} PendingCountsPlacements(c: Cluster, states: seq<State>, reqs: seq<Request>, results: seq<Selection>, id: string)
    requires Placements(c, states, reqs, results)
    ensures PendingOf(states[|reqs|].pending, id) == PendingOf(states[0].pending, id) + Placed(results, id)
    decreases |reqs|
  {
    var n := |reqs|;
    if n > 0 {
      PendingCountsPlacements(c, states[..n], reqs[..n - 1], results[..n - 1], id);
      StepCounts(c, states[n - 1], reqs[n - 1].room, reqs[n - 1].at, results[n - 1], states[n], id);
      assert [results[n - 1]][..0] == [];
      hide Places, PendingOf, Counts;
    }
  }

  // ------------------------------------------------------------------
  // Placements spread
  // ------------------------------------------------------------------

  function Load(c: Cluster, st: State, id: string): (r: real) {
    Score(Effective(c.policy.weights), Corrected(c.byId, st.pending, id))
  }

  /** What one placement adds to a node's score. */
  function Bump(p: Policy): (r: real) { Effective(p.weights).participant + Effective(p.weights).room }

  ghost predicate SpreadWithin(c: Cluster, st: State, d: real) {
    forall a, b :: a in c.nodes && b in c.nodes && Eligible(a) && Eligible(b) ==> Load(c, st, a.id) - Load(c, st, b.id) <= d
  }

  predicate Unlimited(cap: Capacity) { cap.maxRooms <= 0 && cap.maxParticipants <= 0 && cap.maxPublications <= 0 }

  lemma ScoreOfMore(w: Weights, l: NodeLoad, n: nat)
    ensures Score(w, l.(rooms := l.rooms + n, participants := l.participants + n))
            == Score(w, l) + n as real * (w.participant + w.room)
  {
  }

  lemma LoadAfter(c: Cluster, st: State, st': State, id: string, n: nat)
    requires PendingOf(st'.pending, id) == PendingOf(st.pending, id) + n
    ensures Load(c, st', id) == Load(c, st, id) + n as real * Bump(c.policy)
  {
    var was := Corrected(c.byId, st.pending, id);
    ScoreOfMore(Effective(c.policy.weights), was, n);
    assert Corrected(c.byId, st'.pending, id) == was.(rooms := was.rooms + n, participants := was.participants + n);
    hide Score;
  }

  /** The chosen node is within the local margin of every eligible node. */
  lemma ChosenIsNearMinimum(c: Cluster, st: State, ch: Choice, b: Node)
    requires Keyed(c) && Unlimited(c.cap) && Called(c.policy, Candidates(c.nodes, c, st.pending), ch)
    requires b in c.nodes && Eligible(b)
    ensures Load(c, st, ch.load.id) <= Load(c, st, b.id) + Slack(c.policy)
  {
    var s := Candidates(c.nodes, c, st.pending);
    var l := Corrected(c.byId, st.pending, b.id);
    assert l in s;
    ChoiceIsNearMinimum(c.policy, s, ch, l);
    var n :| n in c.nodes && Eligible(n) && ch.load == Corrected(c.byId, st.pending, n.id);
    assert n.id == ch.load.id;
    hide Score, Called;
  }

  lemma StepKeepsSpread(c: Cluster, st: State, room: string, now: int, r: Selection, st': State, d: real)
    requires Places(c, st, room, now, r, st') && Counts(st, r, now)
    requires Keyed(c) && Unlimited(c.cap) && SpreadWithin(c, st, d)
    requires 0.0 <= Bump(c.policy) && Slack(c.policy) + Bump(c.policy) <= d
    ensures SpreadWithin(c, st', d)
  {
    if st' != st {
      var ch :| PlacesBy(c, st, room, now, r, st', ch);
      forall a, b | a in c.nodes && b in c.nodes && Eligible(a) && Eligible(b)
        ensures Load(c, st', a.id) - Load(c, st', b.id) <= d
      {
        ChosenIsNearMinimum(c, st, ch, b);
        MovedBy(c, st, room, now, r, st', ch, a.id);
        MovedBy(c, st, room, now, r, st', ch, b.id);
        hide Load, Called, Candidates, Bump, Slack, Noted, Places, PlacesBy;
      }
    }
    hide Load, Called, Candidates, Bump, Slack, Noted, Places, PlacesBy;
  }

  lemma MovedBy(c: Cluster, st: State, room: string, now: int, r: Selection, st': State, ch: Choice, id: string)
    requires PlacesBy(c, st, room, now, r, st', ch) && Counts(st, r, now)
    ensures Load(c, st', id) == Load(c, st, id) + if id == ch.load.id then Bump(c.policy) else 0.0
  {
    LoadAfter(c, st, st', id, if id == ch.load.id then 1 else 0);
    hide Load, Called, Candidates, Bump;
  }

  /** However many rooms are placed, the scores of the eligible nodes stay as close together as they
      were, or as the local margin plus one placement, whichever is wider. */
  lemma {:induction false} PlacementsKeepSpread(c: Cluster, states: seq<State>, reqs: seq<Request>, results: seq<Selection>, d: real)
    requires Placements(c, states, reqs, results)
    requires Keyed(c) && Unlimited(c.cap) && SpreadWithin(c, states[0], d)
    requires 0.0 <= Bump(c.policy) && Slack(c.policy) + Bump(c.policy) <= d
    ensures SpreadWithin(c, states[|reqs|], d)
    decreases |reqs|
  {
    var n := |reqs|;
    if n > 0 {
      PlacementsKeepSpread(c, states[..n], reqs[..n - 1], results[..n - 1], d);
      StepKeepsSpread(c, states[n - 1], reqs[n - 1].room, reqs[n - 1].at, results[n - 1], states[n], d);
      hide Places, SpreadWithin, Counts;
    }
  }

  /** With the weights and margin the cluster is built with, the bound is seven points. */
  lemma ShippedSpreadIsSeven(c: Cluster, states: seq<State>, reqs: seq<Request>, results: seq<Selection>, initial: real)
    requires Placements(c, states, reqs, results) && Keyed(c) && Unlimited(c.cap)
    requires c.policy.weights == DefaultWeights() && c.policy.margin == 4.0
    requires SpreadWithin(c, states[0], initial)
    ensures SpreadWithin(c, states[|reqs|], if initial > 7.0 then initial else 7.0)
  {
    var d := if initial > 7.0 then initial else 7.0;
    assert SpreadWithin(c, states[0], d) by { hide Load; }
    PlacementsKeepSpread(c, states, reqs, results, d);
    hide Placements, SpreadWithin;
  }

  // ------------------------------------------------------------------
  // Placements stay within capacity
  // ------------------------------------------------------------------

  function Rooms(c: Cluster, id: string): (r: nat) { if id in c.byId then c.byId[id].rooms else 0 }

  function Participants(c: Cluster, id: string): (r: nat) { if id in c.byId then c.byId[id].participants else 0 }

  lemma PlacementLeavesRoom(c: Cluster, st: State, room: string, now: int, r: Selection, st': State, id: string)
    requires Keyed(c) && Places(c, st, room, now, r, st') && Placed([r], id) > 0
    ensures c.cap.maxRooms > 0 ==> (Rooms(c, id) + PendingOf(st.pending, id)) as real < Limit(c.cap, c.cap.maxRooms)
    ensures c.cap.maxParticipants > 0 ==> (Participants(c, id) + PendingOf(st.pending, id)) as real < Limit(c.cap, c.cap.maxParticipants)
  {
    assert [r][..0] == [];
    ChosenNodeHasRoom(c, st, room, now, r, st');
    hide Places, Limit;
  }

  /** Counting the reported rooms and the ones placed since, the router never takes a node more than one
      placement past the last count below its hard limit: with whole limits, never past the limit. */
  lemma {:induction false} PlacementsStayWithinCapacity(c: Cluster, states: seq<State>, reqs: seq<Request>, results: seq<Selection>, id: string)
    requires Placements(c, states, reqs, results) && Keyed(c) && Placed(results, id) > 0
    ensures var total := PendingOf(states[0].pending, id) + Placed(results, id);
      && (c.cap.maxRooms > 0 ==> (Rooms(c, id) + total) as real < Limit(c.cap, c.cap.maxRooms) + 1.0)
      && (c.cap.maxParticipants > 0 ==> (Participants(c, id) + total) as real < Limit(c.cap, c.cap.maxParticipants) + 1.0)
    decreases |reqs|
  {
    var n := |reqs|;
    var rest := results[..n - 1];
    assert [results[n - 1]][..0] == [];
    assert Placed(results, id) == Placed(rest, id) + Placed([results[n - 1]], id);
    if Placed([results[n - 1]], id) > 0 {
      PendingCountsPlacements(c, states[..n], reqs[..n - 1], rest, id);
      PlacementLeavesRoom(c, states[n - 1], reqs[n - 1].room, reqs[n - 1].at, results[n - 1], states[n], id);
    } else {
      PlacementsStayWithinCapacity(c, states[..n], reqs[..n - 1], rest, id);
    }
    hide Places, Limit;
  }
}
