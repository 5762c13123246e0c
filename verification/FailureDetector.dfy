/** The failure detector: one scan per check interval over the registry's nodes, with a grace
    period between the first miss and the verdict. Times are integer clock readings. */
module FailureDetector {
  import opened Wrappers

  datatype NodeState = Starting | Ready | Active | ShuttingDown | Offline

  datatype NodeInfo = NodeInfo(id: string, state: NodeState, lastSeen: int)

  /** The registry's clock test; a non-positive window turns it off. */
  predicate PastWindow(n: NodeInfo, staleAfter: int, now: int) {
    staleAfter > 0 && now - n.lastSeen > staleAfter
  }

  predicate Misses(n: NodeInfo, staleAfter: int, now: int) {
    PastWindow(n, staleAfter, now) || n.state == Offline
  }

  datatype Watch = Watch(firstMissed: map<string, int>, stale: set<string>)

  /** One node's turn in a scan. */
  function Inspect(w: Watch, n: NodeInfo, missing: bool, now: int, grace: int): (w': Watch) {
    if !missing then Watch(w.firstMissed - {n.id}, w.stale - {n.id})
    else
      var first := if n.id in w.firstMissed then w.firstMissed[n.id] else now;
      Watch(w.firstMissed[n.id := first], if now - first < grace then w.stale else w.stale + {n.id})
  }

  function ScanAll(w: Watch, nodes: seq<NodeInfo>, self: string, staleAfter: int, now: int, grace: int): (w': Watch) {
    if nodes == [] then w
    else
      var before := ScanAll(w, nodes[..|nodes| - 1], self, staleAfter, now, grace);
      var n := nodes[|nodes| - 1];
      Inspect(before, n, n.id != self && Misses(n, staleAfter, now), now, grace)
  }

  ghost predicate DistinctIds(nodes: seq<NodeInfo>) {
    forall i, j :: 0 <= i < j < |nodes| ==> nodes[i].id != nodes[j].id
  }

  class Detector {
    const self: string
    const staleAfter: int
    const grace: int
    var firstMissed: map<string, int>
    var stale: set<string>

    ghost function State(): (r: Watch)
      reads this
    {
      Watch(firstMissed, stale)
    }

    constructor (self: string, staleAfter: int, grace: int)
      ensures State() == Watch(map[], {}) && this.self == self && this.staleAfter == staleAfter
      ensures this.grace == if grace < 0 then 0 else grace
    {
      this.self, this.staleAfter := self, staleAfter;
      this.grace := if grace < 0 then 0 else grace;
      firstMissed, stale := map[], {};
    }

    /** A pass over the registry. An untrusted backend changes no verdict. Every node reported is
        newly stale, and every newly stale node is reported. */
    method Scan(nodes: seq<NodeInfo>, backendOK: bool, now: int) returns (newlyStale: seq<string>)
      requires DistinctIds(nodes)
      modifies this
      ensures State() == if backendOK then ScanAll(old(State()), nodes, self, staleAfter, now, grace) else old(State())
      ensures forall id :: id in newlyStale <==> id in stale && id !in old(stale)
      ensures forall i, j :: 0 <= i < j < |newlyStale| ==> newlyStale[i] != newlyStale[j]
    {
      newlyStale := [];
      if !backendOK { return; }
      assert nodes[..|nodes|] == nodes;
      for i := 0 to |nodes|
        invariant State() == ScanAll(old(State()), nodes[..i], self, staleAfter, now, grace)
        invariant forall id :: id in newlyStale <==> id in stale && id !in old(stale)
        invariant forall id :: id in newlyStale ==> exists k :: 0 <= k < i && nodes[k].id == id
        invariant forall id :: (forall k :: 0 <= k < i ==> nodes[k].id != id) ==> (id in stale <==> id in old(stale))
        invariant forall j, k :: 0 <= j < k < |newlyStale| ==> newlyStale[j] != newlyStale[k]
      {
        var n := nodes[i];
        assert nodes[..i + 1][..i] == nodes[..i];
        if n.id == self {
          firstMissed := firstMissed - {n.id};
          stale := stale - {n.id};
          continue;
        }
        var missing := PastWindow(n, staleAfter, now) || n.state == Offline;
        if !missing {
          firstMissed := firstMissed - {n.id};
          stale := stale - {n.id};
          continue;
        }
        if n.id !in firstMissed {
          firstMissed := firstMissed[n.id := now];
        }
        if now - firstMissed[n.id] < grace { continue; }
        if n.id in stale { continue; }
        stale := stale + {n.id};
        newlyStale := newlyStale + [n.id];
      }
    }

    method IsStale(id: string, registry: map<string, NodeInfo>) returns (r: bool)
      ensures r == CallsStale(State(), id, registry)
      ensures r <==> id in stale || id !in registry || registry[id].state == Offline
    {
      if id in stale { return true; }
      if id !in registry { return true; }
      return registry[id].state == Offline;
    }
  }

  /** IsStale: marked, or gone from the registry, or announced OFFLINE. */
  predicate CallsStale(w: Watch, id: string, registry: map<string, NodeInfo>) {
    id in w.stale || id !in registry || registry[id].state == Offline
  }

  // ------------------------------------------------------------------
  // What a scan means for one node
  // ------------------------------------------------------------------

  datatype Sighting = Absent | Seen | Missed

  datatype Mark = Mark(first: Option<int>, stale: bool)

  function MarkOf(w: Watch, id: string): (r: Mark) {
    Mark(if id in w.firstMissed then Some(w.firstMissed[id]) else None, id in w.stale)
  }

  function Sight(nodes: seq<NodeInfo>, id: string, self: string, staleAfter: int, now: int): (r: Sighting) {
    if nodes == [] then Absent
    else
      var n := nodes[|nodes| - 1];
      if n.id == id then (if n.id != self && Misses(n, staleAfter, now) then Missed else Seen)
      else Sight(nodes[..|nodes| - 1], id, self, staleAfter, now)
  }

  function Judge(m: Mark, s: Sighting, now: int, grace: int): (r: Mark) {
    match s
    case Absent => m
    case Seen => Mark(None, false)
    case Missed =>
      var first := if m.first.Some? then m.first.value else now;
      Mark(Some(first), m.stale || now - first >= grace)
  }

  /** A scan judges each node on its own sighting and leaves the others alone. */
  lemma {:induction false} ScanJudgesEachNode(w: Watch, nodes: seq<NodeInfo>, id: string, self: string, staleAfter: int, now: int, grace: int)
    requires DistinctIds(nodes)
    ensures MarkOf(ScanAll(w, nodes, self, staleAfter, now, grace), id)
         == Judge(MarkOf(w, id), Sight(nodes, id, self, staleAfter, now), now, grace)
    ensures Sight(nodes, id, self, staleAfter, now) == Absent <==> forall k :: 0 <= k < |nodes| ==> nodes[k].id != id
  {
    if nodes != [] {
      ScanJudgesEachNode(w, nodes[..|nodes| - 1], id, self, staleAfter, now, grace);
    }
  }

  datatype Look = Look(what: Sighting, at: int)

  function Verdict(looks: seq<Look>, grace: int): (m: Mark) {
    if looks == [] then Mark(None, false)
    else
      var last := looks[|looks| - 1];
      Judge(Verdict(looks[..|looks| - 1], grace), last.what, last.at, grace)
  }

  ghost predicate ClockForward(looks: seq<Look>) {
    forall i, j :: 0 <= i < j < |looks| ==> looks[i].at <= looks[j].at
  }

  ghost predicate NeverSeenFrom(looks: seq<Look>, i: nat) {
    forall k :: i <= k < |looks| ==> looks[k].what != Seen
  }

  /** Two misses at least the grace period apart, and no healthy sighting from the first on. */
  ghost predicate MissedForGrace(looks: seq<Look>, grace: int) {
    exists i: nat, j: nat :: GracePair(looks, grace, i, j)
  }

  /** `first` is the time of the earliest miss since the last healthy sighting. */
  ghost predicate FirstMissIs(looks: seq<Look>, first: Option<int>) {
    match first
    case None => forall i :: 0 <= i < |looks| && looks[i].what == Missed ==> !NeverSeenFrom(looks, i)
    case Some(t) =>
      && (exists i :: 0 <= i < |looks| && looks[i].what == Missed && looks[i].at == t && NeverSeenFrom(looks, i))
      && (forall i :: 0 <= i < |looks| && looks[i].what == Missed && NeverSeenFrom(looks, i) ==> t <= looks[i].at)
  }

  lemma NeverSeenExtends(looks: seq<Look>, i: nat)
    requires looks != [] && i < |looks|
    ensures NeverSeenFrom(looks, i) <==>
              looks[|looks| - 1].what != Seen && NeverSeenFrom(looks[..|looks| - 1], i)
  {
    var before := looks[..|looks| - 1];
    assert forall k :: 0 <= k < |before| ==> before[k] == looks[k];
  }

  lemma {:induction false} FirstMissCorrect(looks: seq<Look>, grace: int)
    requires ClockForward(looks)
    ensures FirstMissIs(looks, Verdict(looks, grace).first)
  {
    if looks != [] {
      var before, last := looks[..|looks| - 1], looks[|looks| - 1];
      FirstMissCorrect(before, grace);
      forall i: nat | i < |looks| { NeverSeenExtends(looks, i); }
      var was := Verdict(before, grace).first;
      match last.what
      case Seen =>
      case Absent =>
        if was.Some? {
          var i :| 0 <= i < |before| && before[i].what == Missed && before[i].at == was.value && NeverSeenFrom(before, i);
          assert looks[i] == before[i] && NeverSeenFrom(looks, i);
        }
      case Missed =>
        assert NeverSeenFrom(looks, |looks| - 1);
        if was.Some? {
          var i :| 0 <= i < |before| && before[i].what == Missed && before[i].at == was.value && NeverSeenFrom(before, i);
          assert looks[i] == before[i] && NeverSeenFrom(looks, i);
        }
    }
  }

  ghost predicate GracePair(looks: seq<Look>, grace: int, i: nat, j: nat) {
    && i <= j < |looks| && looks[i].what == Missed && looks[j].what == Missed
    && looks[j].at - looks[i].at >= grace && NeverSeenFrom(looks, i)
  }

  /** A pair found earlier still counts unless the node has just been seen healthy. */
  lemma PairSurvives(looks: seq<Look>, grace: int)
    requires looks != [] && looks[|looks| - 1].what != Seen && MissedForGrace(looks[..|looks| - 1], grace)
    ensures MissedForGrace(looks, grace)
  {
    var before := looks[..|looks| - 1];
    var i: nat, j: nat :| GracePair(before, grace, i, j);
    NeverSeenExtends(looks, i);
    assert GracePair(looks, grace, i, j);
  }

  /** A new pair can only end at the newest look, and the earliest miss serves as its start. */
  lemma NewPair(looks: seq<Look>, grace: int, first: Option<int>)
    requires looks != [] && FirstMissIs(looks, first)
    requires !MissedForGrace(looks[..|looks| - 1], grace)
    ensures MissedForGrace(looks, grace) <==>
              looks[|looks| - 1].what == Missed && looks[|looks| - 1].at - first.value >= grace
  {
    var before, end := looks[..|looks| - 1], |looks| - 1;
    if MissedForGrace(looks, grace) {
      var i: nat, j: nat :| GracePair(looks, grace, i, j);
      if j < end {
        NeverSeenExtends(looks, i);
        assert GracePair(before, grace, i, j);
      }
    }
    if looks[end].what == Missed {
      assert NeverSeenFrom(looks, end);
      var i :| 0 <= i < |looks| && looks[i].what == Missed && looks[i].at == first.value && NeverSeenFrom(looks, i);
      if looks[end].at - first.value >= grace { assert GracePair(looks, grace, i, end); }
    }
  }

  /** A node is marked stale after a series of scans exactly when two misses at least the grace
      period apart were seen with no healthy sighting from the first of them on. */
  lemma {:induction false} StaleExactlyAfterGrace(looks: seq<Look>, grace: int)
    requires ClockForward(looks) && grace >= 0
    ensures Verdict(looks, grace).stale <==> MissedForGrace(looks, grace)
  {
    if looks != [] {
      var before, last := looks[..|looks| - 1], looks[|looks| - 1];
      StaleExactlyAfterGrace(before, grace);
      FirstMissCorrect(looks, grace);
      if last.what == Seen {
        assert forall i: nat, j: nat :: !GracePair(looks, grace, i, j);
      } else if MissedForGrace(before, grace) {
        PairSurvives(looks, grace);
      } else {
        NewPair(looks, grace, Verdict(looks, grace).first);
      }
    }
  }

  // ------------------------------------------------------------------
  // A series of scans
  // ------------------------------------------------------------------

  /** What one pass finds: the registry's listing and whether the backend is trusted. */
  datatype Pass = Pass(nodes: seq<NodeInfo>, trusted: bool, now: int)

  function ScanSeries(passes: seq<Pass>, self: string, staleAfter: int, grace: int): (w: Watch) {
    if passes == [] then Watch(map[], {})
    else
      var before, p := ScanSeries(passes[..|passes| - 1], self, staleAfter, grace), passes[|passes| - 1];
      if p.trusted then ScanAll(before, p.nodes, self, staleAfter, p.now, grace) else before
  }

  /** The sightings of one node, one for each trusted pass. */
  function LooksAt(passes: seq<Pass>, id: string, self: string, staleAfter: int): (looks: seq<Look>)
    ensures forall l :: l in looks ==> exists i :: 0 <= i < |passes| && passes[i].now == l.at
  {
    if passes == [] then []
    else
      var p := passes[|passes| - 1];
      LooksAt(passes[..|passes| - 1], id, self, staleAfter)
      + if p.trusted then [Look(Sight(p.nodes, id, self, staleAfter, p.now), p.now)] else []
  }

  ghost predicate Orderly(passes: seq<Pass>) {
    && (forall i :: 0 <= i < |passes| ==> DistinctIds(passes[i].nodes))
    && (forall i, j :: 0 <= i < j < |passes| ==> passes[i].now <= passes[j].now)
  }

  lemma {:induction false} SeriesIsVerdict(passes: seq<Pass>, id: string, self: string, staleAfter: int, grace: int)
    requires Orderly(passes)
    ensures MarkOf(ScanSeries(passes, self, staleAfter, grace), id) == Verdict(LooksAt(passes, id, self, staleAfter), grace)
    ensures ClockForward(LooksAt(passes, id, self, staleAfter))
  {
    if passes != [] {
      var before, p := passes[..|passes| - 1], passes[|passes| - 1];
      SeriesIsVerdict(before, id, self, staleAfter, grace);
      var looks, all := LooksAt(before, id, self, staleAfter), LooksAt(passes, id, self, staleAfter);
      if p.trusted {
        ScanJudgesEachNode(ScanSeries(before, self, staleAfter, grace), p.nodes, id, self, staleAfter, p.now, grace);
        assert all == looks + [Look(Sight(p.nodes, id, self, staleAfter, p.now), p.now)];
        assert all[..|looks|] == looks;
        assert forall i :: 0 <= i < |looks| ==> looks[i] in looks;
        hide LooksAt, ScanAll, MarkOf, Sight, Judge;
      } else {
        assert all == looks;
        hide LooksAt, ScanAll, MarkOf, Sight, Judge;
      }
    }
  }

  /** After any series of scans a node is marked exactly when two misses at least the grace period
      apart were seen with no healthy sighting from the first of them on. */
  lemma MarkedExactlyAfterGrace(passes: seq<Pass>, id: string, self: string, staleAfter: int, grace: int)
    requires Orderly(passes) && grace >= 0
    ensures id in ScanSeries(passes, self, staleAfter, grace).stale <==> MissedForGrace(LooksAt(passes, id, self, staleAfter), grace)
  {
    SeriesIsVerdict(passes, id, self, staleAfter, grace);
    StaleExactlyAfterGrace(LooksAt(passes, id, self, staleAfter), grace);
    hide MissedForGrace, LooksAt, ScanSeries, Verdict;
  }

  /** A node is missed exactly when it is listed, is not the observer, and is OFFLINE or, with the clock
      test on, silent for longer than the window. */
  lemma {:induction false} MissedExactly(nodes: seq<NodeInfo>, id: string, self: string, staleAfter: int, now: int)
    requires DistinctIds(nodes)
    ensures Sight(nodes, id, self, staleAfter, now) == Missed <==>
      exists k :: 0 <= k < |nodes| && nodes[k].id == id != self && (nodes[k].state == Offline || (staleAfter > 0 && now - nodes[k].lastSeen > staleAfter))
    ensures Sight(nodes, id, self, staleAfter, now) == Seen <==>
      exists k :: 0 <= k < |nodes| && nodes[k].id == id && (id == self || (nodes[k].state != Offline && (staleAfter <= 0 || now - nodes[k].lastSeen <= staleAfter)))
  {
    if nodes != [] {
      var before := nodes[..|nodes| - 1];
      MissedExactly(before, id, self, staleAfter, now);
      assert forall k :: 0 <= k < |before| ==> before[k] == nodes[k];
    }
  }
}
