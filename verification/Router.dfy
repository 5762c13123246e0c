/** Where a new room is created: scoring nodes, keeping rooms local when that costs little, and
    correcting a stale load report by the rooms already placed in the current burst. */
module Router {
  import opened Wrappers

  datatype NodeLoad = NodeLoad(id: string, rooms: nat, participants: nat, publications: nat, subscriptions: nat)

  datatype Weights = Weights(participant: real, publication: real, subscription: real, room: real)

  datatype Policy = Policy(weights: Weights, margin: real, local: string)

  datatype Reason = Local | LeastLoaded | Assigned

  datatype Choice = Choice(load: NodeLoad, reason: Reason)

  // ------------------------------------------------------------------
  // Ordering
  // ------------------------------------------------------------------

  /** Byte-wise string order. */
  predicate Before(a: string, b: string) {
    b != [] && (a == [] || a[0] < b[0] || (a[0] == b[0] && Before(a[1..], b[1..])))
  }

  lemma {:induction false} BeforeIsTotal(a: string, b: string)
    ensures a == b || Before(a, b) || Before(b, a)
  {
    if a != [] && b != [] && a[0] == b[0] {
      BeforeIsTotal(a[1..], b[1..]);
      assert a == [a[0]] + a[1..] && b == [b[0]] + b[1..];
    }
  }

  lemma {:induction false} BeforeIsStrict(a: string, b: string, c: string)
    ensures !Before(a, a)
    ensures Before(a, b) && Before(b, c) ==> Before(a, c)
    decreases |a| + |b| + |c|
  {
    if a != [] {
      BeforeIsStrict(a[1..], if b == [] then b else b[1..], if c == [] then c else c[1..]);
    }
  }

  function DefaultWeights(): (r: Weights) { Weights(1.0, 0.5, 0.25, 2.0) }

  function Effective(w: Weights): (r: Weights) { if w == Weights(0.0, 0.0, 0.0, 0.0) then DefaultWeights() else w }

  function Score(w: Weights, l: NodeLoad): (r: real) {
    l.participants as real * w.participant + l.publications as real * w.publication
    + l.subscriptions as real * w.subscription + l.rooms as real * w.room
  }

  predicate Ahead(w: Weights, a: NodeLoad, b: NodeLoad) {
    if Score(w, a) != Score(w, b) then Score(w, a) < Score(w, b) else Before(a.id, b.id)
  }

  predicate Sorted(w: Weights, s: seq<NodeLoad>) {
    forall i, j :: 0 <= i < j < |s| ==> !Ahead(w, s[j], s[i])
  }

  lemma AheadIsStrict(w: Weights, a: NodeLoad, b: NodeLoad, c: NodeLoad)
    ensures !Ahead(w, a, a)
    ensures Ahead(w, a, b) ==> !Ahead(w, b, a)
    ensures Ahead(w, a, b) && !Ahead(w, c, b) ==> !Ahead(w, c, a)
  {
    BeforeIsStrict(a.id, b.id, a.id);
    BeforeIsStrict(c.id, a.id, b.id);
    hide Score, Before;
  }

  function Insert(w: Weights, x: NodeLoad, s: seq<NodeLoad>): (r: seq<NodeLoad>)
    requires Sorted(w, s)
    ensures multiset(r) == multiset(s) + multiset{x}
    ensures Sorted(w, r)
  {
    if s == [] then [x]
    else if Ahead(w, x, s[0]) then
      InsertFront(w, x, s);
      [x] + s
    else
      var rest := Insert(w, x, s[1..]);
      assert s == [s[0]] + s[1..];
      MembersOf(rest, s[1..], x);
      assert forall j :: 0 <= j < |rest| ==> !Ahead(w, rest[j], s[0]) by {
        forall j | 0 <= j < |rest| ensures !Ahead(w, rest[j], s[0]) { assert rest[j] in rest; }
      }
      [s[0]] + rest
  }

  lemma InsertFront(w: Weights, x: NodeLoad, s: seq<NodeLoad>)
    requires s != [] && Sorted(w, s) && Ahead(w, x, s[0])
    ensures forall j :: 0 <= j < |s| ==> !Ahead(w, s[j], x)
  {
    forall j | 0 <= j < |s| ensures !Ahead(w, s[j], x) {
      AheadIsStrict(w, x, s[0], s[j]);
      hide Ahead;
    }
  }

  lemma MembersOf(r: seq<NodeLoad>, s: seq<NodeLoad>, x: NodeLoad)
    requires multiset(r) == multiset(s) + multiset{x}
    ensures forall y :: y in r <==> y in s || y == x
  {
    forall y ensures y in r <==> y in s || y == x { assert y in r <==> y in multiset(r); }
  }

  function SortLoads(w: Weights, s: seq<NodeLoad>): (r: seq<NodeLoad>)
    ensures multiset(r) == multiset(s) && Sorted(w, r)
  {
    if s == [] then []
    else
      assert s == s[..|s| - 1] + [s[|s| - 1]];
      Insert(w, s[|s| - 1], SortLoads(w, s[..|s| - 1]))
  }

  // ------------------------------------------------------------------
  // The policy
  // ------------------------------------------------------------------

  predicate DistinctIds(s: seq<NodeLoad>) {
    forall i, j :: 0 <= i < j < |s| ==> s[i].id != s[j].id
  }

  ghost predicate Least(w: Weights, s: seq<NodeLoad>, best: NodeLoad) {
    best in s && forall c :: c in s ==> !Ahead(w, c, best)
  }

  /** The choice a set of candidates calls for, without mention of any order: the local node if it is
      within the margin of the least loaded, else the least loaded. */
  ghost predicate Called(p: Policy, s: seq<NodeLoad>, c: Choice) {
    var w := Effective(p.weights);
    exists best :: Least(w, s, best) && CalledOver(p, s, best, c)
  }

  ghost predicate CalledOver(p: Policy, s: seq<NodeLoad>, best: NodeLoad, c: Choice) {
    var w := Effective(p.weights);
    if c.reason == Local then
      p.local != "" && c.load in s && c.load.id == p.local && Score(w, c.load) <= Score(w, best) + p.margin
    else
      && c.reason == LeastLoaded && c.load == best
      && forall l :: l in s && l.id == p.local && p.local != "" ==> Score(w, l) > Score(w, best) + p.margin
  }

  lemma CallsLocal(p: Policy, s: seq<NodeLoad>, best: NodeLoad, l: NodeLoad)
    requires Least(Effective(p.weights), s, best) && p.local != "" && l in s && l.id == p.local
    requires Score(Effective(p.weights), l) <= Score(Effective(p.weights), best) + p.margin
    ensures Called(p, s, Choice(l, Local))
  {
    assert CalledOver(p, s, best, Choice(l, Local));
  }

  lemma CallsLeast(p: Policy, s: seq<NodeLoad>, best: NodeLoad)
    requires Least(Effective(p.weights), s, best)
    requires p.local != "" ==> forall l :: l in s && l.id == p.local ==>
      Score(Effective(p.weights), l) > Score(Effective(p.weights), best) + p.margin
    ensures Called(p, s, Choice(best, LeastLoaded))
  {
    assert CalledOver(p, s, best, Choice(best, LeastLoaded));
  }

  /** Past the first local entry of a sorted list no local entry scores less. */
  lemma FirstLocalIsLeast(w: Weights, sorted: seq<NodeLoad>, i: nat, l: NodeLoad)
    requires Sorted(w, sorted) && i < |sorted| && l in sorted && l.id == sorted[i].id
    requires forall j :: 0 <= j < i ==> sorted[j].id != sorted[i].id
    ensures Score(w, l) >= Score(w, sorted[i])
  {
    var j :| 0 <= j < |sorted| && sorted[j] == l;
    assert j == i || !Ahead(w, sorted[j], sorted[i]);
  }

  /** No candidate, no choice; otherwise the choice the candidates call for. */
  method Select(p: Policy, candidates: seq<NodeLoad>) returns (r: Option<Choice>)
    ensures r.None? <==> candidates == []
    ensures r.Some? ==> Called(p, candidates, r.value)
  {
    hide Score, Ahead, Before, SortLoads, Effective, Called, CalledOver, Sorted, Least;
    if candidates == [] { return None; }
    var w := Effective(p.weights);
    var sorted := SortLoads(w, candidates);
    SameMembers(sorted, candidates);
    var best := sorted[0];
    FrontIsLeast(w, sorted);
    LeastOfSame(w, sorted, candidates, best);
    if p.local != "" {
      for i := 0 to |sorted|
        invariant forall j :: 0 <= j < i ==> sorted[j].id != p.local
      {
        if sorted[i].id == p.local {
          if Score(w, sorted[i]) <= Score(w, best) + p.margin {
            CallsLocal(p, candidates, best, sorted[i]);
            return Some(Choice(sorted[i], Local));
          }
          forall l | l in candidates && l.id == p.local ensures Score(w, l) > Score(w, best) + p.margin {
            FirstLocalIsLeast(w, sorted, i, l);
          }
          CallsLeast(p, candidates, best);
          return Some(Choice(best, LeastLoaded));
        }
      }
      assert forall l :: l in candidates ==> l.id != p.local;
    }
    CallsLeast(p, candidates, best);
    return Some(Choice(best, LeastLoaded));
  }

  lemma LeastOfSame(w: Weights, s: seq<NodeLoad>, t: seq<NodeLoad>, best: NodeLoad)
    requires multiset(s) == multiset(t) && Least(w, s, best)
    ensures Least(w, t, best)
  {
    SameMembers(s, t);
    hide Ahead;
  }

  lemma SameMembers(a: seq<NodeLoad>, b: seq<NodeLoad>)
    requires multiset(a) == multiset(b)
    ensures |a| == |b| && forall x :: x in a <==> x in b
  {
    assert |multiset(a)| == |a| && |multiset(b)| == |b|;
    forall x ensures x in a <==> x in b { assert x in a <==> x in multiset(a); }
  }

  lemma FrontIsLeast(w: Weights, s: seq<NodeLoad>)
    requires s != [] && Sorted(w, s)
    ensures Least(w, s, s[0])
  {
    AheadIsStrict(w, s[0], s[0], s[0]);
    hide Ahead;
  }

  lemma LeastIsUnique(w: Weights, s: seq<NodeLoad>, a: NodeLoad, b: NodeLoad)
    requires DistinctIds(s) && Least(w, s, a) && Least(w, s, b)
    ensures a == b
  {
    BeforeIsTotal(a.id, b.id);
  }

  /** With distinct node ids the choice depends on which candidates there are, not on their order. */
  lemma ChoiceIgnoresOrder(p: Policy, s: seq<NodeLoad>, t: seq<NodeLoad>, c: Choice, d: Choice)
    requires DistinctIds(s) && multiset(s) == multiset(t)
    requires Called(p, s, c) && Called(p, t, d)
    ensures c == d
  {
    SameMembers(s, t);
    var w := Effective(p.weights);
    var a :| Least(w, s, a) && CalledOver(p, s, a, c);
    var b :| Least(w, t, b) && CalledOver(p, t, b, d);
    LeastIsUnique(w, s, a, b);
    hide Score, Effective;
  }

  function Slack(p: Policy): (r: real) { if p.margin > 0.0 then p.margin else 0.0 }

  /** Whatever is chosen is within the local margin of every candidate. */
  lemma ChoiceIsNearMinimum(p: Policy, s: seq<NodeLoad>, c: Choice, l: NodeLoad)
    requires Called(p, s, c) && l in s
    ensures c.load in s && Score(Effective(p.weights), c.load) <= Score(Effective(p.weights), l) + Slack(p)
  {
    var w := Effective(p.weights);
    var best :| Least(w, s, best) && CalledOver(p, s, best, c);
    assert !Ahead(w, l, best);
    hide Effective;
  }

  // ------------------------------------------------------------------
  // What the score and the order mean
  // ------------------------------------------------------------------

  lemma OneMore(n: nat, x: real)
    ensures (n + 1) as real * x == n as real * x + x
  {
    assert (n + 1) as real == n as real + 1.0;
  }

  /** An empty node scores nothing and each thing on a node adds its own weight. All-zero weights stand
      for one a participant, a half a publication, a quarter a subscription and two a room. */
  lemma EachAddsItsWeight(w: Weights, l: NodeLoad)
    ensures Score(w, NodeLoad(l.id, 0, 0, 0, 0)) == 0.0
    ensures Score(w, l.(participants := l.participants + 1)) == Score(w, l) + w.participant
    ensures Score(w, l.(publications := l.publications + 1)) == Score(w, l) + w.publication
    ensures Score(w, l.(subscriptions := l.subscriptions + 1)) == Score(w, l) + w.subscription
    ensures Score(w, l.(rooms := l.rooms + 1)) == Score(w, l) + w.room
    ensures Effective(w) == if w.participant == w.publication == w.subscription == w.room == 0.0 then Weights(1.0, 0.5, 0.25, 2.0) else w
  {
    OneMore(l.participants, w.participant);
    OneMore(l.publications, w.publication);
    OneMore(l.subscriptions, w.subscription);
    OneMore(l.rooms, w.room);
  }

  /** The strings agree up to `i`, where `a` ends or has the smaller character. */
  predicate SmallerAt(a: string, b: string, i: nat) {
    i <= |a| && i < |b| && a[..i] == b[..i] && (i == |a| || a[i] < b[i])
  }

  /** Ties go to the id that is smaller where the two first differ. */
  lemma {:induction false} BeforeExactly(a: string, b: string)
    ensures Before(a, b) <==> exists i: nat :: SmallerAt(a, b, i)
  {
    if a != [] && b != [] && a[0] == b[0] {
      BeforeExactly(a[1..], b[1..]);
      if i: nat :| SmallerAt(a[1..], b[1..], i) {
        assert a[..i + 1] == [a[0]] + a[1..][..i] && b[..i + 1] == [b[0]] + b[1..][..i];
        assert SmallerAt(a, b, i + 1);
      }
      if i: nat :| SmallerAt(a, b, i) {
        assert i > 0;
        assert a[1..][..i - 1] == a[..i][1..] && b[1..][..i - 1] == b[..i][1..];
        assert SmallerAt(a[1..], b[1..], i - 1);
      }
    } else if Before(a, b) {
      assert SmallerAt(a, b, 0);
    }
  }
}
