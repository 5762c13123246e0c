/** The bounded queue between a publication's ingest loop and one subscriber: push never blocks and
    drops by policy, pop hands packets to the single consumer. Packets travel in pooled buffers. */
module SendQueue {

  type Packet = seq<bv8>

  const MAX_PACKET: nat := 1500

  /** A packet is copied into a fixed-size buffer, so what does not fit is cut off. */
  function Fit(p: Packet): (r: Packet) { if |p| <= MAX_PACKET then p else p[..MAX_PACKET] }

  /** What is kept of a packet: all of it, up to the size of a buffer. */
  predicate Whole(p: Packet, kept: Packet) { kept <= p && |kept| == if |p| < 1500 then |p| else 1500 }

  datatype QueueState = Queue(video: bool, cap: nat, ring: seq<Packet>, closed: bool, resync: bool, dropped: nat)

  /** A queue has room for at least one packet. */
  type Queue = q: QueueState | q.cap >= 1 witness Queue(false, 1, [], false, false, 0)

  function Empty(video: bool, capacity: int): (r: Queue) {
    Queue(video, if capacity < 1 then 1 else capacity, [], false, false, 0)
  }

  /** On overflow video drops its whole backlog and flags a resync, audio drops its oldest packet. */
  function Pushed(q: Queue, p: Packet): (q': Queue) {
    if q.closed then q
    else
      var roomy := if |q.ring| >= q.cap then Shed(q) else q;
      roomy.(ring := roomy.ring + [Fit(p)])
  }

  function Shed(q: Queue): (q': Queue)
    requires q.ring != []
  {
    if q.video then q.(ring := [], resync := true, dropped := q.dropped + |q.ring|)
    else q.(ring := q.ring[1..], dropped := q.dropped + 1)
  }

  function Popped(q: Queue): (q': Queue)
    requires q.ring != []
  {
    q.(ring := q.ring[1..], resync := false)
  }

  function Closed(q: Queue): (q': Queue) {
    if q.closed then q else q.(closed := true, ring := [])
  }

  // ------------------------------------------------------------------
  // The queue over pooled buffers
  // ------------------------------------------------------------------

  class Buffer {
    var data: Packet
    constructor ()
      ensures data == []
    {
      data := [];
    }
  }

  /** The free list. Nothing is known about which free buffer a Get returns. */
  class Pool {
    var free: set<Buffer>

    method GetBuf(p: Packet) returns (b: Buffer)
      modifies this, free
      ensures b !in free && b.data == Fit(p) && Whole(p, b.data)
      ensures free == old(free) - {b} && (b in old(free) || fresh(b))
      ensures forall x :: x in old(free) && x != b ==> x.data == old(x.data)
    {
      if free == {} {
        b := new Buffer();
      } else {
        b :| b in free;
        free := free - {b};
      }
      b.data := Fit(p);
    }

    method ReleaseBuf(b: Buffer)
      requires b !in free
      modifies this`free
      ensures free == old(free) + {b}
    {
      free := free + {b};
    }

    method ReleaseAll(bs: seq<Buffer>)
      requires forall b :: b in bs ==> b !in free
      requires forall i, j :: 0 <= i < j < |bs| ==> bs[i] != bs[j]
      modifies this`free
      ensures free == old(free) + set b | b in bs
    {
      for i := 0 to |bs|
        invariant free == old(free) + set b | b in bs[..i]
      {
        assert bs[..i + 1] == bs[..i] + [bs[i]];
        ReleaseBuf(bs[i]);
      }
      assert bs[..|bs|] == bs;
    }
  }

  type Capacity = n: nat | n >= 1 witness 1

  /** The queues that share the pool hold no buffer twice: one is free, in one queue once, or with one
      queue's consumer. */
  ghost predicate Shared(qs: set<BufferedQueue>, pool: Pool)
    reads qs, pool
  {
    && (forall q :: q in qs ==> q.Exclusive(pool))
    && (forall q, r :: q in qs && r in qs && q != r ==> q.Mine() !! r.Mine())
  }

  /** Some of those queues, apart from each other and from the given buffers. */
  ghost predicate Apart(qs: set<BufferedQueue>, others: set<Buffer>)
    reads qs
  {
    && (forall q :: q in qs ==> q.OnceEach() && q.Mine() !! others)
    && (forall q, r :: q in qs && r in qs && q != r ==> q.Mine() !! r.Mine())
  }

  /** A step that only moves buffers between the pool and one queue leaves the sharing intact. */
  lemma StaysShared(qs: set<BufferedQueue>, q: BufferedQueue, pool: Pool, others: set<Buffer>)
    requires q in qs && q.Exclusive(pool) && Apart(qs - {q}, others) && pool.free + q.Mine() <= others
    ensures Shared(qs, pool)
  {
    forall r, t | r in qs && t in qs && r != t
      ensures r.Mine() !! t.Mine()
    {
      assert r == q || r in qs - {q};
      assert t == q || t in qs - {q};
    }
    forall r | r in qs
      ensures r.Exclusive(pool)
    {
      assert r == q || r in qs - {q};
    }
  }

  class BufferedQueue {
    const video: bool
    const cap: Capacity
    var ring: seq<Buffer>
    var closed: bool
    var resync: bool
    var dropCnt: nat
    ghost var held: set<Buffer>   // popped and not yet released by the consumer

    ghost function State(): (r: QueueState)
      reads this, ring
    {
      Queue(video, cap, seq(|ring|, i requires 0 <= i < |ring| reads this, ring => ring[i].data), closed, resync, dropCnt)
    }

    /** The buffers this queue and its consumer have. */
    ghost function Mine(): (r: set<Buffer>)
      reads this
    {
      (set b | b in ring) + held
    }

    ghost predicate OnceEach()
      reads this
    {
      (forall i, j :: 0 <= i < j < |ring| ==> ring[i] != ring[j]) && forall b :: b in ring ==> b !in held
    }

    ghost predicate Exclusive(pool: Pool)
      reads this, pool
    {
      OnceEach() && Mine() !! pool.free
    }

    constructor (video: bool, capacity: int, pool: Pool)
      ensures State() == Empty(video, capacity) && Exclusive(pool) && Mine() == {}
      ensures ring == [] && !closed && !resync && dropCnt == 0 && this.video == video && cap == if capacity >= 1 then capacity else 1
    {
      this.video := video;
      this.cap := if capacity < 1 then 1 else capacity;
      ring, closed, resync, dropCnt := [], false, false, 0;
      held := {};
    }

    /** What an overflow leaves in the ring. */
    ghost function Rest(): (r: seq<Buffer>)
      requires ring != []
      reads this
    {
      if video then [] else ring[1..]
    }

    /** The buffers that leave the ring go back to the pool. */
    method DropOnOverflow(pool: Pool)
      requires Exclusive(pool) && ring != []
      modifies this`ring, this`resync, this`dropCnt, pool`free
      ensures Exclusive(pool) && State() == Shed(old(State())) && ring == old(Rest())
      ensures video ==> ring == [] && resync && dropCnt == old(dropCnt) + |old(ring)|
      ensures !video ==> ring == old(ring)[1..] && resync == old(resync) && dropCnt == old(dropCnt) + 1
      ensures pool.free + Mine() == old(pool.free + Mine())
    {
      if video {
        pool.ReleaseAll(ring);
        dropCnt := dropCnt + |ring|;
        ring := [];
        resync := true;
      } else {
        pool.ReleaseBuf(ring[0]);
        dropCnt := dropCnt + 1;
        assert ring == [ring[0]] + ring[1..];
        ring := ring[1..];
        assert State().ring == old(State()).ring[1..];
      }
    }

    /** `b` is the buffer the packet was copied into: a free one or a new one. A closed queue gives it
        straight back, an open one queues it, and whatever an overflow drops goes back to the pool. No
        packet that is queued or with a consumer, of any queue on the pool, is overwritten. */
    method Push(ghost qs: set<BufferedQueue>, pool: Pool, p: Packet) returns (ghost b: Buffer)
      requires this in qs && Shared(qs, pool)
      modifies this, pool, pool.free
      ensures Shared(qs, pool) && held == old(held)
      ensures State() == Pushed(old(State()), p)
      ensures b in old(pool.free) || fresh(b)
      ensures forall q, x :: q in qs && x in old(q.Mine()) ==> x.data == old(x.data)
      ensures pool.free + Mine() == old(pool.free + Mine()) + {b}
      ensures closed == old(closed) && Whole(p, b.data)
      ensures closed ==> ring == old(ring) && resync == old(resync) && dropCnt == old(dropCnt)
      ensures !closed ==> Queued(b)
    {
      hide Fit, Whole, Shed;
      ghost var was := pool.free + Mine();
      assert Exclusive(pool) && Apart(qs - {this}, was);
      var got := pool.GetBuf(p);
      b := got;
      assert Apart(qs - {this}, was + {b});
      if closed { pool.ReleaseBuf(got); } else { Enqueue(pool, got); }
      StaysShared(qs, this, pool, was + {b});
    }

    /** The buffer is queued last: behind the others if there is room, after the oldest one is dropped
        by a full audio queue, and alone by a full video queue, which asks for a resync. */
    twostate predicate Queued(new b: Buffer)
      reads this
    {
      if |old(ring)| < cap then ring == old(ring) + [b] && resync == old(resync) && dropCnt == old(dropCnt)
      else if video then ring == [b] && resync && dropCnt == old(dropCnt) + |old(ring)|
      else ring == old(ring)[1..] + [b] && resync == old(resync) && dropCnt == old(dropCnt) + 1
    }

    method Enqueue(pool: Pool, got: Buffer)
      requires Exclusive(pool) && got !in Mine() && got !in pool.free
      modifies this`ring, this`resync, this`dropCnt, pool`free
      ensures Exclusive(pool) && pool.free + Mine() == old(pool.free + Mine()) + {got}
      ensures var roomy := if |old(ring)| >= cap then Shed(old(State())) else old(State());
        State() == roomy.(ring := roomy.ring + [got.data])
      ensures Queued(got)
    {
      if |ring| >= cap {
        DropOnOverflow(pool);
      }
      ghost var before := State().ring;
      ring := ring + [got];
      assert State().ring == before + [got.data];
    }

    /** Called when the wait is over: a packet is there or the queue is closed. */
    method Pop(ghost qs: set<BufferedQueue>, pool: Pool) returns (b: Buffer?, wasResync: bool, ok: bool)
      requires this in qs && Shared(qs, pool) && (ring != [] || closed)
      modifies this
      ensures Shared(qs, pool) && Mine() == old(Mine())
      ensures ok == (old(ring) != [])
      ensures !ok ==> State() == old(State()) && held == old(held) && !wasResync
      ensures ok ==> b == old(ring)[0] && ring == old(ring)[1..] && held == old(held) + {b} && b.data == old(State()).ring[0]
      ensures ok ==> State() == Popped(old(State())) && wasResync == old(resync) && !resync
      ensures closed == old(closed) && dropCnt == old(dropCnt)
    {
      if ring == [] { return null, false, false; }
      ghost var was := pool.free + Mine();
      assert Exclusive(pool) && Apart(qs - {this}, was);
      b := ring[0];
      assert ring == [b] + ring[1..];
      ring := ring[1..];
      wasResync := resync;
      resync := false;
      held := held + {b};
      ok := true;
      assert State().ring == old(State()).ring[1..];
      StaysShared(qs, this, pool, was);
    }

    method Release(ghost qs: set<BufferedQueue>, pool: Pool, b: Buffer)
      requires this in qs && Shared(qs, pool) && b in held
      modifies this`held, pool`free
      ensures Shared(qs, pool) && held == old(held) - {b} && State() == old(State())
      ensures pool.free == old(pool.free) + {b}
    {
      ghost var was := pool.free + Mine();
      assert Exclusive(pool) && Apart(qs - {this}, was);
      pool.ReleaseBuf(b);
      held := held - {b};
      StaysShared(qs, this, pool, was);
    }

    method Close(ghost qs: set<BufferedQueue>, pool: Pool)
      requires this in qs && Shared(qs, pool)
      modifies this, pool`free
      ensures Shared(qs, pool) && held == old(held) && State() == Closed(old(State()))
      ensures closed && ring == (if old(closed) then old(ring) else []) && resync == old(resync) && dropCnt == old(dropCnt)
      ensures pool.free == if old(closed) then old(pool.free) else old(pool.free) + set b | b in old(ring)
    {
      ghost var was := pool.free + Mine();
      assert Exclusive(pool) && Apart(qs - {this}, was);
      if !closed {
        closed := true;
        pool.ReleaseAll(ring);
        ring := [];
      }
      StaysShared(qs, this, pool, was);
    }
  }

  // ------------------------------------------------------------------
  // Every run of one producer, one consumer and a close
  // ------------------------------------------------------------------

  datatype Step = Push(p: Packet) | Pop | Close

  /** What the consumer got: the packet's position among the accepted ones, and the resync flag. */
  datatype Delivery = Delivery(index: int, packet: Packet, resync: bool)

  datatype World = World(q: Queue, accepted: seq<Packet>, taken: seq<Delivery>, discarded: nat)

  function Next(w: World, step: Step): (w': World) {
    match step
    case Push(p) =>
      World(Pushed(w.q, p), if w.q.closed then w.accepted else w.accepted + [Fit(p)], w.taken, w.discarded)
    case Pop =>
      if w.q.ring == [] then w
      else w.(q := Popped(w.q), taken := w.taken + [Delivery(|w.accepted| - |w.q.ring|, w.q.ring[0], w.q.resync)])
    case Close => w.(q := Closed(w.q), discarded := w.discarded + if w.q.closed then 0 else |w.q.ring|)
  }

  function Expected(w: World): (r: int) {
    if w.taken == [] then 0 else w.taken[|w.taken| - 1].index + 1
  }

  ghost predicate Inv(w: World) {
    && |w.q.ring| <= w.q.cap && |w.q.ring| <= |w.accepted|
    && w.q.ring == w.accepted[|w.accepted| - |w.q.ring|..]
    && |w.taken| + w.q.dropped + |w.q.ring| + w.discarded == |w.accepted|
    && (w.q.closed ==> w.q.ring == [])
    && (!w.q.closed ==> w.discarded == 0)
    && Expected(w) <= |w.accepted| - |w.q.ring|
    && (!w.q.closed ==> (w.q.resync <==> w.q.video && Expected(w) < |w.accepted| - |w.q.ring|))
    && (forall i :: 0 <= i < |w.taken| ==> Faithful(w, i))
  }

  /** The i-th delivery is an accepted packet, later than the one before, and flagged exactly when
      video packets in between were skipped. */
  predicate Faithful(w: World, i: nat)
    requires i < |w.taken|
  {
    var d, expected := w.taken[i], if i == 0 then 0 else w.taken[i - 1].index + 1;
    && 0 <= d.index && expected <= d.index < |w.accepted| && d.packet == w.accepted[d.index]
    && (d.resync <==> w.q.video && d.index != expected)
  }

  function Run(w: World, steps: seq<Step>): (w': World)
    decreases |steps|
  {
    if steps == [] then w else Run(Next(w, steps[0]), steps[1..])
  }

  lemma PushKeepsInv(w: World, p: Packet)
    requires Inv(w)
    ensures Inv(Next(w, Push(p)))
  {
    if !w.q.closed {
      if |w.q.ring| >= w.q.cap {
        ShedKeepsInv(w);
        PushRoomyKeepsInv(w.(q := Shed(w.q)), p);
      } else {
        PushRoomyKeepsInv(w, p);
      }
    }
    hide Inv, Shed;
  }

  lemma ShedKeepsInv(w: World)
    requires Inv(w) && !w.q.closed && w.q.ring != []
    ensures Inv(w.(q := Shed(w.q)))
  {
    var w' := w.(q := Shed(w.q));
    EarlierStayFaithful(w, w');
    hide Faithful;
    assert w'.q.ring == w.accepted[|w.accepted| - |w'.q.ring|..];
  }

  lemma PushRoomyKeepsInv(w: World, p: Packet)
    requires Inv(w) && !w.q.closed && |w.q.ring| < w.q.cap
    ensures Inv(Next(w, Push(p)))
  {
    EarlierStayFaithful(w, Next(w, Push(p)));
    SuffixOfMore(w.accepted, |w.q.ring|, Fit(p));
    hide Faithful;
  }

  lemma SuffixOfMore(s: seq<Packet>, n: nat, p: Packet)
    requires n <= |s|
    ensures s[|s| - n..] + [p] == (s + [p])[|s| - n..]
  {
  }

  lemma PopKeepsInv(w: World)
    requires Inv(w)
    ensures Inv(Next(w, Pop))
  {
    EarlierStayFaithful(w, Next(w, Pop));
  }

  lemma EarlierStayFaithful(w: World, w': World)
    requires Inv(w) && w.taken <= w'.taken && w.accepted <= w'.accepted && w'.q.video == w.q.video
    ensures forall i :: 0 <= i < |w.taken| ==> Faithful(w', i)
  {
    forall i | 0 <= i < |w.taken|
      ensures Faithful(w', i)
    {
      assert Faithful(w, i);
    }
  }

  lemma StepKeepsInv(w: World, step: Step)
    requires Inv(w)
    ensures Inv(Next(w, step))
  {
    match step
    case Push(p) => PushKeepsInv(w, p);
    case Pop => PopKeepsInv(w);
    case Close => EarlierStayFaithful(w, Next(w, Close));
  }

  lemma {:induction false} RunKeepsInv(w: World, steps: seq<Step>)
    requires Inv(w)
    ensures Inv(Run(w, steps))
    decreases |steps|
  {
    if steps != [] {
      StepKeepsInv(w, steps[0]);
      RunKeepsInv(Next(w, steps[0]), steps[1..]);
    }
  }

  /** Along every run: the queue never exceeds its capacity and holds a contiguous suffix of the
      accepted packets; accepted packets are delivered, dropped, queued or discarded at close;
      deliveries are in order and a resync is reported exactly when video packets were skipped. */
  lemma QueueIsFaithful(video: bool, capacity: int, steps: seq<Step>)
    ensures var w := Run(World(Empty(video, capacity), [], [], 0), steps);
      && |w.q.ring| <= w.q.cap && |w.q.ring| <= |w.accepted|
      && w.q.ring == w.accepted[|w.accepted| - |w.q.ring|..]
      && |w.accepted| == |w.taken| + w.q.dropped + |w.q.ring| + w.discarded
      && (forall i :: 0 <= i < |w.taken| ==> Faithful(w, i))
  {
    RunKeepsInv(World(Empty(video, capacity), [], [], 0), steps);
  }

  /** The packets pushed before the queue is first closed. */
  function PushedInTime(steps: seq<Step>): (r: seq<Packet>) {
    if steps == [] || steps[0].Close? then []
    else (if steps[0].Push? then [steps[0].p] else []) + PushedInTime(steps[1..])
  }

  ghost predicate Accepts(w: World, more: seq<Packet>, w': World) {
    && |w'.accepted| == |w.accepted| + |more| && w.accepted <= w'.accepted
    && forall i :: 0 <= i < |more| ==> Whole(more[i], w'.accepted[|w.accepted| + i])
  }

  lemma StepAccepts(w: World, step: Step)
    ensures Accepts(w, if step.Push? && !w.q.closed then [step.p] else [], Next(w, step))
    ensures Next(w, step).q.closed <==> w.q.closed || step == Close
  {
  }

  lemma AcceptsMore(w: World, a: seq<Packet>, w1: World, b: seq<Packet>, w2: World)
    requires Accepts(w, a, w1) && Accepts(w1, b, w2)
    ensures Accepts(w, a + b, w2)
  {
    forall i | 0 <= i < |a + b| ensures Whole((a + b)[i], w2.accepted[|w.accepted| + i]) {
      if i >= |a| { assert w2.accepted[|w.accepted| + i] == w2.accepted[|w1.accepted| + (i - |a|)]; }
    }
  }

  lemma {:induction false} RunAccepts(w: World, steps: seq<Step>)
    ensures Accepts(w, if w.q.closed then [] else PushedInTime(steps), Run(w, steps))
    ensures Run(w, steps).q.closed <==> w.q.closed || Close in steps
    decreases |steps|
  {
    if steps != [] {
      var w1 := Next(w, steps[0]);
      StepAccepts(w, steps[0]);
      RunAccepts(w1, steps[1..]);
      hide Next, Accepts;
      AcceptsMore(w, if steps[0].Push? && !w.q.closed then [steps[0].p] else [], w1, if w1.q.closed then [] else PushedInTime(steps[1..]), Run(w1, steps[1..]));
      assert steps == [steps[0]] + steps[1..];
    }
  }

  /** Along every run the accepted packets are exactly the ones pushed before the first close, in that
      order and whole up to 1500 bytes, and the queue is closed once it was closed. */
  lemma AcceptedAreThePushes(video: bool, capacity: int, steps: seq<Step>)
    ensures var w := Run(World(Empty(video, capacity), [], [], 0), steps);
      && |w.accepted| == |PushedInTime(steps)| && (w.q.closed <==> Close in steps)
      && (forall i :: 0 <= i < |w.accepted| ==> Whole(PushedInTime(steps)[i], w.accepted[i]))
  {
    var w0 := World(Empty(video, capacity), [], [], 0);
    RunAccepts(w0, steps);
    var w, more := Run(w0, steps), PushedInTime(steps);
    assert forall i :: 0 <= i < |more| ==> Whole(more[i], w.accepted[|w0.accepted| + i]);
  }

  /** What a step does in any reachable state: a pop delivers the oldest queued packet, a push drops only
      when the queue is full, audio one packet and video all, and the first close discards what is queued. */
  lemma {:induction false} StepEffects(video: bool, capacity: int, steps: seq<Step>, p: Packet)
    ensures var w := Run(World(Empty(video, capacity), [], [], 0), steps); var queued := |w.q.ring|;
      var popped, pushed, closed := Next(w, Pop), Next(w, Push(p)), Next(w, Close);
      && (queued == 0 ==> popped == w)
      && (queued > 0 ==>
            && queued <= |w.accepted| && |popped.q.ring| == queued - 1 && popped.q.dropped == w.q.dropped
            && popped.taken == w.taken + [Delivery(|w.accepted| - queued, w.accepted[|w.accepted| - queued], w.q.resync)])
      && pushed.q.dropped == w.q.dropped + (if w.q.closed || queued < w.q.cap then 0 else if w.q.video then queued else 1)
      && closed.q.ring == [] && closed.discarded == w.discarded + queued && closed.q.dropped == w.q.dropped
  {
    RunKeepsInv(World(Empty(video, capacity), [], [], 0), steps);
    hide Run, Faithful;
  }

  // ------------------------------------------------------------------
  // The subscriber's write loop
  // ------------------------------------------------------------------

  datatype Write = Written | Failed | PipeClosed

  datatype LoopEnd = QueueClosed | TrackGone | GaveUp

  const ERROR_BUDGET: nat := 50

  /** The writes up to `n` end in a full budget of consecutive failures. */
  predicate BudgetSpent(writes: seq<Write>, n: nat)
    requires n <= |writes|
  {
    n >= ERROR_BUDGET && forall i :: n - ERROR_BUDGET <= i < n ==> writes[i] == Failed
  }

  /** The results the writes of one subscription will have, until its queue is closed and drained.
      The loop gives up at the first full budget of consecutive failures, and only then. */
  method RunWriteLoop(writes: seq<Write>) returns (used: nat, end: LoopEnd)
    ensures used <= |writes|
    ensures forall n :: 0 <= n < used ==> !BudgetSpent(writes, n)
    ensures forall i :: 0 <= i < used - 1 ==> writes[i] != PipeClosed
    ensures end == GaveUp <==> BudgetSpent(writes, used)
    ensures end == TrackGone <==> used > 0 && writes[used - 1] == PipeClosed
    ensures end == QueueClosed ==> used == |writes|
  {
    var streak := 0;
    used := 0;
    while used < |writes|
      invariant used <= |writes| && 0 <= streak < ERROR_BUDGET && streak <= used
      invariant forall n :: 0 <= n <= used ==> !BudgetSpent(writes, n)
      invariant forall i :: 0 <= i < used ==> writes[i] != PipeClosed
      invariant forall i :: used - streak <= i < used ==> writes[i] == Failed
      invariant streak < used ==> writes[used - streak - 1] != Failed
    {
      used := used + 1;
      match writes[used - 1] {
        case PipeClosed => return used, TrackGone;
        case Failed =>
          streak := streak + 1;
          if streak >= ERROR_BUDGET { return used, GaveUp; }
          assert !BudgetSpent(writes, used) by {
            assert used - streak >= 1 ==> writes[used - streak - 1] != Failed;
          }
        case Written => streak := 0;
      }
    }
    return used, QueueClosed;
  }
}
