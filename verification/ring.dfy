/** The single-producer single-consumer audio ring: one push side, one render side, every
    atomic load and store and every slot access a separate step, in any interleaving. */
module Ring {
  import opened Bits

  datatype Frame = Frame(left: int, right: int)

  // Counters wrap at 32 bits in the ring itself; `pushed`, `taken`, `avail` and the `at` fields
  // record the unwrapped history and are never read by a step's own computation.

  datatype Producer =
    | Idle
    | SpaceHead(h: nat, at: nat)                             // ca_ring_space, head loaded
    | PushHead(src: seq<Frame>, h: nat, at: nat)             // ca_ring_push, head loaded
    | Writing(src: seq<Frame>, t: nat, n: nat, i: nat)       // copying frame i of n

  datatype Consumer =
    | Quiet
    | Gating(want: nat, h: nat)                              // the availability gate polling tail
    | RenderHead(want: nat, h: nat)                          // ca_render_cb, head loaded
    | Reading(want: nat, h: nat, take: nat, i: nat,          // draining frame i of take,
              avail: nat)                                    // with so many queued when tail was loaded

  datatype State = State(
    cap: nat, slots: seq<Frame>, head: nat, tail: nat, underruns: nat,
    prod: Producer, cons: Consumer,
    pushed: seq<Frame>, taken: nat, got: seq<Frame>,
    space: nat)                                              // what ca_ring_space last returned

  datatype Action =
    | SpaceLoadHead | SpaceLoadTail
    | PushLoadHead(frames: seq<Frame>) | PushLoadTail | PushWrite | PushPublish
    | GateLoadHead(n: nat) | GatePoll | GateGiveUp
    | RenderLoadHead(n: nat) | RenderLoadTail | RenderRead | RenderPublish

  // ---- 32-bit arithmetic of the source -------------------------------------------------

  function Sub32(x: nat, y: nat): (r: nat)
  {
    (x - y) % WORD32
  }

  function Add32(x: nat, y: nat): (r: nat)
  {
    (x + y) % WORD32
  }

  /** (cap - 1) - (tail - head) */
  function FreeFrames(cap: nat, head: nat, tail: nat): (r: nat)
    requires cap >= 1
  {
    Sub32(cap - 1, Sub32(tail, head))
  }

  /** (counter + i) & mask */
  function Index(cap: nat, counter: nat, i: nat): (r: nat)
    requires cap >= 1
    ensures r <= cap - 1
  {
    And(Add32(counter, i), cap - 1)
  }

  function Min(x: nat, y: nat): nat { if x < y then x else y }

  /** Geometry of ca_open: a power of two of at least 2 and at most 2^31 slots. */
  ghost predicate Geometry(cap: nat)
  {
    exists k: nat :: 1 <= k <= 31 && cap == Pow2(k)
  }

  // ---- steps ---------------------------------------------------------------------------

  function Init(cap: nat, blank: Frame): State
  {
    State(cap, seq(cap, _ => blank), 0, 0, 0, Idle, Quiet, [], 0, [], 0)
  }

  function Next(s: State, a: Action): (s': State)
    requires |s.slots| == s.cap && s.cap >= 1
    ensures |s'.slots| == s'.cap && s'.cap == s.cap
  {
    match a
    case SpaceLoadHead | SpaceLoadTail | PushLoadHead(_) | PushLoadTail | PushWrite | PushPublish => ProducerNext(s, a)
    case _ => ConsumerNext(s, a)
  }

  function ProducerNext(s: State, a: Action): (s': State)
    requires |s.slots| == s.cap && s.cap >= 1
    ensures |s'.slots| == s'.cap && s'.cap == s.cap
  {
    match (a, s.prod)
    case (SpaceLoadHead, Idle) => s.(prod := SpaceHead(s.head, s.taken))
    case (SpaceLoadTail, SpaceHead(h, _)) => s.(prod := Idle, space := FreeFrames(s.cap, h, s.tail))
    case (PushLoadHead(src), Idle) => if src == [] then s else s.(prod := PushHead(src, s.head, s.taken))
    case (PushLoadTail, PushHead(src, h, _)) =>
      s.(prod := Writing(src, s.tail, Min(|src|, FreeFrames(s.cap, h, s.tail)), 0))
    case (PushWrite, Writing(src, t, n, i)) =>
      if i < n && i < |src| then
        s.(prod := Writing(src, t, n, i + 1), slots := s.slots[Index(s.cap, t, i) := src[i]])
      else s
    case (PushPublish, Writing(src, t, n, i)) =>
      if i == n <= |src| then
        s.(prod := Idle, tail := Add32(t, n), pushed := s.pushed + src[..n])
      else s
    case _ => s
  }

  function ConsumerNext(s: State, a: Action): (s': State)
    requires |s.slots| == s.cap && s.cap >= 1
    ensures |s'.slots| == s'.cap && s'.cap == s.cap
  {
    match (a, s.cons)
    case (GateLoadHead(n), Quiet) => s.(cons := Gating(n, s.head))
    case (GatePoll, Gating(n, h)) => if Sub32(s.tail, h) >= n then s.(cons := Quiet) else s
    case (GateGiveUp, Gating(_, _)) => s.(cons := Quiet)
    case (RenderLoadHead(want), Quiet) => s.(cons := RenderHead(want, s.head))
    case (RenderLoadTail, RenderHead(want, h)) =>
      s.(cons := Reading(want, h, Min(want, Sub32(s.tail, h)), 0, if s.taken <= |s.pushed| then |Queue(s)| else 0))
    case (RenderRead, Reading(want, h, take, i, avail)) =>
      if i < take then
        s.(cons := Reading(want, h, take, i + 1, avail), got := s.got + [s.slots[Index(s.cap, h, i)]])
      else s
    case (RenderPublish, Reading(want, h, take, i, _)) =>
      if i == take then
        s.(cons := Quiet, head := Add32(h, take), taken := s.taken + take,
           underruns := if take < want then s.underruns + 1 else s.underruns)
      else s
    case _ => s
  }

  function Run(s: State, actions: seq<Action>): (s': State)
    requires |s.slots| == s.cap && s.cap >= 1
    ensures |s'.slots| == s'.cap && s'.cap == s.cap
    decreases |actions|
  {
    if actions == [] then s else Run(Next(s, actions[0]), actions[1..])
  }

  // ---- the invariant -------------------------------------------------------------------

  /** Slot of the k-th frame ever pushed. */
  function SlotOf(slots: seq<Frame>, k: nat): Frame
    requires |slots| >= 1
  {
    slots[k % |slots|]
  }

  /** The frames of q sit in consecutive slots from counter `from`. */
  ghost predicate Holds(slots: seq<Frame>, from: nat, q: seq<Frame>)
  {
    |slots| >= 1 && forall j: nat | j < |q| :: SlotOf(slots, from + j) == q[j]
  }

  lemma HeldFrame(slots: seq<Frame>, from: nat, q: seq<Frame>, i: nat)
    requires Holds(slots, from, q) && i < |q|
    ensures slots[(from + i) % |slots|] == q[i]
  {
    assert SlotOf(slots, from + i) == q[i];
  }

  lemma HoldsMore(slots: seq<Frame>, from: nat, q: seq<Frame>, f: Frame)
    requires Holds(slots, from, q) && |q| < |slots|
    ensures Holds(slots[(from + |q|) % |slots| := f], from, q + [f])
  {
    var s' := slots[(from + |q|) % |slots| := f];
    forall j: nat | j < |q| + 1 ensures SlotOf(s', from + j) == (q + [f])[j] {
      if j < |q| {
        SlotsDistinct(from + j, from + |q|, |slots|);
        assert SlotOf(slots, from + j) == q[j];
      }
    }
  }

  lemma Appended(slots: seq<Frame>, from: nat, q: seq<Frame>, src: seq<Frame>, i: nat)
    requires i < |src| && Holds(slots, from, q + src[..i]) && |q| + i < |slots|
    ensures Holds(slots[(from + |q| + i) % |slots| := src[i]], from, q + src[..i + 1])
  {
    HoldsMore(slots, from, q + src[..i], src[i]);
    assert q + src[..i] + [src[i]] == q + src[..i + 1];
  }

  lemma HoldsLess(slots: seq<Frame>, from: nat, q: seq<Frame>, n: nat)
    requires Holds(slots, from, q) && n <= |q|
    ensures Holds(slots, from + n, q[n..])
  {
    forall j: nat | j < |q| - n ensures SlotOf(slots, from + n + j) == q[n..][j] {
      assert SlotOf(slots, from + (n + j)) == q[n + j];
    }
  }

  /** The frames in the ring as the abstract queue. */
  function Queue(s: State): seq<Frame>
    requires s.taken <= |s.pushed|
  {
    s.pushed[s.taken..]
  }

  /** The frames a push in progress has already written past the published tail. */
  function Written(s: State): seq<Frame>
  {
    if s.prod.Writing? && s.prod.i <= |s.prod.src| then s.prod.src[..s.prod.i] else []
  }

  ghost predicate Core(s: State)
  {
    && Geometry(s.cap) && s.cap >= 2 && |s.slots| == s.cap
    && s.taken <= |s.pushed| < s.taken + s.cap
    && s.head == s.taken % WORD32 && s.tail == |s.pushed| % WORD32
    && Holds(s.slots, s.taken, Queue(s) + Written(s))
  }

  ghost predicate ProducerInv(s: State)
    requires |s.slots| == s.cap && s.cap >= 1
  {
    var t := |s.pushed|;
    match s.prod
    case Idle => true
    case SpaceHead(h, at) => h == at % WORD32 && at <= s.taken && t < at + s.cap
    case PushHead(src, h, at) => h == at % WORD32 && at <= s.taken && t < at + s.cap
    case Writing(src, t32, n, i) =>
      t32 == s.tail && i <= n <= |src| && t + n < s.taken + s.cap
  }

  ghost predicate ConsumerInv(s: State)
    requires s.taken <= |s.pushed|
  {
    match s.cons
    case Quiet => s.got == s.pushed[..s.taken]
    case Gating(_, h) => h == s.head && s.got == s.pushed[..s.taken]
    case RenderHead(_, h) => h == s.head && s.got == s.pushed[..s.taken]
    case Reading(want, h, take, i, avail) =>
      && h == s.head && i <= take == Min(want, avail) && s.taken + avail <= |s.pushed|
      && s.got == s.pushed[..s.taken + i]
  }

  ghost predicate Inv(s: State)
  {
    Core(s) && s.taken <= |s.pushed| && ProducerInv(s) && ConsumerInv(s)
  }

  // ---- index arithmetic ----------------------------------------------------------------

  lemma Pow2Split(k: nat, n: nat)
    requires k <= n
    ensures Pow2(n) == Pow2(k) * Pow2(n - k)
  {
    if k > 0 { Pow2Split(k - 1, n - 1); }
  }

  /** The masked, wrapped index is the unwrapped counter modulo the capacity. */
  lemma IndexIsSlot(cap: nat, k: nat, i: nat)
    requires Geometry(cap) && cap >= 1
    ensures Index(cap, k % WORD32, i) == (k + i) % cap
  {
    var e: nat :| 1 <= e <= 31 && cap == Pow2(e);
    MaskIsMod(Add32(k % WORD32, i), e);
    Pow2Split(e, 32);
    assert Pow2(32) == WORD32 by { Pow2Of32(); }
    WrapMod(k, i, WORD32, cap, Pow2(32 - e));
  }

  lemma GeometryBound(cap: nat)
    requires Geometry(cap)
    ensures 2 <= cap <= 0x8000_0000
  {
    var e: nat :| 1 <= e <= 31 && cap == Pow2(e);
    assert cap == 2 * Pow2(e - 1);
    Pow2Mono(e, 31);
    Pow2Of32();
  }

  /** Counters less than a capacity apart fall in different slots. */
  lemma SlotsDistinct(a: nat, b: nat, cap: nat)
    requires a < b < a + cap
    ensures a % cap != b % cap
  {
    var qa, qb := a / cap, b / cap;
    assert a == qa * cap + a % cap && b == qb * cap + b % cap;
    if a % cap == b % cap {
      assert (qb - qa) * cap == b - a;
      if qb > qa { MulMono(1, qb - qa, cap); } else { MulMono(qb - qa, 0, cap); }
    }
  }

  lemma Advanced(k: nat, n: nat)
    ensures Add32(k % WORD32, n) == (k + n) % WORD32
  {
    WrapMod(k, n, WORD32, WORD32, 1);
  }

  lemma UsedIsExact(cap: nat, h: nat, t: nat)
    requires Geometry(cap) && h <= t < h + cap
    ensures Sub32(t % WORD32, h % WORD32) == t - h
    ensures cap >= 2 && FreeFrames(cap, h % WORD32, t % WORD32) == cap - 1 - (t - h)
  {
    GeometryBound(cap);
    WrappedDifference(t, h, WORD32);
  }

  // ---- every step keeps the invariant --------------------------------------------------

  lemma InitInv(cap: nat, blank: Frame)
    requires Geometry(cap)
    ensures Inv(Init(cap, blank))
  {
    GeometryBound(cap);
  }

  lemma LoadsKeepInv(s: State, a: Action)
    requires Inv(s)
    requires a.SpaceLoadHead? || a.SpaceLoadTail? || a.PushLoadHead? || a.PushLoadTail?
    ensures Inv(ProducerNext(s, a))
  {
    hide Holds;
    var t := |s.pushed|;
    match (a, s.prod)
    case (SpaceLoadTail, SpaceHead(h, at)) => UsedIsExact(s.cap, at, t);
    case (PushLoadTail, PushHead(src, h, at)) => UsedIsExact(s.cap, at, t);
    case _ =>
  }

  /** The slot about to be written holds no unread frame and none of the push's own. */
  lemma WriteMissesWindow(s: State, k: nat)
    requires Inv(s) && s.prod.Writing? && s.prod.i < s.prod.n
    requires s.taken <= k < |s.pushed| + s.prod.i
    ensures Index(s.cap, s.prod.t, s.prod.i) == (|s.pushed| + s.prod.i) % s.cap
    ensures k % s.cap != Index(s.cap, s.prod.t, s.prod.i)
  {
    IndexIsSlot(s.cap, |s.pushed|, s.prod.i);
    SlotsDistinct(k, |s.pushed| + s.prod.i, s.cap);
  }

  lemma WriteKeepsInv(s: State)
    requires Inv(s) && s.prod.Writing? && s.prod.i < s.prod.n
    ensures Inv(ProducerNext(s, PushWrite))
  {
    hide Holds;
    IndexIsSlot(s.cap, |s.pushed|, s.prod.i);
    Appended(s.slots, s.taken, Queue(s), s.prod.src, s.prod.i);
  }

  lemma PublishKeepsInv(s: State)
    requires Inv(s) && s.prod.Writing? && s.prod.i == s.prod.n
    ensures Inv(ProducerNext(s, PushPublish))
  {
    hide Holds, Geometry;
    var s' := ProducerNext(s, PushPublish);
    Advanced(|s.pushed|, s.prod.n);
    assert Queue(s') + Written(s') == Queue(s) + Written(s);
    assert s'.pushed[..s.taken] == s.pushed[..s.taken];
    if s.cons.Reading? {
      assert s'.pushed[..s.taken + s.cons.i] == s.pushed[..s.taken + s.cons.i];
    }
  }

  lemma GateKeepsInv(s: State, a: Action)
    requires Inv(s)
    requires a.GateLoadHead? || a.GatePoll? || a.GateGiveUp? || a.RenderLoadHead? || a.RenderLoadTail?
    ensures Inv(ConsumerNext(s, a))
  {
    if s.cons.Gating? || s.cons.RenderHead? {
      UsedIsExact(s.cap, s.taken, |s.pushed|);
    }
  }

  lemma ReadKeepsInv(s: State)
    requires Inv(s) && s.cons.Reading? && s.cons.i < s.cons.take
    ensures Inv(ConsumerNext(s, RenderRead))
  {
    hide Holds;
    var k := s.taken + s.cons.i;
    IndexIsSlot(s.cap, s.taken, s.cons.i);
    HeldFrame(s.slots, s.taken, Queue(s) + Written(s), s.cons.i);
    assert s.pushed[..k + 1] == s.pushed[..k] + [s.pushed[k]];
  }

  lemma RenderedKeepsInv(s: State)
    requires Inv(s) && s.cons.Reading? && s.cons.i == s.cons.take
    ensures Inv(ConsumerNext(s, RenderPublish))
  {
    hide Holds;
    Advanced(s.taken, s.cons.take);
    var s' := ConsumerNext(s, RenderPublish);
    HoldsLess(s.slots, s.taken, Queue(s) + Written(s), s.cons.take);
    assert Queue(s') + Written(s') == (Queue(s) + Written(s))[s.cons.take..];
  }

  lemma NextKeepsInv(s: State, a: Action)
    requires Inv(s)
    ensures Inv(Next(s, a))
  {
    hide Inv;
    assert Shape(s) by { InvShape(s); }
    match a
    case SpaceLoadHead | SpaceLoadTail | PushLoadHead(_) | PushLoadTail => LoadsKeepInv(s, a);
    case PushWrite =>
      if s.prod.Writing? && s.prod.i < s.prod.n { WriteKeepsInv(s); }
    case PushPublish =>
      if s.prod.Writing? && s.prod.i == s.prod.n { PublishKeepsInv(s); }
    case GateLoadHead(_) | GatePoll | GateGiveUp | RenderLoadHead(_) | RenderLoadTail => GateKeepsInv(s, a);
    case RenderRead =>
      if s.cons.Reading? && s.cons.i < s.cons.take { ReadKeepsInv(s); }
    case RenderPublish =>
      if s.cons.Reading? && s.cons.i == s.cons.take { RenderedKeepsInv(s); }
  }

  ghost predicate Shape(s: State)
  {
    s.cap >= 2 && |s.slots| == s.cap && s.taken <= |s.pushed|
  }

  lemma InvShape(s: State)
    requires Inv(s)
    ensures Shape(s)
  {
  }

  lemma {:induction false} RunKeepsInv(s: State, actions: seq<Action>)
    requires Inv(s)
    ensures Inv(Run(s, actions))
    decreases |actions|
  {
    if actions == [] {
    } else {
      NextKeepsInv(s, actions[0]);
      RunKeepsInv(Next(s, actions[0]), actions[1..]);
    }
  }

  // ---- what the ring promises ----------------------------------------------------------

  function Reached(cap: nat, blank: Frame, actions: seq<Action>): State
    requires cap >= 1
  {
    Run(Init(cap, blank), actions)
  }

  /** In every interleaving the frames the render side has read are a prefix of the frames
      pushed: none lost, repeated, torn or out of order, across any number of counter wraps;
      and at most cap - 1 frames are in the ring. */
  lemma ConsumedIsPrefix(cap: nat, blank: Frame, actions: seq<Action>)
    requires Geometry(cap) && cap >= 1
    ensures var s := Reached(cap, blank, actions);
            && s.got <= s.pushed && s.taken <= |s.got| <= s.taken + cap - 1
            && 0 <= |s.pushed| - s.taken <= cap - 1
            && Sub32(s.tail, s.head) == |s.pushed| - s.taken
  {
    InitInv(cap, blank);
    RunKeepsInv(Init(cap, blank), actions);
    var s := Reached(cap, blank, actions);
    UsedIsExact(cap, s.taken, |s.pushed|);
  }

  /** In every interleaving, no write lands on a frame not yet published as read. */
  lemma UnreadNeverOverwritten(cap: nat, blank: Frame, actions: seq<Action>, k: nat)
    requires Geometry(cap) && cap >= 1
    ensures var s := Reached(cap, blank, actions);
            var s' := ProducerNext(s, PushWrite);
            s.taken <= k < |s.pushed| ==>
              SlotOf(s.slots, k) == s.pushed[k] && SlotOf(s'.slots, k) == s.pushed[k]
  {
    InitInv(cap, blank);
    RunKeepsInv(Init(cap, blank), actions);
    var s := Reached(cap, blank, actions);
    if s.taken <= k < |s.pushed| {
      HeldFrame(s.slots, s.taken, Queue(s) + Written(s), k - s.taken);
      if s.prod.Writing? && s.prod.i < s.prod.n { WriteMissesWindow(s, k); }
    }
  }

  /** Each step is a step of a bounded queue: publishing a push appends a prefix of the caller's
      frames, publishing a render removes from the front exactly the frames it read, and every
      other step leaves the queue alone. */
  lemma RefinesBoundedQueue(s: State, a: Action)
    requires Inv(s)
    ensures Next(s, a).taken <= |Next(s, a).pushed| && |Queue(Next(s, a))| < s.cap
    ensures Queue(Next(s, a)) ==
            if a.PushPublish? && s.prod.Writing? && s.prod.i == s.prod.n then Queue(s) + s.prod.src[..s.prod.n]
            else if a.RenderPublish? && s.cons.Reading? && s.cons.i == s.cons.take then Queue(s)[s.cons.take..]
            else Queue(s)
    ensures a.RenderPublish? && s.cons.Reading? && s.cons.i == s.cons.take ==>
              s.got[s.taken..] == Queue(s)[..s.cons.take]
  {
    NextKeepsInv(s, a);
    QueueShort(Next(s, a));
    hide Inv;
    InvShape(s);
    if a.PushPublish? && s.prod.Writing? && s.prod.i == s.prod.n { PublishQueue(s); }
    else if a.RenderPublish? && s.cons.Reading? && s.cons.i == s.cons.take { RenderQueue(s); }
    else { OtherQueue(s, a); }
  }

  lemma QueueShort(s: State)
    requires Inv(s)
    ensures s.taken <= |s.pushed| && |Queue(s)| < s.cap
  {
  }

  lemma PublishQueue(s: State)
    requires s.cap >= 1 && |s.slots| == s.cap && s.taken <= |s.pushed|
    requires s.prod.Writing? && s.prod.i == s.prod.n <= |s.prod.src|
    ensures var s' := Next(s, PushPublish); s'.taken <= |s'.pushed| && Queue(s') == Queue(s) + s.prod.src[..s.prod.n]
  {
  }

  lemma RenderQueue(s: State)
    requires s.cap >= 1 && |s.slots| == s.cap && s.cons.Reading? && s.cons.i == s.cons.take
    requires s.taken + s.cons.take <= |s.pushed| && s.got == s.pushed[..s.taken + s.cons.i]
    ensures var s' := Next(s, RenderPublish);
            && s'.taken <= |s'.pushed| && Queue(s') == Queue(s)[s.cons.take..]
            && s.got[s.taken..] == Queue(s)[..s.cons.take]
  {
  }

  lemma OtherQueue(s: State, a: Action)
    requires s.cap >= 1 && |s.slots| == s.cap
    requires !(a.PushPublish? && s.prod.Writing? && s.prod.i == s.prod.n)
    requires !(a.RenderPublish? && s.cons.Reading? && s.cons.i == s.cons.take)
    ensures Next(s, a).pushed == s.pushed && Next(s, a).taken == s.taken
  {
  }

  /** ca_ring_space is exact about the head it saw, and so never more than what is free now. */
  lemma SpaceIsExact(s: State)
    requires Inv(s) && s.prod.SpaceHead?
    ensures var s' := ProducerNext(s, SpaceLoadTail);
            s'.prod.Idle? && s'.space == s.cap - 1 - (|s.pushed| - s.prod.at) <= s.cap - 1 - |Queue(s)|
  {
    UsedIsExact(s.cap, s.prod.at, |s.pushed|);
  }

  /** What a producer knows that loaded the head when `taken` was at least `from`. */
  ghost predicate Knows(s: State, from: nat)
  {
    && from <= s.taken
    && match s.prod
       case Idle => true
       case SpaceHead(_, at) => from <= at
       case PushHead(_, _, at) => from <= at
       case Writing(src, _, n, _) => n == |src| || |s.pushed| + n >= from + s.cap - 1
  }

  lemma {:induction false} KnowsStill(s: State, actions: seq<Action>, from: nat)
    requires Inv(s) && Knows(s, from)
    ensures Inv(Run(s, actions)) && Knows(Run(s, actions), from) && Run(s, actions).cap == s.cap
    decreases |actions|
  {
    hide Inv, Next, Knows;
    InvShape(s);
    if actions != [] {
      NextKeepsInv(s, actions[0]);
      KnowsNext(s, actions[0], from);
      KnowsStill(Next(s, actions[0]), actions[1..], from);
    }
  }

  lemma KnowsNext(s: State, a: Action, from: nat)
    requires Inv(s) && Knows(s, from)
    ensures Knows(Next(s, a), from)
  {
    hide Holds, Geometry, FreeFrames;
    if a.PushLoadTail? && s.prod.PushHead? { UsedIsExact(s.cap, s.prod.at, |s.pushed|); }
  }

  /** Once ca_ring_space has returned r, pushes totalling at most r frames are accepted whole,
      whatever the render side does in between. */
  lemma SpaceIsHonoured(s: State, actions: seq<Action>)
    requires Inv(s) && s.prod.SpaceHead?
    ensures var s' := ProducerNext(s, SpaceLoadTail);
            var t := Run(s', actions);
            t.prod.Writing? && |t.pushed| - |s.pushed| + |t.prod.src| <= s'.space ==> t.prod.n == |t.prod.src|
  {
    hide Holds, Geometry, Run;
    SpaceIsExact(s);
    NextKeepsInv(s, SpaceLoadTail);
    KnowsStill(ProducerNext(s, SpaceLoadTail), actions, s.prod.at);
  }

  /** A push takes as many of its frames as the head it saw leaves room for. */
  lemma PushTakesWhatFits(s: State)
    requires Inv(s) && s.prod.PushHead?
    ensures var s' := ProducerNext(s, PushLoadTail);
            && s'.prod.Writing? && s'.prod.src == s.prod.src && s'.prod.i == 0
            && s'.prod.n == Min(|s.prod.src|, s.cap - 1 - (|s.pushed| - s.prod.at))
  {
    UsedIsExact(s.cap, s.prod.at, |s.pushed|);
  }

  /** A render takes the frames queued when it loads the tail, up to what it wants. */
  lemma RenderTakesWhatIsThere(s: State)
    requires Inv(s) && s.cons.RenderHead?
    ensures var s' := ConsumerNext(s, RenderLoadTail);
            && s'.cons.Reading? && s'.cons.want == s.cons.want && s'.cons.i == 0
            && s'.cons.take == Min(s.cons.want, |Queue(s)|) && s'.cons.avail == |Queue(s)|
  {
    UsedIsExact(s.cap, s.taken, |s.pushed|);
  }

  /** In every run a render publishes exactly the frames that were queued when it loaded the tail,
      up to what it wants, and counts an underrun exactly when they were too few. */
  lemma RenderPublishesThem(cap: nat, blank: Frame, actions: seq<Action>)
    requires Geometry(cap) && cap >= 1
    ensures var s := Reached(cap, blank, actions);
            s.cons.Reading? && s.cons.i == s.cons.take ==>
              var s' := ConsumerNext(s, RenderPublish);
              && s.taken + s.cons.avail <= |s.pushed| && s'.taken == s.taken + Min(s.cons.want, s.cons.avail)
              && s'.got == s.got == s.pushed[..s'.taken]
              && s'.underruns == s.underruns + (if s.cons.avail < s.cons.want then 1 else 0)
  {
    InitInv(cap, blank);
    RunKeepsInv(Init(cap, blank), actions);
  }

  /** What a consumer finds after `upto` frames have been pushed. */
  ghost predicate Finds(s: State, upto: nat)
  {
    upto <= |s.pushed| && (s.cons.Reading? ==> upto <= s.taken + s.cons.avail)
  }

  lemma {:induction false} FindsStill(s: State, actions: seq<Action>, upto: nat)
    requires Inv(s) && Finds(s, upto)
    ensures Inv(Run(s, actions)) && Finds(Run(s, actions), upto)
    decreases |actions|
  {
    hide Inv, Next, Finds;
    InvShape(s);
    if actions != [] {
      NextKeepsInv(s, actions[0]);
      FindsNext(s, actions[0], upto);
      FindsStill(Next(s, actions[0]), actions[1..], upto);
    }
  }

  lemma FindsNext(s: State, a: Action, upto: nat)
    requires Inv(s) && Finds(s, upto)
    ensures Finds(Next(s, a), upto)
  {
    hide Holds, Geometry, Sub32, Index;
  }

  /** Once the availability gate has passed for n frames, renders totalling at most n frames are
      supplied whole and count no underrun, whatever the producer does. */
  lemma GatePreventsUnderrun(s: State, actions: seq<Action>)
    requires Inv(s) && s.cons.Gating? && ConsumerNext(s, GatePoll).cons.Quiet?
    ensures var t := Run(ConsumerNext(s, GatePoll), actions);
            t.cons.Reading? && t.taken - s.taken + t.cons.want <= s.cons.want ==>
              && t.cons.take == t.cons.want
              && ConsumerNext(t, RenderPublish).underruns == t.underruns
  {
    hide Holds, Geometry, Run;
    GatePassesIff(s);
    NextKeepsInv(s, GatePoll);
    FindsStill(ConsumerNext(s, GatePoll), actions, s.taken + s.cons.want);
  }

  /** The gate passes exactly when n frames are queued, so it never can for more frames than the
      ring holds: such a block always ends in an underrun. */
  lemma GatePassesIff(s: State)
    requires Inv(s) && s.cons.Gating?
    ensures ConsumerNext(s, GatePoll).cons.Quiet? <==> |Queue(s)| >= s.cons.want
    ensures s.cons.want >= s.cap ==> ConsumerNext(s, GatePoll) == s
  {
    UsedIsExact(s.cap, s.taken, |s.pushed|);
  }

  // ---- filling the ring ----------------------------------------------------------------

  lemma {:induction false} RunSplit(s: State, a: seq<Action>, b: seq<Action>)
    requires |s.slots| == s.cap && s.cap >= 1
    ensures Run(s, a + b) == Run(Run(s, a), b)
    decreases |a|
  {
    hide Next;
    if a == [] {
      assert a + b == b;
    } else {
      assert (a + b)[1..] == a[1..] + b;
      RunSplit(Next(s, a[0]), a[1..], b);
    }
  }

  // ---- one call at a time --------------------------------------------------------------

  /** The steps of one whole push that takes n frames. */
  function Pushes(src: seq<Frame>, n: nat): seq<Action>
  {
    if src == [] then [PushLoadHead(src)] else [PushLoadHead(src), PushLoadTail] + Writes(n) + [PushPublish]
  }

  function Writes(n: nat): seq<Action>
  {
    if n == 0 then [] else [PushWrite] + Writes(n - 1)
  }

  /** The steps of one whole render that takes n frames. */
  function Renders(want: nat, n: nat): seq<Action>
  {
    [RenderLoadHead(want), RenderLoadTail] + Reads(n) + [RenderPublish]
  }

  function Reads(n: nat): seq<Action>
  {
    if n == 0 then [] else [RenderRead] + Reads(n - 1)
  }

  /** Writing the rest of a push touches nothing but the slots. */
  lemma {:induction false} WritesAll(s: State, k: nat)
    requires |s.slots| == s.cap && s.cap >= 1 && s.prod.Writing?
    requires s.prod.i + k == s.prod.n <= |s.prod.src|
    ensures var s' := Run(s, Writes(k)); s' == s.(slots := s'.slots, prod := s.prod.(i := s.prod.n))
    decreases k
  {
    hide Index;
    if k > 0 {
      assert Writes(k)[1..] == Writes(k - 1);
      WritesAll(Next(s, PushWrite), k - 1);
    }
  }

  /** Reading the rest of a render touches nothing but what has been got. */
  lemma {:induction false} ReadsAll(s: State, k: nat)
    requires |s.slots| == s.cap && s.cap >= 1 && s.cons.Reading? && s.cons.i + k == s.cons.take
    ensures var s' := Run(s, Reads(k)); s' == s.(got := s'.got, cons := s.cons.(i := s.cons.take))
    decreases k
  {
    hide Index;
    if k > 0 {
      assert Reads(k)[1..] == Reads(k - 1);
      ReadsAll(Next(s, RenderRead), k - 1);
    }
  }

  lemma TwoSteps(s: State, a: Action, b: Action)
    requires |s.slots| == s.cap && s.cap >= 1
    ensures Run(s, [a]) == Next(s, a) && Run(s, [a, b]) == Next(Next(s, a), b)
  {
    hide Next;
    assert [a][1..] == [] && [a, b][1..] == [b] && [b][1..] == [];
    assert Run(Next(s, a), [b]) == Run(Next(Next(s, a), b), [b][1..]);
  }

  lemma PushLoads(s: State, src: seq<Frame>)
    requires Inv(s) && s.prod.Idle? && src != []
    ensures Run(s, [PushLoadHead(src), PushLoadTail]) ==
            s.(prod := Writing(src, s.tail, Min(|src|, s.cap - 1 - |Queue(s)|), 0))
  {
    hide Holds, Geometry, Run, FreeFrames;
    TwoSteps(s, PushLoadHead(src), PushLoadTail);
    NextKeepsInv(s, PushLoadHead(src));
    PushTakesWhatFits(Next(s, PushLoadHead(src)));
  }

  lemma PushEnds(s: State, k: nat)
    requires |s.slots| == s.cap && s.cap >= 1 && s.prod.Writing? && s.prod.i + k == s.prod.n <= |s.prod.src|
    ensures var s' := Run(s, Writes(k) + [PushPublish]);
            s' == s.(prod := Idle, slots := s'.slots, tail := s'.tail, pushed := s.pushed + s.prod.src[..s.prod.n])
  {
    hide Run;
    WritesAll(s, k);
    RunSplit(s, Writes(k), [PushPublish]);
    TwoSteps(Run(s, Writes(k)), PushPublish, PushPublish);
  }

  /** A push, whatever the render side is at: as many frames as fit join the queue, in order. */
  lemma PushAlone(s: State, src: seq<Frame>)
    requires Inv(s) && s.prod.Idle?
    ensures var n := Min(|src|, s.cap - 1 - |Queue(s)|);
            var s' := Run(s, Pushes(src, n));
            && s' == s.(slots := s'.slots, tail := s'.tail, pushed := s.pushed + src[..n])
            && Inv(s') && Queue(s') == Queue(s) + src[..n]
  {
    hide Run, Holds, Geometry, Next, Writes;
    var n := Min(|src|, s.cap - 1 - |Queue(s)|);
    RunKeepsInv(s, Pushes(src, n));
    if src == [] {
      PushNothing(s);
    } else {
      var loads := [PushLoadHead(src), PushLoadTail];
      PushLoads(s, src);
      PushEnds(Run(s, loads), n);
      assert Pushes(src, n) == loads + (Writes(n) + [PushPublish]);
      RunSplit(s, loads, Writes(n) + [PushPublish]);
    }
  }

  lemma RenderLoads(s: State, want: nat)
    requires Inv(s) && s.cons.Quiet?
    ensures Run(s, [RenderLoadHead(want), RenderLoadTail]) ==
            s.(cons := Reading(want, s.head, Min(want, |Queue(s)|), 0, |Queue(s)|))
  {
    hide Holds, Geometry, Run;
    TwoSteps(s, RenderLoadHead(want), RenderLoadTail);
    NextKeepsInv(s, RenderLoadHead(want));
    RenderTakesWhatIsThere(Next(s, RenderLoadHead(want)));
  }

  lemma RenderEnds(s: State, k: nat)
    requires |s.slots| == s.cap && s.cap >= 1 && s.cons.Reading? && s.cons.i + k == s.cons.take
    ensures var s' := Run(s, Reads(k) + [RenderPublish]);
            s' == s.(cons := Quiet, head := s'.head, taken := s.taken + s.cons.take, got := s'.got,
                     underruns := if s.cons.take < s.cons.want then s.underruns + 1 else s.underruns)
  {
    hide Run;
    ReadsAll(s, k);
    RunSplit(s, Reads(k), [RenderPublish]);
    TwoSteps(Run(s, Reads(k)), RenderPublish, RenderPublish);
  }

  /** A render, whatever the producer is at: the oldest frames come out, as many as are wanted or
      there, and too few count one underrun. */
  lemma RenderAlone(s: State, want: nat)
    requires Inv(s) && s.cons.Quiet?
    ensures var n := Min(want, |Queue(s)|);
            var s' := Run(s, Renders(want, n));
            && s' == s.(head := s'.head, taken := s.taken + n, got := s.got + Queue(s)[..n],
                        underruns := if |Queue(s)| < want then s.underruns + 1 else s.underruns)
            && Inv(s') && Queue(s') == Queue(s)[n..]
  {
    hide Run, Holds, Geometry, Next, Reads;
    var n := Min(want, |Queue(s)|);
    RunKeepsInv(s, Renders(want, n));
    var loads := [RenderLoadHead(want), RenderLoadTail];
    RenderLoads(s, want);
    RenderEnds(Run(s, loads), n);
    assert Renders(want, n) == loads + (Reads(n) + [RenderPublish]);
    RunSplit(s, loads, Reads(n) + [RenderPublish]);
    GotGrows(s, n);
  }

  lemma GotGrows(s: State, n: nat)
    requires s.taken + n <= |s.pushed|
    ensures s.pushed[..s.taken + n] == s.pushed[..s.taken] + Queue(s)[..n]
    ensures s.pushed[s.taken + n..] == Queue(s)[n..]
  {
  }

  /** ca_ring_space, whatever the render side is at: the frames that still fit. */
  lemma SpaceAlone(s: State)
    requires Inv(s) && s.prod.Idle?
    ensures Run(s, [SpaceLoadHead, SpaceLoadTail]) == s.(space := s.cap - 1 - |Queue(s)|)
  {
    hide Run, Holds, Geometry;
    TwoSteps(s, SpaceLoadHead, SpaceLoadTail);
    NextKeepsInv(s, SpaceLoadHead);
    SpaceIsExact(Next(s, SpaceLoadHead));
  }

  /** The gate, whatever the producer is at: it passes at once when n frames are queued, and giving
      up leaves everything as it was. */
  lemma GateAlone(s: State, n: nat)
    requires Inv(s) && s.cons.Quiet?
    ensures Run(s, [GateLoadHead(n), GatePoll]) == if n <= |Queue(s)| then s else s.(cons := Gating(n, s.head))
    ensures Run(s, [GateLoadHead(n), GateGiveUp]) == s
  {
    hide Run, Holds, Geometry;
    TwoSteps(s, GateLoadHead(n), GatePoll);
    TwoSteps(s, GateLoadHead(n), GateGiveUp);
    NextKeepsInv(s, GateLoadHead(n));
    GatePassesIff(Next(s, GateLoadHead(n)));
  }

  /** A push into the empty ring is taken whole whenever it fits. */
  lemma PushFills(cap: nat, blank: Frame, src: seq<Frame>)
    requires Geometry(cap) && |src| < cap
    ensures var s := Run(Init(cap, blank), Pushes(src, |src|));
            && s.pushed == src && s.taken == 0 && s.cons.Quiet? && s.prod.Idle? && s.cap == cap
  {
    hide Run, Geometry, Holds;
    InitInv(cap, blank);
    PushAlone(Init(cap, blank), src);
    assert src[..|src|] == src;
  }

  lemma PushNothing(s: State)
    requires |s.slots| == s.cap && s.cap >= 1
    ensures Run(s, [PushLoadHead([])]) == s
  {
    assert [PushLoadHead([])][1..] == [];
  }

  /** ca_ring_capacity is exact: no run ever has more than cap - 1 frames queued, and some run
      has that many. */
  lemma CapacityIsReached(cap: nat, blank: Frame, src: seq<Frame>, actions: seq<Action>)
    requires Geometry(cap) && |src| == cap - 1 && cap >= 1
    ensures var s := Reached(cap, blank, Pushes(src, |src|)); |s.pushed| - s.taken == cap - 1
    ensures var s := Reached(cap, blank, actions); |s.pushed| - s.taken <= cap - 1
  {
    PushFills(cap, blank, src);
    ConsumedIsPrefix(cap, blank, actions);
  }

  // ---- blocks as large as the ring -----------------------------------------------------

  /** The availability gate for a block of n frames lets the next poll through. */
  predicate GateOpens(s: State, n: nat)
    requires |s.slots| == s.cap && s.cap >= 1
  {
    s.cons.Gating? && s.cons.want == n && ConsumerNext(s, GatePoll).cons.Quiet?
  }

  /** Some run lets a block through the gate exactly when the block is smaller than the ring. */
  lemma GateCanOpenIff(cap: nat, blank: Frame, n: nat)
    requires Geometry(cap) && cap >= 1
    ensures (exists actions :: GateOpens(Reached(cap, blank, actions), n)) <==> n < cap
  {
    if n < cap {
      var src := seq(n, _ => blank);
      PushFills(cap, blank, src);
      var s, gate := Run(Init(cap, blank), Pushes(src, n)), GateLoadHead(n);
      RunSplit(Init(cap, blank), Pushes(src, n), [gate]);
      TwoSteps(s, gate, gate);
      var reaching := Pushes(src, n) + [gate];
      InitInv(cap, blank);
      RunKeepsInv(Init(cap, blank), reaching);
      GatePassesIff(Reached(cap, blank, reaching));
      assert GateOpens(Reached(cap, blank, reaching), n);
    }
    if actions :| GateOpens(Reached(cap, blank, actions), n) {
      InitInv(cap, blank);
      RunKeepsInv(Init(cap, blank), actions);
      GatePassesIff(Reached(cap, blank, actions));
      assert |Queue(Reached(cap, blank, actions))| < cap by { QueueShort(Reached(cap, blank, actions)); }
    }
  }

  /** In every run a render of a block as large as the ring falls short, and counts an underrun,
      whatever the producer has done. */
  lemma LargeBlockUnderruns(cap: nat, blank: Frame, actions: seq<Action>)
    requires Geometry(cap) && cap >= 1
    ensures var s := Reached(cap, blank, actions);
            s.cons.Reading? && s.cons.want >= cap ==>
              && s.cons.take < s.cons.want
              && (s.cons.i == s.cons.take ==> ConsumerNext(s, RenderPublish).underruns == s.underruns + 1)
  {
    InitInv(cap, blank);
    RunKeepsInv(Init(cap, blank), actions);
  }

  /** The frames ca_render_to_wav asks for at a time. */
  const BLOCK: nat := 512

  /** A ring of 512 slots, filled to the brim: the gate for a whole block still does not open. */
  lemma FullRingHoldsNoBlock(blank: Frame)
    ensures Geometry(BLOCK)
    ensures var actions := Pushes(seq(BLOCK - 1, _ => blank), BLOCK - 1) + [GateLoadHead(BLOCK)];
            var s := Reached(BLOCK, blank, actions);
            && |s.pushed| - s.taken == BLOCK - 1 && s.cons.Gating? && s.cons.want == BLOCK && !GateOpens(s, BLOCK)
  {
    assert Pow2(4) == 16;
    assert Pow2(9) == BLOCK;
    var src, gate := seq(BLOCK - 1, _ => blank), GateLoadHead(BLOCK);
    PushFills(BLOCK, blank, src);
    RunSplit(Init(BLOCK, blank), Pushes(src, BLOCK - 1), [gate]);
    TwoSteps(Run(Init(BLOCK, blank), Pushes(src, BLOCK - 1)), gate, gate);
    GateCanOpenIff(BLOCK, blank, BLOCK);
  }
}
