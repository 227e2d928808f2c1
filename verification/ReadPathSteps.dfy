/** Every step of the input path keeps its invariant. */
module ReadPathSteps {
  import opened Text
  import opened StompFrame
  import opened StompCodec
  import opened ActorPool
  import opened ActorPoolSteps
  import opened ReadPath

  // ------------------------------------------------------------------ one closure per act

  lemma InFlightIs(p: Pool<Lease>, t: nat)
    requires t < |p.threads| && p.threads[t].At? && Holding(p.threads[t].point) && ActInv(p, p.threads[t].act)
    ensures InFlight(p, p.threads[t].act) == [p.threads[t].task]
  {
    hide Held, Queued;
    HeldUpdate(p.threads, t, Idle, p.threads[t].act);
  }

  lemma HeldOnce(p: Pool<Lease>, t: nat, u: nat, a: Act)
    requires t < |p.threads| && u < |p.threads| && ActInv(p, a)
    requires HeldBy(p.threads[t], a) != [] && HeldBy(p.threads[u], a) != []
    ensures t == u
  {
    hide Held, Queued;
    if t != u {
      HeldUpdate(p.threads, t, Idle, a);
      HeldUpdate(p.threads[t := Idle], u, Idle, a);
    }
  }

  lemma {:induction false} QueuedSome(executor: seq<Closure<Lease>>, i: nat)
    requires i < |executor|
    ensures Queued(executor, executor[i].act) != []
  {
    if i > 0 {
      QueuedSome(executor[1..], i - 1);
    }
  }

  lemma NotQueuedToo(p: Pool<Lease>, t: nat, i: nat, a: Act)
    requires t < |p.threads| && i < |p.executor| && ActInv(p, a)
    requires HeldBy(p.threads[t], a) != []
    ensures p.executor[i].act != a
  {
    hide Held, Queued;
    HeldUpdate(p.threads, t, Idle, a);
    QueuedSome(p.executor, i);
  }

  // ------------------------------------------------------------------ connections a step does not touch

  ghost predicate SameHistory(s: ReadState, s': ReadState, a: Act)
  {
    && Hist(s'.wire, a) == Hist(s.wire, a) && Hist(s'.fed, a) == Hist(s.fed, a)
    && Hist(s'.text, a) == Hist(s.text, a) && Hist(s'.processed, a) == Hist(s.processed, a)
    && (a in s'.thrown <==> a in s.thrown) && s.nextId <= s'.nextId
  }

  /** Nothing leased for `a` has changed. */
  ghost predicate SameBuffers(s: ReadState, s': ReadState, a: Act)
  {
    && (forall l: Lease | l.act == a :: l in s'.released <==> l in s.released)
    && (forall b: nat | b < |s.memory| && b < |s.owner| && s.owner[b].LeasedTo? && s.owner[b].lease.act == a ::
          b < |s'.memory| && b < |s'.owner| && s'.owner[b] == s.owner[b] && s'.memory[b] == s.memory[b])
  }

  ghost predicate SameQueues(s: ReadState, s': ReadState, a: Act)
  {
    Unseen(s.pool, s'.pool, a) && Hand(s', a) == Hand(s, a)
  }

  lemma HoldsKept(s: ReadState, s': ReadState, l: Lease)
    requires SameBuffers(s, s', l.act)
    ensures Holds(s, l) ==> Holds(s', l) && s'.memory[l.buf] == s.memory[l.buf]
    ensures Untouched(s, l) ==> Untouched(s', l)
    ensures l in s.released || Holds(s, l) ==> Consumed(s', [l]) == Consumed(s, [l])
  {
  }

  ghost predicate AllOf(ls: seq<Lease>, a: Act) { forall i | 0 <= i < |ls| :: ls[i].act == a }

  ghost predicate PartsFor(v: Parts, a: Act)
  {
    AllOf(v.completed, a) && AllOf(v.inFlight, a) && AllOf(v.pending, a) && AllOf(v.hand, a)
  }

  lemma DeliveredKept(s: ReadState, s': ReadState, a: Act, v: Parts)
    requires Delivered(s, a, v) && PartsFor(v, a) && SameBuffers(s, s', a)
    requires Hist(s'.fed, a) == Hist(s.fed, a) && (a in s'.thrown <==> a in s.thrown)
    ensures Delivered(s', a, v)
  {
    hide Bytes, Consumed, Untouched, Holds;
    forall i | 0 <= i < |v.pending| ensures Untouched(s', v.pending[i]) { HoldsKept(s, s', v.pending[i]); }
    forall i | 0 <= i < |v.hand| ensures Untouched(s', v.hand[i]) { HoldsKept(s, s', v.hand[i]); }
    NothingConsumed(s, s');
    if v.inFlight != [] {
      assert v.inFlight == [v.inFlight[0]];
      HoldsKept(s, s', v.inFlight[0]);
    }
  }

  lemma NothingConsumed(s: ReadState, s': ReadState)
    ensures Consumed(s, []) == [] && Consumed(s', []) == []
  {
  }

  lemma PartsAreOf(c: seq<Lease>, f: seq<Lease>, p: seq<Lease>, h: seq<Lease>, a: Act)
    requires AllOf(c + f + p + h, a)
    ensures PartsFor(Parts(c, f, p, h), a)
  {
    var ls := c + f + p + h;
    forall i | 0 <= i < |c| ensures c[i].act == a { assert c[i] == ls[i]; }
    forall i | 0 <= i < |f| ensures f[i].act == a { assert f[i] == ls[|c| + i]; }
    forall i | 0 <= i < |p| ensures p[i].act == a { assert p[i] == ls[|c| + |f| + i]; }
    forall i | 0 <= i < |h| ensures h[i].act == a { assert h[i] == ls[|c| + |f| + |p| + i]; }
  }

  lemma LeasedParts(s: ReadState, a: Act)
    requires LeasesInv(s, a) && ActInv(s.pool, a)
    ensures PartsFor(PartsOf(s, a), a)
    ensures NoDup(Hist(s.pool.completed, a) + InFlight(s.pool, a) + Pending(s.pool, a) + Hand(s, a))
  {
    hide InFlight, Pending, Hand, Bytes, NoDup;
    PartsAreOf(Hist(s.pool.completed, a), InFlight(s.pool, a), Pending(s.pool, a), Hand(s, a), a);
  }

  lemma ConnKept(s: ReadState, s': ReadState, a: Act)
    requires ConnInv(s, a) && ActInv(s.pool, a)
    requires SameHistory(s, s', a) && SameBuffers(s, s', a) && SameQueues(s, s', a)
    ensures ConnInv(s', a)
  {
    hide InFlight, Pending, Hand, Bytes, Delivered, DecodeAll, PartsFor, SameBuffers, ActInv, LeasesInv, DecoderInv;
    LeasedParts(s, a);
    DeliveredKept(s, s', a, PartsOf(s, a));
    LeasesKept(s, s', a);
    DecoderKept(s, s', a);
    assert PartsOf(s', a) == PartsOf(s, a);
  }

  lemma LeasesKept(s: ReadState, s': ReadState, a: Act)
    requires LeasesInv(s, a) && SameHistory(s, s', a) && SameQueues(s, s', a)
    ensures LeasesInv(s', a)
  {
    hide Hand, Bytes, NoDup, View;
    assert Leases(s', a) == Leases(s, a);
  }

  lemma DecoderKept(s: ReadState, s': ReadState, a: Act)
    requires DecoderInv(s, a) && SameHistory(s, s', a)
    ensures DecoderInv(s', a)
  {
    hide DecodeAll;
  }

  // ------------------------------------------------------------------ a chunk is read for `a`

  lemma ChunkHand(s: ReadState, chunk: seq<Byte>)
    requires CanChunk(s, chunk) && SelectorInv(s)
    ensures Hand(s, s.reading.act) == []
    ensures Hand(DoChunk(s, chunk), s.reading.act) == [Lease(s.nextId, s.reading.act, s.reading.buf, chunk)]
  {
  }

  lemma ChunkLeases(s: ReadState, chunk: seq<Byte>)
    requires CanChunk(s, chunk) && SelectorInv(s) && LeasesInv(s, s.reading.act)
    ensures LeasesInv(DoChunk(s, chunk), s.reading.act)
    ensures Leases(DoChunk(s, chunk), s.reading.act)
         == Leases(s, s.reading.act) + [Lease(s.nextId, s.reading.act, s.reading.buf, chunk)]
  {
    hide Hand, Bytes, NoDup;
    ChunkHand(s, chunk);
    var a, lease := s.reading.act, Lease(s.nextId, s.reading.act, s.reading.buf, chunk);
    assert Hist(s.pool.submitted, a) + [] == Hist(s.pool.submitted, a);
    BytesAppend(Leases(s, a), [lease]);
    BytesOne(lease);
    NewestIsNew(Leases(s, a), lease);
  }

  lemma NewestIsNew(ls: seq<Lease>, l: Lease)
    requires NoDup(ls) && forall i | 0 <= i < |ls| :: ls[i].id < l.id
    ensures NoDup(ls + [l])
  {
  }

  /** The buffer being filled is the selector thread's, so no live lease looks at it. */
  lemma ChunkBuffers(s: ReadState, chunk: seq<Byte>, a: Act)
    requires CanChunk(s, chunk) && s.owner[s.reading.buf] == Selector
    ensures SameBuffers(s, DoChunk(s, chunk), a)
  {
  }

  lemma ChunkUntouched(s: ReadState, chunk: seq<Byte>)
    requires CanChunk(s, chunk) && forall l: Lease | l in s.released :: l.id < s.nextId
    ensures Untouched(DoChunk(s, chunk), Lease(s.nextId, s.reading.act, s.reading.buf, chunk))
  {
  }

  lemma HandFilled(s: ReadState, a: Act, v: Parts, l: Lease)
    requires Delivered(s, a, v) && Untouched(s, l)
    ensures Delivered(s, a, v.(hand := [l]))
  {
    hide Bytes, Consumed, Untouched, Live;
  }

  lemma ChunkDelivery(s: ReadState, chunk: seq<Byte>)
    requires CanChunk(s, chunk) && SelectorInv(s) && BuffersInv(s)
    requires DeliveryInv(s, s.reading.act) && LeasesInv(s, s.reading.act) && ActInv(s.pool, s.reading.act)
    ensures DeliveryInv(DoChunk(s, chunk), s.reading.act)
  {
    hide InFlight, Pending, Hand, Delivered, PartsFor, NoDup, Untouched, SameBuffers;
    var a, s' := s.reading.act, DoChunk(s, chunk);
    ChunkHand(s, chunk);
    ChunkBuffers(s, chunk, a);
    LeasedParts(s, a);
    var v := PartsOf(s, a);
    DeliveredKept(s, s', a, v);
    ChunkUntouched(s, chunk);
    HandFilled(s', a, v, Lease(s.nextId, a, s.reading.buf, chunk));
  }

  // ------------------------------------------------------------------ a lease enters the pool

  /** The buffers and leases are as they were. */
  ghost predicate SameMemory(s: ReadState, s': ReadState)
  {
    && s'.memory == s.memory && s'.owner == s.owner && s'.released == s.released && s'.fed == s.fed
    && s'.thrown == s.thrown
  }

  lemma FreshConsumed(s: ReadState, l: Lease)
    requires Untouched(s, l)
    ensures Consumed(s, [l]) == [] && Live(s, [l])
  {
  }

  lemma SubmitParts(s: ReadState, a: Act, v: Parts, r: Lease)
    requires Delivered(s, a, v) && v.hand == [r]
    ensures Delivered(s, a, if v.inFlight == [] then v.(inFlight := [r], hand := [])
                            else v.(pending := v.pending + [r], hand := []))
  {
    hide Bytes, Consumed, Untouched, Holds;
    assert Untouched(s, v.hand[0]);
    FreshConsumed(s, r);
    NothingConsumed(s, s);
  }

  lemma SameMemoryDelivered(s: ReadState, s': ReadState, a: Act, v: Parts)
    requires SameMemory(s, s')
    ensures Delivered(s', a, v) == Delivered(s, a, v)
  {
    hide Bytes;
    assert forall l: Lease :: Holds(s', l) == Holds(s, l);
    assert forall l: Lease :: Untouched(s', l) == Untouched(s, l);
    assert Consumed(s', v.inFlight) == Consumed(s, v.inFlight);
  }

  lemma SubmitHand(s: ReadState, t: nat, a: Act)
    requires CanMove(s, t) && SelectorInv(s) && TaskInv(s, t)
    requires var th := s.pool.threads[t]; th.act == a && (th.point.SubmitAdd? || th.point.SubmitOffer?)
    ensures Hand(s, a) == [s.pool.threads[t].task] && Hand(DoRead(s, PoolMoves(t)), a) == []
  {
    hide DoAdvance;
    AdvanceMoves(s.pool, t);
  }

  lemma SubmitLeases(s: ReadState, t: nat, a: Act)
    requires CanMove(s, t) && SelectorInv(s) && TaskInv(s, t) && Inv(s.pool) && LeasesInv(s, a)
    requires var th := s.pool.threads[t]; th.act == a && (th.point.SubmitAdd? || th.point.SubmitOffer?)
    ensures LeasesInv(DoRead(s, PoolMoves(t)), a)
    ensures Leases(DoRead(s, PoolMoves(t)), a) == Leases(s, a)
  {
    hide DoAdvance, Hand, View;
    SubmitHand(s, t, a);
    StepKeepsInv(s.pool, Advance(t));
    var p' := Do(s.pool, Advance(t));
    assert Effect(s.pool, p', Advance(t), a);
    var r := s.pool.threads[t].task;
    assert Hist(p'.submitted, a) + [] == Hist(s.pool.submitted, a) + [r];
  }

  lemma SubmitDelivery(s: ReadState, t: nat, a: Act)
    requires CanMove(s, t) && SelectorInv(s) && TaskInv(s, t) && Inv(s.pool) && DeliveryInv(s, a)
    requires var th := s.pool.threads[t]; th.act == a && (th.point.SubmitAdd? || th.point.SubmitOffer?)
    ensures DeliveryInv(DoRead(s, PoolMoves(t)), a)
  {
    hide DoAdvance, Hand, InFlight, Pending, Delivered, Inv;
    SubmitHand(s, t, a);
    StepKeepsInv(s.pool, Advance(t));
    assert Effect(s.pool, Do(s.pool, Advance(t)), Advance(t), a);
    var s' := DoRead(s, PoolMoves(t));
    SubmitParts(s, a, PartsOf(s, a), s.pool.threads[t].task);
    SameMemoryDelivered(s, s', a, PartsOf(s', a));
  }

  // ------------------------------------------------------------------ a lease leaves the pool

  lemma ReleasedConsumed(s: ReadState, l: Lease)
    requires l in s.released
    ensures Consumed(s, [l]) == l.bytes
  {
  }

  lemma CompleteParts(s: ReadState, a: Act, v: Parts, l: Lease)
    requires Delivered(s, a, v) && v.inFlight == [l] && l in s.released
    ensures Delivered(s, a, if v.pending == [] then v.(completed := v.completed + [l], inFlight := [])
                            else v.(completed := v.completed + [l], inFlight := [v.pending[0]],
                                    pending := v.pending[1..]))
  {
    hide Bytes, Consumed, Untouched, Holds;
    ReleasedConsumed(s, l);
    BytesAppend(v.completed, [l]);
    BytesOne(l);
    NothingConsumed(s, s);
    if v.pending != [] {
      assert Untouched(s, v.pending[0]);
      FreshConsumed(s, v.pending[0]);
    }
    var done := Bytes(v.completed + [l]);
    assert done + [] == done;
  }

  lemma CompleteDelivery(s: ReadState, t: nat, a: Act)
    requires CanMove(s, t) && SelectorInv(s) && TaskInv(s, t) && Inv(s.pool) && DeliveryInv(s, a)
    requires var th := s.pool.threads[t]; th.act == a && (th.point.CompleteRemove? || th.point.CompletePoll?)
    requires Hand(DoRead(s, PoolMoves(t)), a) == Hand(s, a)
    ensures DeliveryInv(DoRead(s, PoolMoves(t)), a)
  {
    hide DoAdvance, Hand, InFlight, Pending, Delivered;
    assert ActInv(s.pool, a);
    InFlightIs(s.pool, t);
    StepKeepsInv(s.pool, Advance(t));
    assert Effect(s.pool, Do(s.pool, Advance(t)), Advance(t), a);
    var s' := DoRead(s, PoolMoves(t));
    CompleteParts(s, a, PartsOf(s, a), s.pool.threads[t].task);
    SameMemoryDelivered(s, s', a, PartsOf(s', a));
  }

  lemma SameHand(s: ReadState, s': ReadState, a: Act)
    requires s'.pool == s.pool && s'.reading == s.reading
    ensures Hand(s', a) == Hand(s, a)
  {
  }

  // ------------------------------------------------------------------ a byte is drained

  ghost predicate Elsewhere(ls: seq<Lease>, l: Lease) { forall i | 0 <= i < |ls| :: ls[i] != l }

  lemma InFlightElsewhere(c: seq<Lease>, l: Lease, p: seq<Lease>, h: seq<Lease>)
    requires NoDup(c + [l] + p + h)
    ensures Elsewhere(c, l) && Elsewhere(p, l) && Elsewhere(h, l)
  {
    var ls := c + [l] + p + h;
    assert ls[|c|] == l;
    forall i | 0 <= i < |c| ensures c[i] != l { assert ls[i] == c[i]; }
    forall i | 0 <= i < |p| ensures p[i] != l { assert ls[|c| + 1 + i] == p[i]; }
    forall i | 0 <= i < |h| ensures h[i] != l { assert ls[|c| + 1 + |p| + i] == h[i]; }
  }

  /** The worker in a task has the one in-flight lease of its connection, and its buffer unless released. */
  lemma TaskLease(s: ReadState, t: nat)
    requires InTask(s, t) && TaskInv(s, t) && ActInv(s.pool, TaskOf(s, t).act) && LeasesInv(s, TaskOf(s, t).act)
    requires DeliveryInv(s, TaskOf(s, t).act)
    ensures var l := TaskOf(s, t); var v := PartsOf(s, l.act);
      && v.inFlight == [l] && l.id < s.nextId
      && Elsewhere(v.completed, l) && Elsewhere(v.pending, l) && Elsewhere(v.hand, l)
      && (!s.progress[t].Done? ==> l !in s.released && Holds(s, l))
  {
    var l := TaskOf(s, t);
    InFlightIs(s.pool, t);
    hide InFlight, Pending, Hand, Bytes, Holds, PartsFor, Consumed, AllReleased, AllUntouched;
    LeasedParts(s, l.act);
    var v := PartsOf(s, l.act);
    InFlightElsewhere(v.completed, l, v.pending, v.hand);
    assert Leases(s, l.act) == v.completed + [l] + v.pending + v.hand;
    assert Leases(s, l.act)[|v.completed|] == l;
  }

  lemma DrainElsewhere(s: ReadState, t: nat, throws: bool, l: Lease)
    requires CanDrain(s, t) && Holds(s, TaskOf(s, t)) && l != TaskOf(s, t)
    ensures Untouched(s, l) ==> Untouched(DoDrain(s, t, throws), l)
  {
  }

  lemma DrainConsumed(s: ReadState, t: nat, throws: bool)
    requires CanDrain(s, t) && Holds(s, TaskOf(s, t)) && TaskOf(s, t) !in s.released
    ensures var l, s' := TaskOf(s, t), DoDrain(s, t, throws); var pos := s.memory[l.buf].position;
      && Holds(s', l) && pos < |l.bytes|
      && Consumed(s', [l]) == Consumed(s, [l]) + [l.bytes[pos]]
      && s'.fed == Append(s.fed, l.act, l.bytes[pos])
  {
  }

  lemma DrainParts(s: ReadState, t: nat, throws: bool, v: Parts)
    requires CanDrain(s, t)
    requires var l := TaskOf(s, t);
      && Holds(s, l) && l !in s.released && v.inFlight == [l] && Delivered(s, l.act, v)
      && Elsewhere(v.pending, l) && Elsewhere(v.hand, l)
    ensures Delivered(DoDrain(s, t, throws), TaskOf(s, t).act, v)
  {
    hide Bytes, Consumed, Untouched, Holds, DecodeByte;
    var l, s' := TaskOf(s, t), DoDrain(s, t, throws);
    forall i | 0 <= i < |v.pending| ensures Untouched(s', v.pending[i]) { DrainElsewhere(s, t, throws, v.pending[i]); }
    forall i | 0 <= i < |v.hand| ensures Untouched(s', v.hand[i]) { DrainElsewhere(s, t, throws, v.hand[i]); }
    DrainConsumed(s, t, throws);
    Assoc(Bytes(v.completed), Consumed(s, [l]), [l.bytes[s.memory[l.buf].position]]);
  }

  lemma DrainDecoder(s: ReadState, t: nat, throws: bool)
    requires CanDrain(s, t) && DecoderInv(s, TaskOf(s, t).act)
    ensures DecoderInv(DoDrain(s, t, throws), TaskOf(s, t).act)
  {
    hide ParseFrame;
    var l := TaskOf(s, t);
    var b := s.memory[l.buf].data[s.memory[l.buf].position];
    DecodeSnoc(FRESH, Hist(s.fed, l.act), b);
  }

  lemma DrainConn(s: ReadState, t: nat, throws: bool)
    requires CanDrain(s, t) && TaskInv(s, t)
    requires ConnInv(s, TaskOf(s, t).act) && ActInv(s.pool, TaskOf(s, t).act)
    ensures ConnInv(DoDrain(s, t, throws), TaskOf(s, t).act)
  {
    hide InFlight, Pending, Hand, Bytes, Delivered, DecodeByte, DecodeAll, NoDup, Elsewhere, Holds;
    var l := TaskOf(s, t);
    TaskLease(s, t);
    SameHand(s, DoDrain(s, t, throws), l.act);
    DrainParts(s, t, throws, PartsOf(s, l.act));
    DrainDecoder(s, t, throws);
  }

  // ------------------------------------------------------------------ a buffer is released

  lemma ReleaseElsewhere(s: ReadState, t: nat, l: Lease)
    requires CanRelease(s, t) && Holds(s, TaskOf(s, t)) && l != TaskOf(s, t)
    ensures Untouched(s, l) ==> Untouched(DoRelease(s, t), l)
  {
  }

  lemma ReleaseParts(s: ReadState, t: nat, v: Parts)
    requires CanRelease(s, t) && TaskInv(s, t)
    requires var l := TaskOf(s, t);
      && Holds(s, l) && l !in s.released && v.inFlight == [l] && Delivered(s, l.act, v)
      && Elsewhere(v.pending, l) && Elsewhere(v.hand, l)
    ensures Delivered(DoRelease(s, t), TaskOf(s, t).act, v)
  {
    hide Bytes, Untouched;
    var l, s' := TaskOf(s, t), DoRelease(s, t);
    forall i | 0 <= i < |v.pending| ensures Untouched(s', v.pending[i]) { ReleaseElsewhere(s, t, v.pending[i]); }
    forall i | 0 <= i < |v.hand| ensures Untouched(s', v.hand[i]) { ReleaseElsewhere(s, t, v.hand[i]); }
    ReleasedConsumed(s', l);
    if l.act !in s.thrown { assert Consumed(s, [l]) == l.bytes; }
  }

  lemma ReleaseConn(s: ReadState, t: nat)
    requires CanRelease(s, t) && TaskInv(s, t)
    requires ConnInv(s, TaskOf(s, t).act) && ActInv(s.pool, TaskOf(s, t).act)
    ensures ConnInv(DoRelease(s, t), TaskOf(s, t).act)
  {
    hide InFlight, Pending, Hand, Bytes, Delivered, DecodeAll, NoDup, Elsewhere, Holds;
    TaskLease(s, t);
    SameHand(s, DoRelease(s, t), TaskOf(s, t).act);
    ReleaseParts(s, t, PartsOf(s, TaskOf(s, t).act));
  }

  // ------------------------------------------------------------------ all connections, step by step

  /** The connections a step of the input path does something for. */
  ghost predicate Concerns(s: ReadState, l: ReadStep, a: Act)
  {
    match l
    case ReadChunk(_) => s.reading.Reading? && s.reading.act == a
    case PoolMoves(t) =>
      && t < |s.pool.threads| && Refers(s.pool.threads[t], a)
      && (var p := s.pool.threads[t].point;
          p.SubmitAdd? || p.SubmitOffer? || p.CompleteRemove? || p.CompletePoll?)
    case DrainByte(t, _) => InTask(s, t) && TaskOf(s, t).act == a
    case ReleaseBuffer(t) => InTask(s, t) && TaskOf(s, t).act == a
    case _ => false
  }

  /** The step of the pool inside a step of the input path. */
  ghost predicate PoolStepOf(s: ReadState, l: ReadStep, pl: Step<Lease>)
  {
    match l
    case SubmitTask => s.reading.Filled? && pl == Invoke(0, s.reading.lease.act, s.reading.lease)
    case PoolMoves(t) => pl == Advance(t)
    case PoolCollects(a) => pl == Collect(a)
    case TakeTask(t) => pl == Take(t)
    case TaskReturns(t) => pl == Advance(t)
    case _ => false
  }

  lemma PlacedKept(s: ReadState, t: nat, a: Act)
    requires CanStep(s.pool, Advance(t)) && |s.progress| == |s.pool.threads| && TaskInv(s, t)
    requires var th := s.pool.threads[t]; th.act == a ==> !th.point.SubmitAdd? && !th.point.SubmitOffer?
    ensures Placed(DoAdvance(s.pool, t), a) == Placed(s.pool, a)
  {
    hide DoAdvance;
    AdvanceMoves(s.pool, t);
    var th, th' := s.pool.threads[t], DoAdvance(s.pool, t).threads[t];
    if t == 0 && th.act == a && th'.At? {
      assert Placing(th.point) <==> Placing(th'.point);
    }
  }

  /** A step of the pool that does not place or finish a lease of `a` leaves the hand of `a` alone. */
  lemma PoolHand(s: ReadState, l: ReadStep, pl: Step<Lease>, a: Act)
    requires CanRead(s, l) && PoolStepOf(s, l, pl) && SelectorInv(s)
    requires pl.Advance? ==> TaskInv(s, pl.thread)
    requires !Concerns(s, l, a)
    ensures Hand(DoRead(s, l), a) == Hand(s, a)
  {
    if pl.Advance? {
      hide DoAdvance, Placed;
      PlacedKept(s, pl.thread, a);
    } else if pl.Invoke? {
      assert Placed(s.pool, a) == [];
    }
  }

  lemma PoolUnseen(s: ReadState, l: ReadStep, pl: Step<Lease>, a: Act)
    requires CanRead(s, l) && PoolStepOf(s, l, pl) && Inv(s.pool) && !Concerns(s, l, a)
    ensures Unseen(s.pool, DoRead(s, l).pool, a)
  {
    hide DoAdvance, Unseen, Submits, Completes, Inv;
    StepKeepsInv(s.pool, pl);
    assert Effect(s.pool, Do(s.pool, pl), pl, a);
  }

  lemma PoolConn(s: ReadState, l: ReadStep, pl: Step<Lease>, a: Act)
    requires CanRead(s, l) && PoolStepOf(s, l, pl) && SelectorInv(s) && Inv(s.pool)
    requires pl.Advance? ==> TaskInv(s, pl.thread)
    requires ConnInv(s, a) && !Concerns(s, l, a)
    ensures ConnInv(DoRead(s, l), a)
  {
    hide DoRead, Hand, View, ConnInv, Inv, ActInv, SelectorInv, TaskInv, Concerns, Unseen, SameHistory, SameBuffers,
      CanRead, PoolStepOf;
    PoolUnseen(s, l, pl, a);
    PoolHand(s, l, pl, a);
    ActOfInv(s.pool, a);
    PoolSame(s, l, pl, a);
    ConnKept(s, DoRead(s, l), a);
  }

  lemma PoolSame(s: ReadState, l: ReadStep, pl: Step<Lease>, a: Act)
    requires CanRead(s, l) && PoolStepOf(s, l, pl)
    ensures SameHistory(s, DoRead(s, l), a) && SameBuffers(s, DoRead(s, l), a)
  {
    hide Do;
  }

  lemma SubmitConn(s: ReadState, t: nat, a: Act)
    requires CanMove(s, t) && SelectorInv(s) && Inv(s.pool) && TaskInv(s, t) && ConnInv(s, a)
    requires var th := s.pool.threads[t]; th.act == a && (th.point.SubmitAdd? || th.point.SubmitOffer?)
    ensures ConnInv(DoRead(s, PoolMoves(t)), a)
  {
    hide DoAdvance, LeasesInv, DeliveryInv, DecoderInv, Inv, SelectorInv, TaskInv, Leases;
    SubmitLeases(s, t, a);
    SubmitDelivery(s, t, a);
    PoolHistory(s, DoAdvance(s.pool, t), a);
  }

  lemma CompleteHand(s: ReadState, t: nat, a: Act)
    requires CanMove(s, t) && SelectorInv(s) && TaskInv(s, t) && Inv(s.pool)
    requires var th := s.pool.threads[t]; th.act == a && (th.point.CompleteRemove? || th.point.CompletePoll?)
    ensures var s' := DoRead(s, PoolMoves(t)); Hand(s', a) == Hand(s, a) && Leases(s', a) == Leases(s, a)
  {
    hide DoAdvance, View;
    AdvanceMoves(s.pool, t);
    StepKeepsInv(s.pool, Advance(t));
    assert Effect(s.pool, Do(s.pool, Advance(t)), Advance(t), a);
  }

  lemma CompleteConn(s: ReadState, t: nat, a: Act)
    requires CanMove(s, t) && SelectorInv(s) && Inv(s.pool) && TaskInv(s, t) && ConnInv(s, a)
    requires var th := s.pool.threads[t]; th.act == a && (th.point.CompleteRemove? || th.point.CompletePoll?)
    ensures ConnInv(DoRead(s, PoolMoves(t)), a)
  {
    hide DoAdvance, Hand, Leases, LeasesInv, DeliveryInv, DecoderInv, Inv, SelectorInv, TaskInv;
    CompleteHand(s, t, a);
    CompleteDelivery(s, t, a);
    PoolHistory(s, DoAdvance(s.pool, t), a);
  }

  /** A step inside the pool changes neither the bytes read for `a` nor its decoder. */
  lemma PoolHistory(s: ReadState, pool: Pool<Lease>, a: Act)
    requires LeasesInv(s, a) && DecoderInv(s, a) && Leases(s.(pool := pool), a) == Leases(s, a)
    ensures LeasesInv(s.(pool := pool), a) && DecoderInv(s.(pool := pool), a)
  {
    hide Leases, Bytes, NoDup, DecodeAll;
  }

  lemma ChunkConn(s: ReadState, chunk: seq<Byte>)
    requires CanChunk(s, chunk) && SelectorInv(s) && BuffersInv(s)
    requires ConnInv(s, s.reading.act) && ActInv(s.pool, s.reading.act)
    ensures ConnInv(DoChunk(s, chunk), s.reading.act)
  {
    ChunkLeases(s, chunk);
    ChunkDelivery(s, chunk);
    hide LeasesInv, DeliveryInv, DecodeAll, BuffersInv;
  }

  lemma LeaseBuffers(s: ReadState, act: Act, a: Act)
    requires CanLease(s) && BuffersInv(s)
    ensures SameBuffers(s, DoLease(s, act), a)
  {
    if s.free != [] { assert s.owner[s.free[0]] == Pooled; }
  }

  lemma LeaseConn(s: ReadState, act: Act, a: Act)
    requires CanLease(s) && BuffersInv(s) && ConnInv(s, a) && ActInv(s.pool, a)
    ensures ConnInv(DoLease(s, act), a)
  {
    hide View, BuffersInv, ConnInv, ActInv, SameBuffers;
    LeaseBuffers(s, act, a);
    var s' := DoLease(s, act);
    assert Hand(s', a) == Hand(s, a);
    ConnKept(s, s', a);
  }

  lemma FailBuffers(s: ReadState, a: Act)
    requires CanRead(s, ReadFails) && BuffersInv(s)
    ensures SameBuffers(s, DoRead(s, ReadFails), a)
  {
  }

  lemma FailConn(s: ReadState, a: Act)
    requires CanRead(s, ReadFails) && BuffersInv(s) && ConnInv(s, a) && ActInv(s.pool, a)
    ensures ConnInv(DoRead(s, ReadFails), a)
  {
    hide View, BuffersInv, ConnInv, ActInv, SameBuffers;
    FailBuffers(s, a);
    var s' := DoRead(s, ReadFails);
    assert Hand(s', a) == Hand(s, a);
    ConnKept(s, s', a);
  }

  lemma ReadingIsSelectors(s: ReadState)
    requires BuffersInv(s) && s.reading.Reading?
    ensures s.reading.buf < |s.owner| && s.owner[s.reading.buf] == Selector
  {
  }

  lemma ChunkOther(s: ReadState, chunk: seq<Byte>, a: Act)
    requires CanChunk(s, chunk) && BuffersInv(s) && ConnInv(s, a) && ActInv(s.pool, a)
    requires s.reading.act != a
    ensures ConnInv(DoChunk(s, chunk), a)
  {
    hide View, BuffersInv, ConnInv, ActInv, SameBuffers;
    ReadingIsSelectors(s);
    ChunkBuffers(s, chunk, a);
    assert Hand(DoChunk(s, chunk), a) == Hand(s, a);
    ConnKept(s, DoChunk(s, chunk), a);
  }

  lemma DrainOther(s: ReadState, t: nat, throws: bool, a: Act)
    requires CanDrain(s, t) && Holds(s, TaskOf(s, t)) && ConnInv(s, a) && ActInv(s.pool, a)
    requires TaskOf(s, t).act != a
    ensures ConnInv(DoDrain(s, t, throws), a)
  {
    hide View, ConnInv, ActInv, DecodeByte;
    var s' := DoDrain(s, t, throws);
    assert Hand(s', a) == Hand(s, a);
    ConnKept(s, s', a);
  }

  lemma ReleaseOther(s: ReadState, t: nat, a: Act)
    requires CanRelease(s, t) && Holds(s, TaskOf(s, t)) && ConnInv(s, a) && ActInv(s.pool, a)
    requires TaskOf(s, t).act != a
    ensures ConnInv(DoRelease(s, t), a)
  {
    hide View, ConnInv, ActInv;
    var s' := DoRelease(s, t);
    assert Hand(s', a) == Hand(s, a);
    ConnKept(s, s', a);
  }

  lemma ConnStep(s: ReadState, l: ReadStep, a: Act)
    requires ReadInv(s) && CanRead(s, l)
    ensures ConnInv(DoRead(s, l), a)
  {
    hide ConnInv, ActInv, TaskInv, SelectorInv, BuffersInv, ClosureInv, Inv, DoLease, DoChunk, DoDrain, DoRelease, Do;
    assert ConnInv(s, a);
    assert ActInv(s.pool, a) by { ActOfInv(s.pool, a); }
    match l {
      case LeaseBuffer(act) => LeaseConn(s, act, a);
      case ReadFails => FailConn(s, a);
      case ReadChunk(chunk) => if s.reading.act == a { ChunkConn(s, chunk); } else { ChunkOther(s, chunk, a); }
      case SubmitTask => PoolConn(s, l, Invoke(0, s.reading.lease.act, s.reading.lease), a);
      case PoolCollects(b) => PoolConn(s, l, Collect(b), a);
      case TakeTask(t) => PoolConn(s, l, Take(t), a);
      case TaskReturns(t) =>
        assert TaskInv(s, t);
        PoolConn(s, l, Advance(t), a);
      case PoolMoves(t) => MovesConn(s, t, a);
      case DrainByte(t, throws) =>
        HoldsInTask(s, t);
        if TaskOf(s, t).act == a { DrainConn(s, t, throws); } else { DrainOther(s, t, throws, a); }
      case ReleaseBuffer(t) =>
        HoldsInTask(s, t);
        if TaskOf(s, t).act == a { ReleaseConn(s, t); } else { ReleaseOther(s, t, a); }
    }
  }

  lemma ActOfInv(p: Pool<Lease>, a: Act)
    requires Inv(p)
    ensures ActInv(p, a)
  {
  }

  lemma ThreadsCounted(s: ReadState)
    requires SelectorInv(s)
    ensures |s.progress| == |s.pool.threads|
  {
  }

  lemma MovesConn(s: ReadState, t: nat, a: Act)
    requires ReadInv(s) && CanMove(s, t)
    ensures ConnInv(DoRead(s, PoolMoves(t)), a)
  {
    hide ConnInv, SelectorInv, BuffersInv, ClosureInv, Inv, DoAdvance, Submitting, Holding;
    ThreadsCounted(s);
    assert TaskInv(s, t);
    assert ConnInv(s, a);
    var th := s.pool.threads[t];
    if th.act == a && (th.point.SubmitAdd? || th.point.SubmitOffer?) {
      SubmitConn(s, t, a);
    } else if th.act == a && (th.point.CompleteRemove? || th.point.CompletePoll?) {
      CompleteConn(s, t, a);
    } else {
      PoolConn(s, PoolMoves(t), Advance(t), a);
    }
  }

  lemma HoldsInTask(s: ReadState, t: nat)
    requires ReadInv(s) && InTask(s, t) && !s.progress[t].Done?
    ensures TaskInv(s, t) && ConnInv(s, TaskOf(s, t).act) && ActInv(s.pool, TaskOf(s, t).act)
    ensures TaskOf(s, t) !in s.released && Holds(s, TaskOf(s, t))
  {
    hide BuffersInv, ClosureInv, LeasesInv, DeliveryInv, DecoderInv, Inv, Holds, SelectorInv;
    ThreadsCounted(s);
    var a := TaskOf(s, t).act;
    assert TaskInv(s, t);
    assert ConnInv(s, a);
    ActOfInv(s.pool, a);
    TaskLease(s, t);
  }
}
