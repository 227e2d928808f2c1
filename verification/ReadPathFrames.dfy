/** The rest of the input path's invariant, step by step: tasks, closures, the selector and the buffers. */
module ReadPathFrames {
  import opened StompCodec
  import opened ActorPool
  import opened ActorPoolSteps
  import opened ReadPath
  import opened ReadPathSteps

  // ------------------------------------------------------------------ tasks

  lemma PollTask(p: Pool<Lease>, t: nat)
    requires CanStep(p, Advance(t)) && p.threads[t].point.CompletePoll? && ThreadInv(p, t)
    ensures Pending(p, p.threads[t].act) != []
    ensures DoAdvance(p, t).threads[t].task == Pending(p, p.threads[t].act)[0]
  {
  }

  /** The task a thread has in hand after its next access is, unless polled, the one it had. */
  lemma PlacedIsUntouched(s: ReadState, t: nat)
    requires CanMove(s, t) && SelectorInv(s) && TaskInv(s, t) && DeliveryInv(s, s.pool.threads[t].act)
    requires s.pool.threads[t].point.SubmitAdd?
    ensures s.pool.threads[t].task !in s.released
  {
    hide Delivered, DoAdvance, InFlight, Pending;
    var a := s.pool.threads[t].act;
    SubmitHand(s, t, a);
    HandUntouched(s, a, PartsOf(s, a));
    assert PartsOf(s, a).hand[0] == s.pool.threads[t].task;
  }

  lemma HandUntouched(s: ReadState, a: Act, v: Parts)
    requires Delivered(s, a, v)
    ensures forall i | 0 <= i < |v.hand| :: v.hand[i] !in s.released
    ensures forall i | 0 <= i < |v.pending| :: v.pending[i] !in s.released
  {
    hide Bytes, Consumed, Holds;
    forall i | 0 <= i < |v.hand| ensures v.hand[i] !in s.released { assert Untouched(s, v.hand[i]); }
    forall i | 0 <= i < |v.pending| ensures v.pending[i] !in s.released { assert Untouched(s, v.pending[i]); }
  }

  lemma PolledIsUntouched(s: ReadState, t: nat)
    requires t < |s.pool.threads| && s.pool.threads[t].At? && s.pool.threads[t].point.CompletePoll? && CanMove(s, t)
    requires ThreadInv(s.pool, t) && ConnInv(s, s.pool.threads[t].act) && ActInv(s.pool, s.pool.threads[t].act)
    ensures var l := DoAdvance(s.pool, t).threads[t].task; l !in s.released && l.act == s.pool.threads[t].act
  {
    hide Delivered, DoAdvance, InFlight, Hand, Pending, Bytes, NoDup;
    var a := s.pool.threads[t].act;
    PollTask(s.pool, t);
    HandUntouched(s, a, PartsOf(s, a));
    LeasedParts(s, a);
  }

  lemma MovedTask(s: ReadState, l: ReadStep, t: nat)
    requires CanRead(s, l) && PoolStepOf(s, l, Advance(t)) && |s.progress| == |s.pool.threads| && TaskInv(s, t)
    requires l.TaskReturns? ==> s.progress[t].Done?
    requires s.pool.threads[t].point.SubmitAdd? ==> s.pool.threads[t].task !in s.released
    requires s.pool.threads[t].point.CompletePoll? ==>
               var r := DoAdvance(s.pool, t).threads[t].task; r !in s.released && r.act == s.pool.threads[t].act
    ensures |DoAdvance(s.pool, t).threads| == |s.pool.threads| && TaskInv(DoRead(s, l), t)
  {
    hide DoAdvance;
    AdvanceMoves(s.pool, t);
  }

  lemma OtherTask(s: ReadState, l: ReadStep, pl: Step<Lease>, u: nat)
    requires CanRead(s, l) && PoolStepOf(s, l, pl) && |s.progress| == |s.pool.threads|
    requires u < |s.pool.threads| && TaskInv(s, u) && (pl.Collect? || pl.thread != u)
    ensures u < |DoRead(s, l).pool.threads| && TaskInv(DoRead(s, l), u)
  {
    hide DoAdvance;
    if pl.Advance? { AdvanceMoves(s.pool, pl.thread); }
  }

  lemma TakenTask(s: ReadState, t: nat)
    requires CanRead(s, TakeTask(t)) && |s.progress| == |s.pool.threads| && ClosureInv(s, s.pool.executor[0])
    ensures TaskInv(DoRead(s, TakeTask(t)), t)
  {
  }

  lemma SubmittedTask(s: ReadState)
    requires CanRead(s, SubmitTask) && |s.progress| == |s.pool.threads|
    ensures TaskInv(DoRead(s, SubmitTask), 0)
  {
  }

  lemma AdvancedTask(s: ReadState, l: ReadStep, t: nat)
    requires ReadInv(s) && CanRead(s, l) && PoolStepOf(s, l, Advance(t))
    ensures |DoAdvance(s.pool, t).threads| == |s.pool.threads| && TaskInv(DoRead(s, l), t)
  {
    hide ConnInv, BuffersInv, ClosureInv, DoAdvance, Submitting, Holding, ActInv, SelectorInv, TaskInv;
    ThreadsCounted(s);
    var a := s.pool.threads[t].act;
    assert TaskInv(s, t) && ThreadInv(s.pool, t);
    assert ConnInv(s, a) && ActInv(s.pool, a);
    ConnParts(s, a);
    if s.pool.threads[t].point.SubmitAdd? { PlacedIsUntouched(s, t); }
    if s.pool.threads[t].point.CompletePoll? { PolledIsUntouched(s, t); }
    MovedTask(s, l, t);
  }

  lemma ConnParts(s: ReadState, a: Act)
    requires ConnInv(s, a)
    ensures DeliveryInv(s, a) && LeasesInv(s, a)
  {
  }

  lemma ReleaseTask(s: ReadState, t: nat, u: nat)
    requires CanRelease(s, t) && |s.progress| == |s.pool.threads| && u < |s.pool.threads|
    requires TaskInv(s, t) && TaskInv(s, u) && ActInv(s.pool, TaskOf(s, t).act)
    ensures TaskInv(DoRelease(s, t), u)
  {
    hide ActInv;
    var th, tu := s.pool.threads[t], s.pool.threads[u];
    if u != t && tu.At? && Holding(tu.point) && tu.task == th.task { HeldOnce(s.pool, t, u, th.act); }
  }

  lemma DrainTask(s: ReadState, t: nat, throws: bool, u: nat)
    requires CanDrain(s, t) && |s.progress| == |s.pool.threads| && u < |s.pool.threads|
    requires TaskInv(s, t) && TaskInv(s, u)
    ensures TaskInv(DoDrain(s, t, throws), u)
  {
    hide DecodeByte;
  }

  lemma TaskStep(s: ReadState, l: ReadStep, u: nat)
    requires ReadInv(s) && CanRead(s, l) && u < |s.pool.threads|
    ensures u < |DoRead(s, l).pool.threads| && u < |DoRead(s, l).progress| && TaskInv(DoRead(s, l), u)
  {
    hide ConnInv, BuffersInv, ClosureInv, SelectorInv, Inv, ActInv, TaskInv, Do, DoDrain, DoRelease, DoLease, DoChunk;
    ThreadsCounted(s);
    SameThreadCount(s, l);
    SameProgressCount(s, l);
    assert TaskInv(s, u);
    match l {
      case SubmitTask =>
        var invoke := Invoke(0, s.reading.lease.act, s.reading.lease);
        if u == 0 { SubmittedTask(s); } else { OtherTask(s, l, invoke, u); }
      case PoolCollects(b) => OtherTask(s, l, Collect(b), u);
      case TakeTask(t) =>
        assert ClosureInv(s, s.pool.executor[0]);
        if u == t { TakenTask(s, t); } else { OtherTask(s, l, Take(t), u); }
      case TaskReturns(t) => if u == t { AdvancedTask(s, l, t); } else { OtherTask(s, l, Advance(t), u); }
      case PoolMoves(t) => if u == t { AdvancedTask(s, l, t); } else { OtherTask(s, l, Advance(t), u); }
      case DrainByte(t, throws) =>
        assert TaskInv(s, t);
        DrainTask(s, t, throws, u);
      case ReleaseBuffer(t) =>
        assert TaskInv(s, t);
        ActOfInv(s.pool, TaskOf(s, t).act);
        ReleaseTask(s, t, u);
      case LeaseBuffer(_) => QuietTask(s, l, u);
      case ReadChunk(_) => QuietTask(s, l, u);
      case ReadFails => QuietTask(s, l, u);
    }
  }

  lemma QuietTask(s: ReadState, l: ReadStep, u: nat)
    requires CanRead(s, l) && (l.LeaseBuffer? || l.ReadChunk? || l.ReadFails?)
    requires u < |s.pool.threads| && u < |s.progress| && TaskInv(s, u)
    ensures u < |DoRead(s, l).pool.threads| && u < |DoRead(s, l).progress| && TaskInv(DoRead(s, l), u)
  {
    hide TaskInv, CanRead, DoRead;
    QuietStep(s, l);
    SameTask(s, DoRead(s, l), u);
  }

  lemma QuietStep(s: ReadState, l: ReadStep)
    requires CanRead(s, l) && (l.LeaseBuffer? || l.ReadChunk? || l.ReadFails?)
    ensures var s' := DoRead(s, l);
            s'.pool == s.pool && s'.progress == s.progress && s'.thrown == s.thrown && s'.released == s.released
  {
    hide CanStep, Do, DoDrain, DoRelease, DoLease, DoChunk, CanDrain, CanRelease, CanMove;
    match l {
      case LeaseBuffer(act) => QuietLease(s, act);
      case ReadChunk(chunk) => QuietChunk(s, chunk);
      case _ =>
    }
  }

  lemma QuietLease(s: ReadState, act: Act)
    requires CanLease(s)
    ensures var s' := DoLease(s, act);
            s'.pool == s.pool && s'.progress == s.progress && s'.thrown == s.thrown && s'.released == s.released
  {
  }

  lemma QuietChunk(s: ReadState, chunk: seq<Byte>)
    requires CanChunk(s, chunk)
    ensures var s' := DoChunk(s, chunk);
            s'.pool == s.pool && s'.progress == s.progress && s'.thrown == s.thrown && s'.released == s.released
  {
  }

  lemma SameTask(s: ReadState, s': ReadState, u: nat)
    requires s'.pool == s.pool && s'.progress == s.progress && s'.thrown == s.thrown && s'.released == s.released
    requires u < |s.pool.threads| && u < |s.progress| && TaskInv(s, u)
    ensures TaskInv(s', u)
  {
  }

  // ------------------------------------------------------------------ closures in the executor

  ghost predicate ClosuresInv(s: ReadState)
  {
    forall i | 0 <= i < |s.pool.executor| :: ClosureInv(s, s.pool.executor[i])
  }

  lemma PoolClosures(s: ReadState, l: ReadStep, pl: Step<Lease>)
    requires CanRead(s, l) && PoolStepOf(s, l, pl) && ClosuresInv(s) && |s.progress| == |s.pool.threads|
    requires pl.Advance? ==> TaskInv(s, pl.thread)
    ensures ClosuresInv(DoRead(s, l))
  {
    hide DoAdvance;
    if pl.Advance? { AdvanceMoves(s.pool, pl.thread); }
  }

  lemma ReleaseClosures(s: ReadState, t: nat)
    requires CanRelease(s, t) && ClosuresInv(s) && TaskInv(s, t) && ActInv(s.pool, TaskOf(s, t).act)
    ensures ClosuresInv(DoRelease(s, t))
  {
    hide ActInv;
    var s' := DoRelease(s, t);
    forall i | 0 <= i < |s.pool.executor| ensures ClosureInv(s', s.pool.executor[i]) {
      assert ClosureInv(s, s.pool.executor[i]);
      NotQueuedToo(s.pool, t, i, TaskOf(s, t).act);
    }
  }

  lemma ClosuresStep(s: ReadState, l: ReadStep)
    requires ReadInv(s) && CanRead(s, l)
    ensures ClosuresInv(DoRead(s, l))
  {
    hide ConnInv, BuffersInv, SelectorInv, Inv, ActInv, DoAdvance, Submitting, Holding, DecodeByte, ClosureInv;
    ThreadsCounted(s);
    match l {
      case SubmitTask => PoolClosures(s, l, Invoke(0, s.reading.lease.act, s.reading.lease));
      case PoolCollects(b) => PoolClosures(s, l, Collect(b));
      case TakeTask(t) => PoolClosures(s, l, Take(t));
      case TaskReturns(t) =>
        assert TaskInv(s, t);
        PoolClosures(s, l, Advance(t));
      case PoolMoves(t) =>
        assert TaskInv(s, t);
        PoolClosures(s, l, Advance(t));
      case ReleaseBuffer(t) =>
        assert TaskInv(s, t);
        ActOfInv(s.pool, TaskOf(s, t).act);
        ReleaseClosures(s, t);
      case _ => SameClosures(s, l);
    }
  }

  lemma SameClosures(s: ReadState, l: ReadStep)
    requires CanRead(s, l) && ClosuresInv(s)
    requires l.LeaseBuffer? || l.ReadChunk? || l.ReadFails? || l.DrainByte?
    ensures ClosuresInv(DoRead(s, l))
  {
    hide DecodeByte;
  }

  // ------------------------------------------------------------------ the selector thread

  lemma SelectorStep(s: ReadState, l: ReadStep)
    requires CanRead(s, l) && SelectorInv(s)
    ensures SelectorInv(DoRead(s, l))
  {
    hide DoAdvance, DecodeByte;
    match l {
      case PoolMoves(t) => AdvanceMoves(s.pool, t);
      case TaskReturns(t) => AdvanceMoves(s.pool, t);
      case _ =>
    }
  }

  // ------------------------------------------------------------------ buffers

  lemma PoolLeases(s: ReadState, l: ReadStep, pl: Step<Lease>, a: Act)
    requires CanRead(s, l) && PoolStepOf(s, l, pl) && SelectorInv(s) && Inv(s.pool) && LeasesInv(s, a)
    requires pl.Advance? ==> TaskInv(s, pl.thread)
    ensures Leases(DoRead(s, l), a) == Leases(s, a)
  {
    hide DoAdvance, Hand, View, TaskInv, SelectorInv, LeasesInv, Inv;
    if !Concerns(s, l, a) {
      PoolUnseen(s, l, pl, a);
      PoolHand(s, l, pl, a);
    } else if s.pool.threads[l.thread].point.SubmitAdd? || s.pool.threads[l.thread].point.SubmitOffer? {
      SubmitLeases(s, l.thread, a);
    } else {
      CompleteHand(s, l.thread, a);
    }
  }

  lemma PoolBuffers(s: ReadState, s': ReadState)
    requires BuffersInv(s) && SameMemory(s, s') && s'.free == s.free && s'.nextId == s.nextId
    requires (!s'.reading.Reading? && !s.reading.Reading?) || s'.reading == s.reading
    requires forall a: Act :: Leases(s', a) == Leases(s, a)
    ensures BuffersInv(s')
  {
    hide Leases;
    forall b: nat | b < |s'.memory| ensures OwnerInv(s', b) { assert OwnerInv(s, b); }
  }

  lemma LeaseBufferBuffers(s: ReadState, act: Act)
    requires BuffersInv(s) && CanLease(s)
    ensures BuffersInv(DoLease(s, act))
  {
    hide Leases, OwnerInv;
    var s' := DoLease(s, act);
    forall b: nat | b < |s'.memory| ensures OwnerInv(s', b) { LeaseBufferOwner(s, act, b); }
  }

  lemma LeaseBufferOwner(s: ReadState, act: Act, b: nat)
    requires BuffersInv(s) && CanLease(s) && b < |DoLease(s, act).memory|
    ensures |DoLease(s, act).owner| == |DoLease(s, act).memory| && OwnerInv(DoLease(s, act), b)
  {
    hide Leases, BuffersInv, OwnerInv, DoLease;
    var s' := DoLease(s, act);
    QuietLease(s, act);
    LeaseKeepsOwners(s, act);
    LeaseMoves(s, act, b);
    SameHands(s, s');
    if s'.reading.buf == b { SelectorOwns(s', b); } else { OwnerKept(s, s', b); }
  }

  lemma LeaseMoves(s: ReadState, act: Act, b: nat)
    requires CanLease(s) && |s.owner| == |s.memory| && b < |DoLease(s, act).memory|
    ensures var s' := DoLease(s, act);
            && s'.reading.Reading? && b < |s'.owner|
            && (b == s'.reading.buf ==> s'.owner[b] == Selector)
            && (b != s'.reading.buf ==> b < |s.owner| && s'.owner[b] == s.owner[b] && (b in s.free ==> b in s'.free))
  {
  }

  lemma SelectorOwns(s: ReadState, b: nat)
    requires b < |s.owner| && s.owner[b] == Selector && s.reading.Reading? && s.reading.buf == b
    ensures OwnerInv(s, b)
  {
  }

  lemma LeaseKeepsOwners(s: ReadState, act: Act)
    requires BuffersInv(s) && CanLease(s)
    ensures |DoLease(s, act).owner| == |DoLease(s, act).memory| && |s.owner| == |s.memory|
    ensures forall b | 0 <= b < |s.memory| :: b < |s.owner| && OwnerInv(s, b)
  {
    hide OwnerInv;
  }

  lemma OwnerKept(s: ReadState, s': ReadState, b: nat)
    requires b < |s.owner| && b < |s'.owner| && OwnerInv(s, b) && s'.owner[b] == s.owner[b]
    requires s.reading.NotReading? && s'.released == s.released
    requires b in s.free ==> b in s'.free
    requires forall a: Act :: Leases(s', a) == Leases(s, a)
    ensures OwnerInv(s', b)
  {
    hide Leases;
  }

  lemma SameHands(s: ReadState, s': ReadState)
    requires s'.pool == s.pool && ((!s'.reading.Filled? && !s.reading.Filled?) || s'.reading == s.reading)
    ensures forall a: Act :: Leases(s', a) == Leases(s, a)
  {
  }

  lemma FailsBuffers(s: ReadState)
    requires BuffersInv(s) && CanRead(s, ReadFails)
    ensures BuffersInv(DoRead(s, ReadFails))
  {
    hide Leases;
    var s' := DoRead(s, ReadFails);
    SameHands(s, s');
    forall b: nat | b < |s'.memory| ensures OwnerInv(s', b) { assert OwnerInv(s, b); }
  }

  lemma ChunkLeasesGrow(s: ReadState, chunk: seq<Byte>, a: Act)
    requires CanChunk(s, chunk) && SelectorInv(s)
    ensures var l := Lease(s.nextId, s.reading.act, s.reading.buf, chunk);
            Leases(DoChunk(s, chunk), a) == Leases(s, a) + if a == l.act then [l] else []
  {
    ChunkHand(s, chunk);
    hide Hand;
    if a == s.reading.act {
      assert Hist(s.pool.submitted, a) + [] == Hist(s.pool.submitted, a);
    } else {
      ChunkOtherHand(s, chunk, a);
      assert Leases(s, a) + [] == Leases(s, a);
    }
  }

  lemma ChunkOtherHand(s: ReadState, chunk: seq<Byte>, a: Act)
    requires CanChunk(s, chunk) && s.reading.act != a
    ensures Hand(DoChunk(s, chunk), a) == Hand(s, a)
  {
  }

  lemma ChunkBuffersInv(s: ReadState, chunk: seq<Byte>)
    requires BuffersInv(s) && SelectorInv(s) && CanChunk(s, chunk)
    ensures BuffersInv(DoChunk(s, chunk))
  {
    hide Leases, SelectorInv;
    var s' := DoChunk(s, chunk);
    forall b: nat | b < |s'.memory| ensures OwnerInv(s', b) {
      assert OwnerInv(s, b);
      if s'.owner[b].LeasedTo? { ChunkLeasesGrow(s, chunk, s'.owner[b].lease.act); }
    }
  }

  lemma DrainBuffers(s: ReadState, t: nat, throws: bool)
    requires BuffersInv(s) && CanDrain(s, t)
    ensures BuffersInv(DoDrain(s, t, throws))
  {
    hide Leases, DecodeByte;
    var s' := DoDrain(s, t, throws);
    SameHands(s, s');
    forall b: nat | b < |s'.memory| ensures OwnerInv(s', b) { assert OwnerInv(s, b); }
  }

  lemma ReleaseBuffers(s: ReadState, t: nat)
    requires BuffersInv(s) && CanRelease(s, t) && Holds(s, TaskOf(s, t)) && TaskOf(s, t).id < s.nextId
    ensures BuffersInv(DoRelease(s, t))
  {
    hide Leases;
    var s' := DoRelease(s, t);
    SameHands(s, s');
    forall b: nat | b < |s'.memory| ensures OwnerInv(s', b) { assert OwnerInv(s, b); }
  }

  lemma BuffersStep(s: ReadState, l: ReadStep)
    requires ReadInv(s) && CanRead(s, l)
    ensures BuffersInv(DoRead(s, l))
  {
    hide ConnInv, BuffersInv, ClosureInv, Inv, ActInv, Do, Submitting, Holding, DecodeByte, TaskInv;
    hide DoLease, DoChunk, DoDrain, DoRelease;
    match l {
      case LeaseBuffer(act) => LeaseBufferBuffers(s, act);
      case ReadChunk(chunk) => ChunkBuffersInv(s, chunk);
      case ReadFails => FailsBuffers(s);
      case SubmitTask => PoolBuffersStep(s, l, Invoke(0, s.reading.lease.act, s.reading.lease));
      case PoolCollects(b) => PoolBuffersStep(s, l, Collect(b));
      case TakeTask(t) => PoolBuffersStep(s, l, Take(t));
      case TaskReturns(t) => PoolBuffersStep(s, l, Advance(t));
      case PoolMoves(t) => PoolBuffersStep(s, l, Advance(t));
      case DrainByte(t, throws) => DrainBuffers(s, t, throws);
      case ReleaseBuffer(t) =>
        HoldsInTask(s, t);
        TaskIsKnown(s, t);
        ReleaseBuffers(s, t);
    }
  }

  lemma TaskIsKnown(s: ReadState, t: nat)
    requires ReadInv(s) && InTask(s, t) && !s.progress[t].Done?
    ensures TaskOf(s, t).id < s.nextId
  {
    HoldsInTask(s, t);
    hide ReadInv, Hand, InFlight, Pending, Holds;
    TaskLease(s, t);
  }

  lemma PoolBuffersStep(s: ReadState, l: ReadStep, pl: Step<Lease>)
    requires ReadInv(s) && CanRead(s, l) && PoolStepOf(s, l, pl)
    ensures BuffersInv(DoRead(s, l))
  {
    hide BuffersInv, ClosureInv, Inv, Do, TaskInv, LeasesInv, DeliveryInv, DecoderInv, Leases;
    ThreadsCounted(s);
    assert pl.Advance? ==> TaskInv(s, pl.thread);
    forall a: Act ensures Leases(DoRead(s, l), a) == Leases(s, a) {
      assert ConnInv(s, a);
      PoolLeases(s, l, pl, a);
    }
    PoolBuffers(s, DoRead(s, l));
  }

  /** Every step of the input path keeps its invariant. */
  lemma ReadStepKeepsInv(s: ReadState, l: ReadStep)
    requires ReadInv(s) && CanRead(s, l)
    ensures ReadInv(DoRead(s, l))
  {
    hide ConnInv, BuffersInv, ClosureInv, SelectorInv, Inv, TaskInv, Do, DoLease, DoChunk, DoDrain, DoRelease;
    var s' := DoRead(s, l);
    SelectorStep(s, l);
    BuffersStep(s, l);
    ClosuresStep(s, l);
    PoolInvStep(s, l);
    forall a: Act ensures ConnInv(s', a) { ConnStep(s, l, a); }
    ThreadsCounted(s);
    ThreadsCounted(s');
    SameThreadCount(s, l);
    forall u: nat | u < |s'.pool.threads| ensures TaskInv(s', u) { TaskStep(s, l, u); }
  }

  lemma SameThreadCount(s: ReadState, l: ReadStep)
    requires CanRead(s, l)
    ensures |DoRead(s, l).pool.threads| == |s.pool.threads|
  {
    hide DoAdvance, DecodeByte;
  }

  lemma SameProgressCount(s: ReadState, l: ReadStep)
    requires CanRead(s, l)
    ensures |DoRead(s, l).progress| == |s.progress|
  {
    hide Do, DecodeByte;
  }

  lemma PoolInvStep(s: ReadState, l: ReadStep)
    requires Inv(s.pool) && CanRead(s, l)
    ensures Inv(DoRead(s, l).pool)
  {
    hide Inv, Do, DecodeByte;
    match l {
      case SubmitTask => StepKeepsInv(s.pool, Invoke(0, s.reading.lease.act, s.reading.lease));
      case PoolCollects(b) => StepKeepsInv(s.pool, Collect(b));
      case TakeTask(t) => StepKeepsInv(s.pool, Take(t));
      case TaskReturns(t) => StepKeepsInv(s.pool, Advance(t));
      case PoolMoves(t) => StepKeepsInv(s.pool, Advance(t));
      case _ =>
    }
  }
}
