/**
 * The reactor's input path: the selector thread reads chunks into leased buffers and submits one task
 * per chunk; workers drain the buffers byte by byte into the connection's decoder. Every access that
 * other threads can interleave with is one step, on top of the steps of the actor pool.
 */
module ReadPath {
  import opened StompFrame
  import opened StompCodec
  import opened ActorPool

  const BUFFER_ALLOCATION_SIZE := 0x2000

  /** The task `continueRead` returns, with the bytes it was created for. */
  datatype Lease = Lease(id: nat, act: Act, buf: nat, bytes: seq<Byte>)

  /** A flipped byte buffer: its content up to the limit, and the position. */
  datatype Buffer = Buffer(data: seq<Byte>, position: nat)

  /** History: who may touch a buffer. */
  datatype Owner = Pooled | Selector | LeasedTo(lease: Lease)

  /** Where the selector thread is in `continueRead`. */
  datatype Reading = NotReading | Reading(act: Act, buf: nat) | Filled(lease: Lease)

  /** Where a worker is in its task: in the loop, leaving it by an exception, or past the release. */
  datatype Progress = Looping | Unwinding | Done

  /**
   * Thread 0 of the pool is the selector thread, the others are the executor's. `memory` holds every
   * buffer allocated so far and `free` is BUFFER_POOL. `text` is the text each connection's decoder
   * holds. The rest is history: the bytes read from each channel (`wire`), the bytes given to each
   * decoder (`fed`), the messages given to `process`, and the connections one of whose tasks threw.
   */
  datatype ReadState = ReadState(
    pool: Pool<Lease>,
    memory: seq<Buffer>,
    owner: seq<Owner>,
    free: seq<nat>,
    reading: Reading,
    progress: seq<Progress>,
    released: set<Lease>,
    nextId: nat,
    text: map<Act, string>,
    wire: map<Act, seq<Byte>>,
    fed: map<Act, seq<Byte>>,
    processed: map<Act, seq<StompMessage>>,
    thrown: set<Act>)

  datatype ReadStep =
    | LeaseBuffer(act: Act)                            // BUFFER_POOL.poll() or a fresh allocation
    | ReadChunk(chunk: seq<Byte>)                      // chan.read(buf) != -1, then buf.flip()
    | ReadFails                                        // end of stream or IOException: the buffer goes back
    | SubmitTask                                       // pool.submit(handler, task) is called
    | PoolMoves(thread: nat)                           // an access inside submit or complete
    | PoolCollects(act: Act)                           // a weak entry is dropped
    | TakeTask(thread: nat)                            // a worker takes a closure
    | DrainByte(thread: nat, processThrows: bool)      // buf.get(), decodeNextByte, process
    | ReleaseBuffer(thread: nat)                       // the loop is left, BUFFER_POOL.add(buf)
    | TaskReturns(thread: nat)                         // the task ends, complete(act) begins

  predicate InTask(s: ReadState, t: nat)
  {
    t < |s.pool.threads| && t < |s.progress| && s.pool.threads[t].At? && s.pool.threads[t].point.Running?
  }

  function TaskOf(s: ReadState, t: nat): Lease
    requires InTask(s, t)
  {
    s.pool.threads[t].task
  }

  predicate HasRemaining(s: ReadState, l: Lease)
  {
    l.buf < |s.memory| && s.memory[l.buf].position < |s.memory[l.buf].data|
  }

  predicate CanLease(s: ReadState)
  {
    && s.reading.NotReading? && 0 < |s.pool.threads| && s.pool.threads[0].Idle?
    && (s.free != [] ==> s.free[0] < |s.memory| && s.free[0] < |s.owner|)
  }

  predicate CanChunk(s: ReadState, chunk: seq<Byte>)
  {
    && s.reading.Reading? && s.reading.buf < |s.memory| && s.reading.buf < |s.owner|
    && |chunk| <= BUFFER_ALLOCATION_SIZE
  }

  predicate CanDrain(s: ReadState, t: nat)
  {
    InTask(s, t) && s.progress[t].Looping? && HasRemaining(s, TaskOf(s, t))
  }

  predicate CanRelease(s: ReadState, t: nat)
  {
    && InTask(s, t) && TaskOf(s, t).buf < |s.owner|
    && (s.progress[t].Unwinding? || (s.progress[t].Looping? && !HasRemaining(s, TaskOf(s, t))))
  }

  predicate CanMove(s: ReadState, t: nat) { CanStep(s.pool, Advance(t)) && !s.pool.threads[t].point.Running? }

  predicate CanRead(s: ReadState, l: ReadStep)
  {
    match l
    case LeaseBuffer(_) => CanLease(s)
    case ReadChunk(chunk) => CanChunk(s, chunk)
    case ReadFails => s.reading.Reading? && s.reading.buf < |s.owner|
    case SubmitTask => s.reading.Filled? && CanStep(s.pool, Invoke(0, s.reading.lease.act, s.reading.lease))
    case PoolMoves(t) => CanMove(s, t)
    case PoolCollects(a) => CanStep(s.pool, Collect(a))
    case TakeTask(t) => 0 < t < |s.progress| && CanStep(s.pool, Take(t))
    case DrainByte(t, _) => CanDrain(s, t)
    case ReleaseBuffer(t) => CanRelease(s, t)
    case TaskReturns(t) => InTask(s, t) && s.progress[t].Done?
  }

  function DoRead(s: ReadState, l: ReadStep): ReadState
    requires CanRead(s, l)
  {
    match l
    case LeaseBuffer(act) => DoLease(s, act)
    case ReadChunk(chunk) => DoChunk(s, chunk)
    case ReadFails =>
      s.(free := s.free + [s.reading.buf], owner := s.owner[s.reading.buf := Pooled], reading := NotReading)
    case SubmitTask =>
      s.(pool := Do(s.pool, Invoke(0, s.reading.lease.act, s.reading.lease)), reading := NotReading)
    case PoolMoves(t) => s.(pool := Do(s.pool, Advance(t)))
    case PoolCollects(a) => s.(pool := Do(s.pool, Collect(a)))
    case TakeTask(t) => s.(pool := Do(s.pool, Take(t)), progress := s.progress[t := Looping])
    case DrainByte(t, processThrows) => DoDrain(s, t, processThrows)
    case ReleaseBuffer(t) => DoRelease(s, t)
    case TaskReturns(t) => s.(pool := Do(s.pool, Advance(t)))
  }

  function DoLease(s: ReadState, act: Act): ReadState
    requires CanLease(s)
  {
    if s.free == [] then
      s.(memory := s.memory + [Buffer([], 0)], owner := s.owner + [Selector], reading := Reading(act, |s.memory|))
    else
      var b := s.free[0];
      s.(memory := s.memory[b := Buffer([], 0)], owner := s.owner[b := Selector], free := s.free[1..],
         reading := Reading(act, b))
  }

  function DoChunk(s: ReadState, chunk: seq<Byte>): ReadState
    requires CanChunk(s, chunk)
  {
    var a, b := s.reading.act, s.reading.buf;
    var lease := Lease(s.nextId, a, b, chunk);
    s.(memory := s.memory[b := Buffer(chunk, 0)], owner := s.owner[b := LeasedTo(lease)], reading := Filled(lease),
       nextId := s.nextId + 1, wire := s.wire[a := Hist(s.wire, a) + chunk])
  }

  function DoDrain(s: ReadState, t: nat, processThrows: bool): ReadState
    requires CanDrain(s, t)
  {
    var l := TaskOf(s, t);
    var a, buf := l.act, s.memory[l.buf];
    var b := buf.data[buf.position];
    var (text, decoded) := DecodeByte(Hist(s.text, a), b);
    var bad := decoded.Threw? || (decoded.Message? && processThrows);
    s.(memory := s.memory[l.buf := buf.(position := buf.position + 1)],
       fed := Append(s.fed, a, b),
       text := s.text[a := text],
       processed := if decoded.Message? then Append(s.processed, a, decoded.message) else s.processed,
       thrown := if bad then s.thrown + {a} else s.thrown,
       progress := if bad then s.progress[t := Unwinding] else s.progress)
  }

  function DoRelease(s: ReadState, t: nat): ReadState
    requires CanRelease(s, t)
  {
    var l := TaskOf(s, t);
    s.(free := s.free + [l.buf], owner := s.owner[l.buf := Pooled], released := s.released + {l},
       progress := s.progress[t := Done])
  }

  // ------------------------------------------------------------------ the leases of a connection

  predicate Submitting(p: Point) { Placing(p) || p.SubmitExecute? || p.SubmitExit? }

  /** The lease thread 0 is placing. */
  function Placed(p: Pool<Lease>, a: Act): seq<Lease>
  {
    if p.threads != [] && Refers(p.threads[0], a) && Placing(p.threads[0].point) then [p.threads[0].task] else []
  }

  /** The lease of `a` the selector thread has in hand. */
  function Hand(s: ReadState, a: Act): seq<Lease>
  {
    (if s.reading.Filled? && s.reading.lease.act == a then [s.reading.lease] else []) + Placed(s.pool, a)
  }

  /** Every lease ever filled for `a`, in the order its channel was read. */
  function Leases(s: ReadState, a: Act): seq<Lease> { Hist(s.pool.submitted, a) + Hand(s, a) }

  function Bytes(ls: seq<Lease>): seq<Byte>
  {
    if ls == [] then [] else ls[0].bytes + Bytes(ls[1..])
  }

  lemma {:induction false} BytesAppend(a: seq<Lease>, b: seq<Lease>)
    ensures Bytes(a + b) == Bytes(a) + Bytes(b)
  {
    if a == [] {
      assert a + b == b;
    } else {
      assert (a + b)[1..] == a[1..] + b;
      BytesAppend(a[1..], b);
    }
  }

  lemma BytesOne(l: Lease)
    ensures Bytes([l]) == l.bytes
  {
    assert [l][1..] == [];
  }

  /** What of an unfinished lease the decoder has been given. */
  function Consumed(s: ReadState, inFlight: seq<Lease>): seq<Byte>
  {
    if inFlight == [] then [] else
    var l := inFlight[0];
    if l in s.released || l.buf >= |s.memory| || s.memory[l.buf].position > |l.bytes| then l.bytes
    else l.bytes[..s.memory[l.buf].position]
  }

  // ------------------------------------------------------------------ the invariant

  /** The buffer of `l` is its own and still holds what was read into it. */
  ghost predicate Holds(s: ReadState, l: Lease)
  {
    && l.buf < |s.memory| && l.buf < |s.owner| && s.owner[l.buf] == LeasedTo(l)
    && s.memory[l.buf].data == l.bytes && s.memory[l.buf].position <= |l.bytes|
  }

  ghost predicate Untouched(s: ReadState, l: Lease)
  {
    l !in s.released && Holds(s, l) && s.memory[l.buf].position == 0
  }

  ghost predicate NoDup<T>(xs: seq<T>) { forall i, j | 0 <= i < j < |xs| :: xs[i] != xs[j] }

  ghost predicate LeasesInv(s: ReadState, a: Act)
  {
    var ls := Leases(s, a);
    && (forall i | 0 <= i < |ls| :: ls[i].act == a && ls[i].id < s.nextId)
    && NoDup(ls)
    && Hist(s.wire, a) == Bytes(ls)
  }

  /** The leases of one connection, by how far they have come. */
  datatype Parts = Parts(completed: seq<Lease>, inFlight: seq<Lease>, pending: seq<Lease>, hand: seq<Lease>)

  function PartsOf(s: ReadState, a: Act): Parts
  {
    Parts(Hist(s.pool.completed, a), InFlight(s.pool, a), Pending(s.pool, a), Hand(s, a))
  }

  ghost predicate AllReleased(s: ReadState, ls: seq<Lease>)
  {
    forall i | 0 <= i < |ls| :: ls[i] in s.released
  }

  ghost predicate AllUntouched(s: ReadState, ls: seq<Lease>)
  {
    forall i | 0 <= i < |ls| :: Untouched(s, ls[i])
  }

  ghost predicate Live(s: ReadState, ls: seq<Lease>)
  {
    |ls| <= 1 && (ls != [] ==> ls[0] in s.released || Holds(s, ls[0]))
  }

  ghost predicate Delivered(s: ReadState, a: Act, v: Parts)
  {
    && AllReleased(s, v.completed) && Live(s, v.inFlight) && AllUntouched(s, v.pending) && AllUntouched(s, v.hand)
    && (a !in s.thrown ==> Hist(s.fed, a) == Bytes(v.completed) + Consumed(s, v.inFlight))
  }

  ghost predicate DeliveryInv(s: ReadState, a: Act) { Delivered(s, a, PartsOf(s, a)) }

  ghost predicate DecoderInv(s: ReadState, a: Act)
  {
    a !in s.thrown ==> DecodeAll(Hist(s.fed, a)) == Decoding(Hist(s.text, a), Hist(s.processed, a), true)
  }

  ghost predicate TaskInv(s: ReadState, u: nat)
    requires u < |s.pool.threads| && u < |s.progress|
  {
    var th := s.pool.threads[u];
    th.At? ==>
      && th.task.act == th.act
      && (Submitting(th.point) <==> u == 0)
      && (th.point.Running? ==>
            && (s.progress[u].Done? <==> th.task in s.released)
            && (s.progress[u].Unwinding? ==> th.act in s.thrown))
      && (Holding(th.point) && !th.point.Running? ==>
            (th.task in s.released <==> !th.point.SubmitExecute? && !th.point.CompleteExecute?))
  }

  ghost predicate ClosureInv(s: ReadState, c: Closure<Lease>)
  {
    c.task.act == c.act && c.task !in s.released
  }

  ghost predicate SelectorInv(s: ReadState)
  {
    && |s.progress| == |s.pool.threads| && 0 < |s.pool.threads|
    && (!s.reading.NotReading? ==> s.pool.threads[0].Idle?)
  }

  /** Every buffer is in the pool once, or with the selector thread, or leased to one live lease. */
  ghost predicate BuffersInv(s: ReadState)
  {
    && |s.owner| == |s.memory|
    && NoDup(s.free)
    && (forall i | 0 <= i < |s.free| :: s.free[i] < |s.memory| && s.owner[s.free[i]] == Pooled)
    && (forall b | 0 <= b < |s.memory| :: OwnerInv(s, b))
    && (s.reading.Reading? ==> s.reading.buf < |s.memory| && s.owner[s.reading.buf] == Selector)
    && (forall l: Lease | l in s.released :: l.id < s.nextId)
  }

  ghost predicate OwnerInv(s: ReadState, b: nat)
    requires b < |s.owner|
  {
    match s.owner[b]
    case Pooled => b in s.free
    case Selector => s.reading.Reading? && s.reading.buf == b
    case LeasedTo(l) => l.buf == b && l !in s.released && l in Leases(s, l.act)
  }

  ghost predicate ConnInv(s: ReadState, a: Act)
  {
    LeasesInv(s, a) && DeliveryInv(s, a) && DecoderInv(s, a)
  }

  ghost predicate ReadInv(s: ReadState)
  {
    && Inv(s.pool) && SelectorInv(s) && BuffersInv(s)
    && (forall a: Act :: ConnInv(s, a))
    && (forall u: nat | u < |s.pool.threads| :: TaskInv(s, u))
    && (forall i | 0 <= i < |s.pool.executor| :: ClosureInv(s, s.pool.executor[i]))
  }
}
