/**
 * Whole runs of the reactor's input path: what reaches the decoder and the protocol, who owns the
 * buffers, and how the reactor refines the thread-per-client handler.
 */
module ReadPathRuns {
  import opened Text
  import opened StompFrame
  import opened StompCodec
  import opened ActorPool
  import opened ActorPoolRuns
  import opened ReadPath
  import opened ReadPathSteps
  import opened ReadPathFrames

  ghost predicate ReadInit(s: ReadState)
  {
    && Init(s.pool) && |s.progress| == |s.pool.threads| && 0 < |s.pool.threads|
    && s.memory == [] && s.owner == [] && s.free == [] && s.reading == NotReading && s.released == {} && s.nextId == 0
    && s.text == map[] && s.wire == map[] && s.fed == map[] && s.processed == map[] && s.thrown == {}
  }

  ghost predicate IsReadRun(ss: seq<ReadState>, ls: seq<ReadStep>)
  {
    && |ss| == |ls| + 1 && ReadInit(ss[0])
    && (forall i | 0 <= i < |ls| :: CanRead(ss[i], ls[i]) && ss[i + 1] == DoRead(ss[i], ls[i]))
  }

  lemma InitConn(s: ReadState, a: Act)
    requires ReadInit(s) && View(s.pool, a) == Actor([], [], [])
    ensures ConnInv(s, a)
  {
    hide InFlight, Pending;
    assert Hand(s, a) == [];
    assert Leases(s, a) == [];
    assert DecodeFrom(FRESH, []) == FRESH;
  }

  lemma InitReadInv(s: ReadState)
    requires ReadInit(s)
    ensures ReadInv(s)
  {
    hide ConnInv, View, Inv;
    InitInv(s.pool);
    forall a: Act ensures ConnInv(s, a) { InitConn(s, a); }
  }

  lemma {:induction false} ReadRunInv(ss: seq<ReadState>, ls: seq<ReadStep>, i: nat)
    requires IsReadRun(ss, ls) && i < |ss|
    ensures ReadInv(ss[i])
  {
    hide ReadInv, DoRead;
    if i == 0 {
      InitReadInv(ss[0]);
    } else {
      ReadRunInv(ss, ls, i - 1);
      ReadStepKeepsInv(ss[i - 1], ls[i - 1]);
    }
  }

  // ------------------------------------------------------------------ what the steps read

  /** The connection whose turn it is to be read, from the steps alone: that of the latest lease. */
  function TurnOf(ls: seq<ReadStep>, n: nat): Option<Act>
    requires n <= |ls|
  {
    if n == 0 then None
    else if ls[n - 1].LeaseBuffer? then Some(ls[n - 1].act)
    else TurnOf(ls, n - 1)
  }

  /** What the first `n` steps read from the channel of `a`: the chunks read on its turns. */
  function Received(ls: seq<ReadStep>, n: nat, a: Act): seq<Byte>
    requires n <= |ls|
  {
    if n == 0 then []
    else Received(ls, n - 1, a)
         + if ls[n - 1].ReadChunk? && TurnOf(ls, n - 1) == Some(a) then ls[n - 1].chunk else []
  }

  lemma {:induction false} TurnIsKept(ss: seq<ReadState>, ls: seq<ReadStep>, n: nat)
    requires IsReadRun(ss, ls) && n <= |ls| && ss[n].reading.Reading?
    ensures TurnOf(ls, n) == Some(ss[n].reading.act)
  {
    hide DoRead, CanRead;
    if n > 0 {
      TurnStep(ss[n - 1], ls[n - 1]);
      if !ls[n - 1].LeaseBuffer? { TurnIsKept(ss, ls, n - 1); }
    }
  }

  lemma TurnStep(s: ReadState, l: ReadStep)
    requires CanRead(s, l) && DoRead(s, l).reading.Reading?
    ensures l.LeaseBuffer? ==> DoRead(s, l).reading.act == l.act
    ensures !l.LeaseBuffer? ==> DoRead(s, l).reading == s.reading
  {
    hide Do, CanStep, DecodeByte;
  }

  lemma WireStep(s: ReadState, l: ReadStep, a: Act)
    requires CanRead(s, l)
    ensures Hist(DoRead(s, l).wire, a)
         == Hist(s.wire, a) + if l.ReadChunk? && s.reading.act == a then l.chunk else []
  {
    hide Do, CanStep, DecodeByte;
  }

  /** The history `wire` is what the steps have read, each chunk for the connection whose turn it was. */
  lemma {:induction false} WireIsReceived(ss: seq<ReadState>, ls: seq<ReadStep>, n: nat, a: Act)
    requires IsReadRun(ss, ls) && n <= |ls|
    ensures Hist(ss[n].wire, a) == Received(ls, n, a)
  {
    hide DoRead;
    if n > 0 {
      WireIsReceived(ss, ls, n - 1, a);
      WireStep(ss[n - 1], ls[n - 1], a);
      if ls[n - 1].ReadChunk? { TurnIsKept(ss, ls, n - 1); }
    }
  }

  // ------------------------------------------------------------------ the byte stream

  /** No lease of `a` is on its way: every chunk read has been drained and its closure has finished. */
  predicate Drained(s: ReadState, a: Act)
  {
    InFlight(s.pool, a) == [] && Pending(s.pool, a) == [] && Hand(s, a) == []
  }

  lemma ConsumedIsPrefix(s: ReadState, f: seq<Lease>)
    requires |f| <= 1
    ensures Consumed(s, f) <= Bytes(f)
  {
    if f != [] {
      assert f == [f[0]];
      BytesOne(f[0]);
    }
  }

  lemma WireSplits(s: ReadState, a: Act)
    requires ConnInv(s, a) && ActInv(s.pool, a)
    ensures Hist(s.wire, a) == Bytes(Hist(s.pool.completed, a)) + Bytes(InFlight(s.pool, a))
                             + Bytes(Pending(s.pool, a)) + Bytes(Hand(s, a))
  {
    hide InFlight, Pending, Hand, Bytes, Delivered, NoDup, DecodeAll;
    var c, f, p, h := Hist(s.pool.completed, a), InFlight(s.pool, a), Pending(s.pool, a), Hand(s, a);
    BytesAppend(c, f);
    BytesAppend(c + f, p);
    BytesAppend(c + f + p, h);
  }

  lemma PrefixOfSum<T>(c: seq<T>, x: seq<T>, f: seq<T>, p: seq<T>, h: seq<T>)
    requires x <= f
    ensures c + x <= c + f + p + h
  {
  }

  lemma FedSoFar(s: ReadState, a: Act)
    requires ConnInv(s, a) && ActInv(s.pool, a) && a !in s.thrown
    ensures Hist(s.fed, a) <= Hist(s.wire, a)
    ensures Drained(s, a) ==> Hist(s.fed, a) == Hist(s.wire, a)
  {
    hide InFlight, Pending, Hand, DecodeAll, LeasesInv, AllReleased, AllUntouched, Live;
    WireSplits(s, a);
    var c, f := Hist(s.pool.completed, a), InFlight(s.pool, a);
    ConsumedIsPrefix(s, f);
    PrefixOfSum(Bytes(c), Consumed(s, f), Bytes(f), Bytes(Pending(s.pool, a)), Bytes(Hand(s, a)));
  }

  /**
   * In every interleaving of the selector thread and the workers: as long as no task of a connection
   * has thrown, the bytes its decoder was given are a prefix of the bytes that the steps read from its
   * own channel, and all of them once its tasks have drained.
   */
  lemma BytesArriveInOrder(ss: seq<ReadState>, ls: seq<ReadStep>, i: nat, a: Act)
    requires IsReadRun(ss, ls) && i < |ss| && a !in ss[i].thrown
    ensures Hist(ss[i].fed, a) <= Received(ls, i, a)
    ensures Drained(ss[i], a) ==> Hist(ss[i].fed, a) == Received(ls, i, a)
  {
    hide ConnInv, ActInv, Drained, CanRead, DoRead;
    WireIsReceived(ss, ls, i, a);
    ReadRunInv(ss, ls, i);
    assert ConnInv(ss[i], a);
    ActOfInv(ss[i].pool, a);
    FedSoFar(ss[i], a);
  }

  lemma DecodePrefix(x: seq<Byte>, y: seq<Byte>)
    requires x <= y
    ensures DecodeAll(x).messages <= DecodeAll(y).messages
    ensures DecodeAll(y).ok ==> DecodeAll(x).ok
  {
    assert y == x + y[|x|..];
    DecodeConcat(FRESH, x, y[|x|..]);
    DecodeExtends(DecodeAll(x), y[|x|..]);
  }

  /**
   * So the messages given to `process` are the NUL-terminated pieces of the stream, parsed one by one
   * and in order, however the reads were chunked and the tasks interleaved; all of them once the tasks
   * of the connection have drained.
   */
  lemma MessagesAreTheFrames(ss: seq<ReadState>, ls: seq<ReadStep>, i: nat, a: Act)
    requires IsReadRun(ss, ls) && i < |ss| && a !in ss[i].thrown
    ensures Hist(ss[i].processed, a) <= DecodeAll(Received(ls, i, a)).messages
    ensures Drained(ss[i], a) ==> Hist(ss[i].processed, a) == DecodeAll(Received(ls, i, a)).messages
    ensures var ms, frames := Hist(ss[i].processed, a), SplitNul(Received(ls, i, a)).pieces;
            && |ms| <= |frames|
            && (forall k | 0 <= k < |ms| :: ParseFrame(TextOf(frames[k])) == Ok(ms[k]))
            && (Drained(ss[i], a) ==> |ms| == |frames|)
  {
    hide Drained, DecodeAll, LeasesInv, DeliveryInv, CanRead, DoRead, SplitNul, ParseFrame, TextOf;
    BytesArriveInOrder(ss, ls, i, a);
    ReadRunInv(ss, ls, i);
    assert ConnInv(ss[i], a);
    DecodePrefix(Hist(ss[i].fed, a), Received(ls, i, a));
    MessagesAreThePieces(Received(ls, i, a));
  }

  // ------------------------------------------------------------------ when nothing can throw

  ghost predicate ProcessNeverThrows(ls: seq<ReadStep>)
  {
    forall i | 0 <= i < |ls| :: ls[i].DrainByte? ==> !ls[i].processThrows
  }

  lemma DrainFeedsTheWire(s: ReadState, t: nat, throws: bool)
    requires CanDrain(s, t) && TaskOf(s, t).act !in s.thrown
    requires ReadInv(s)
    ensures Hist(DoDrain(s, t, throws).fed, TaskOf(s, t).act) <= Hist(s.wire, TaskOf(s, t).act)
  {
    hide Inv, InFlight, Pending, Hand, Holds, LeasesInv, DecodeAll, DecodeByte, Consumed, SelectorInv, BuffersInv;
    var l := TaskOf(s, t);
    HoldsInTask(s, t);
    TaskLease(s, t);
    DrainConsumed(s, t, throws);
    WireSplits(s, l.act);
    var c := Hist(s.pool.completed, l.act);
    var s' := DoDrain(s, t, throws);
    assert InFlight(s.pool, l.act) == PartsOf(s, l.act).inFlight == [l];
    ConsumedIsPrefix(s', [l]);
    Assoc(Bytes(c), Consumed(s, [l]), [l.bytes[s.memory[l.buf].position]]);
    PrefixOfSum(Bytes(c), Consumed(s', [l]), Bytes([l]), Bytes(Pending(s.pool, l.act)), Bytes(Hand(s, l.act)));
  }

  lemma ThrowMeansMalformed(s: ReadState, l: ReadStep, a: Act)
    requires ReadInv(s) && CanRead(s, l) && a !in s.thrown && a in DoRead(s, l).thrown
    requires l.DrainByte? ==> !l.processThrows
    ensures !DecodeAll(Hist(s.wire, a)).ok
  {
    hide Do, ParseFrame, DecodeAll, Inv, LeasesInv, DeliveryInv, BuffersInv, SelectorInv;
    assert l.DrainByte?;
    var lease := TaskOf(s, l.thread);
    assert lease.act == a;
    assert ConnInv(s, a);
    var b := s.memory[lease.buf].data[s.memory[lease.buf].position];
    DrainFeedsTheWire(s, l.thread, l.processThrows);
    DecodeAllSnoc(Hist(s.fed, a), b);
    DecodePrefix(Hist(s.fed, a) + [b], Hist(s.wire, a));
  }

  lemma DecodeAllSnoc(x: seq<Byte>, b: Byte)
    ensures DecodeAll(x + [b]) == StompCodec.Advance(DecodeAll(x), b)
  {
    DecodeSnoc(FRESH, x, b);
  }

  lemma WireGrows(s: ReadState, l: ReadStep, a: Act)
    requires CanRead(s, l)
    ensures Hist(s.wire, a) <= Hist(DoRead(s, l).wire, a)
  {
    hide Do, DecodeByte;
  }

  lemma {:induction false} NoThrowOnWire(ss: seq<ReadState>, ls: seq<ReadStep>, i: nat, a: Act)
    requires IsReadRun(ss, ls) && i < |ss| && ProcessNeverThrows(ls)
    requires DecodeAll(Hist(ss[i].wire, a)).ok
    ensures a !in ss[i].thrown
  {
    hide DoRead, DecodeAll, ReadInv;
    if i > 0 {
      var s, l := ss[i - 1], ls[i - 1];
      WireGrows(s, l, a);
      DecodePrefix(Hist(s.wire, a), Hist(ss[i].wire, a));
      NoThrowOnWire(ss, ls, i - 1, a);
      ReadRunInv(ss, ls, i - 1);
      if a in ss[i].thrown { ThrowMeansMalformed(s, l, a); }
    }
  }

  /** If `process` never throws and every frame read from a channel is well formed, no task of it ever throws. */
  lemma NothingThrows(ss: seq<ReadState>, ls: seq<ReadStep>, i: nat, a: Act)
    requires IsReadRun(ss, ls) && i < |ss| && ProcessNeverThrows(ls)
    requires DecodeAll(Received(ls, i, a)).ok
    ensures a !in ss[i].thrown
  {
    hide DoRead, CanRead, DecodeAll, ProcessNeverThrows;
    WireIsReceived(ss, ls, i, a);
    NoThrowOnWire(ss, ls, i, a);
  }

  /**
   * End to end: a client whose bytes are any well-formed frame texts back to back, whoever printed them
   * and with whatever headers, has each of them processed exactly once and in order, under every
   * chunking and every interleaving, once its tasks have drained.
   */
  lemma EveryFrameIsProcessedOnce(ss: seq<ReadState>, ls: seq<ReadStep>, i: nat, a: Act, texts: seq<string>)
    requires IsReadRun(ss, ls) && i < |ss| && ProcessNeverThrows(ls)
    requires forall t <- texts :: Arriving(t)
    requires Received(ls, i, a) == WireOf(texts) && Drained(ss[i], a)
    ensures ParsedFrom(Hist(ss[i].processed, a), texts)
  {
    hide Drained, Arriving, WireOf, DoRead, CanRead, ParsedFrom, ProcessNeverThrows;
    var ms := TextsArrive(FRESH, texts);
    assert [] + ms == ms;
    NothingThrows(ss, ls, i, a);
    MessagesAreTheFrames(ss, ls, i, a);
  }

  /** In particular messages that were printed by the encoder come out as they went in. */
  lemma EveryMessageIsProcessedOnce(ss: seq<ReadState>, ls: seq<ReadStep>, i: nat, a: Act, es: seq<Encoded>)
    requires IsReadRun(ss, ls) && i < |ss| && ProcessNeverThrows(ls)
    requires forall e <- es :: Sendable(e)
    requires Received(ls, i, a) == WireAll(es) && Drained(ss[i], a)
    ensures Hist(ss[i].processed, a) == Messages(es)
  {
    hide Drained, Sendable, WireAll, DoRead, CanRead, ProcessNeverThrows;
    StreamRoundTrip(FRESH, es);
    assert [] + Messages(es) == Messages(es);
    NothingThrows(ss, ls, i, a);
    MessagesAreTheFrames(ss, ls, i, a);
  }

  // ------------------------------------------------------------------ buffer ownership

  /** Where one buffer is. */
  ghost predicate InPool(s: ReadState, b: nat) { b in s.free }
  ghost predicate BeingFilled(s: ReadState, b: nat) { s.reading.Reading? && s.reading.buf == b }
  ghost predicate LeasedBy(s: ReadState, b: nat, l: Lease)
  {
    l.buf == b && l !in s.released && l in Leases(s, l.act)
  }

  lemma UnreleasedHolds(s: ReadState, l: Lease)
    requires ReadInv(s) && l in Leases(s, l.act) && l !in s.released
    ensures Holds(s, l)
  {
    hide InFlight, Pending, Hand, Bytes, Consumed, BuffersInv, SelectorInv, TaskInv, ClosureInv, Holds;
    var a := l.act;
    assert ConnInv(s, a);
    assert ActInv(s.pool, a) by { ActOfInv(s.pool, a); }
    InSomePart(s, a, PartsOf(s, a), l);
  }

  lemma InSomePart(s: ReadState, a: Act, v: Parts, l: Lease)
    requires Delivered(s, a, v) && l in v.completed + v.inFlight + v.pending + v.hand && l !in s.released
    ensures Holds(s, l)
  {
    hide Bytes, Consumed, Holds;
    if l in v.pending {
      var i :| 0 <= i < |v.pending| && v.pending[i] == l;
      assert Untouched(s, v.pending[i]);
    } else if l in v.hand {
      var i :| 0 <= i < |v.hand| && v.hand[i] == l;
      assert Untouched(s, v.hand[i]);
    }
  }

  /**
   * Buffer ownership in every state of every run: a buffer is in BUFFER_POOL exactly once, or with the
   * selector thread, or leased by exactly one live lease, and never two of these; and the buffer of a
   * live lease still holds the bytes that were read into it.
   */
  lemma BufferOwnership(ss: seq<ReadState>, ls: seq<ReadStep>, i: nat, b: nat, l: Lease, m: Lease)
    requires IsReadRun(ss, ls) && i < |ss| && b < |ss[i].memory|
    ensures var s := ss[i];
      && NoDup(s.free)
      && (InPool(s, b) || BeingFilled(s, b) || exists k: Lease :: LeasedBy(s, b, k))
      && !(InPool(s, b) && BeingFilled(s, b))
      && (LeasedBy(s, b, l) ==> !InPool(s, b) && !BeingFilled(s, b) && s.memory[b].data == l.bytes)
      && (LeasedBy(s, b, l) && LeasedBy(s, b, m) ==> l == m)
  {
    hide Leases, ConnInv, TaskInv, ClosureInv, Inv, SelectorInv, IsReadRun;
    var s := ss[i];
    ReadRunInv(ss, ls, i);
    assert OwnerInv(s, b);
    if s.owner[b].LeasedTo? { assert LeasedBy(s, b, s.owner[b].lease); }
    if LeasedBy(s, b, l) { UnreleasedHolds(s, l); }
    if LeasedBy(s, b, m) { UnreleasedHolds(s, m); }
  }

  /** A lease is released at most once: whoever puts a buffer back still holds it. */
  lemma ReleasedAtMostOnce(ss: seq<ReadState>, ls: seq<ReadStep>, i: nat, t: nat)
    requires IsReadRun(ss, ls) && i < |ss| && CanRead(ss[i], ReleaseBuffer(t))
    ensures InTask(ss[i], t)
    ensures var l := TaskOf(ss[i], t);
            && l !in ss[i].released && !InPool(ss[i], l.buf) && !BeingFilled(ss[i], l.buf)
            && Holds(ss[i], l)
  {
    hide ConnInv, TaskInv, ClosureInv, Inv, SelectorInv, IsReadRun, ActInv, Leases;
    ReadRunInv(ss, ls, i);
    HoldsInTask(ss[i], t);
  }

  // ------------------------------------------------------------------ thread per client

  /** A deterministic protocol, as far as reading goes: whether it wants to stop after these messages. */
  type Stops = seq<StompMessage> -> bool

  /** The messages up to and including the first one after which the protocol wants to stop. */
  function Cut(ms: seq<StompMessage>, stops: Stops, n: nat): (r: seq<StompMessage>)
    requires n <= |ms|
    ensures r <= ms && n <= |r|
    decreases |ms| - n
  {
    if n == |ms| || stops(ms[..n]) then ms[..n] else Cut(ms, stops, n + 1)
  }

  lemma {:induction false} CutPrefix(xs: seq<StompMessage>, ys: seq<StompMessage>, stops: Stops, n: nat)
    requires xs <= ys && n <= |xs|
    ensures Cut(xs, stops, n) <= Cut(ys, stops, n)
    ensures (exists k :: n <= k <= |xs| && stops(xs[..k])) ==> Cut(xs, stops, n) == Cut(ys, stops, n)
    decreases |xs| - n
  {
    assert ys[..n] == xs[..n];
    if n < |xs| && !stops(xs[..n]) {
      CutPrefix(xs, ys, stops, n + 1);
    }
  }

  lemma CutStep(ms: seq<StompMessage>, stops: Stops, done: seq<StompMessage>, m: StompMessage)
    requires done + [m] <= ms && !stops(done)
    ensures Cut(ms, stops, |done|) == Cut(ms, stops, |done| + 1)
  {
    assert ms[..|done|] == done;
  }

  /**
   * The reactor refines thread-per-client on input. Let the client send `stream`, of which the reactor
   * has read some in any chunks: up to the first message that stops the protocol, the reactor has
   * processed a prefix of what the blocking handler processes on the whole stream, and exactly that as
   * soon as such a message has been processed or the whole stream has been read and drained.
   */
  lemma ReactorRefinesBlocking(ss: seq<ReadState>, ls: seq<ReadStep>, i: nat, a: Act, stops: Stops, stream: seq<Byte>)
    requires IsReadRun(ss, ls) && i < |ss| && a !in ss[i].thrown && Received(ls, i, a) <= stream
    ensures var reactor := Hist(ss[i].processed, a);
            var blocking := Cut(DecodeAll(stream).messages, stops, 0);
      && Cut(reactor, stops, 0) <= blocking
      && ((exists k :: 0 <= k <= |reactor| && stops(reactor[..k])) ==> Cut(reactor, stops, 0) == blocking)
      && (Drained(ss[i], a) && Received(ls, i, a) == stream ==> Cut(reactor, stops, 0) == blocking)
  {
    hide Drained, DoRead, CanRead, DecodeAll;
    MessagesAreTheFrames(ss, ls, i, a);
    DecodePrefix(Received(ls, i, a), stream);
    CutPrefix(Hist(ss[i].processed, a), DecodeAll(stream).messages, stops, 0);
  }
}
