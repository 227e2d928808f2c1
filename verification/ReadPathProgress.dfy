/** The input path does not stop: work that is left can go on, and only an exception cuts a task short. */
module ReadPathProgress {
  import opened StompFrame
  import opened StompCodec
  import opened ActorPool
  import opened ActorPoolSteps
  import opened ActorPoolRuns
  import opened ReadPath
  import opened ReadPathSteps
  import opened ReadPathRuns

  // ------------------------------------------------------------------ somebody can always move

  /** A step that brings work forward without new input and without the garbage collector. */
  predicate Drives(l: ReadStep)
  {
    !l.LeaseBuffer? && !l.ReadChunk? && !l.ReadFails? && !l.PoolCollects?
  }

  ghost predicate CanGoOn(s: ReadState) { exists l :: Drives(l) && CanRead(s, l) }

  /** A worker in its task can take the next byte, or release its buffer, or return. */
  lemma WorkerGoesOn(s: ReadState, t: nat)
    requires ReadInv(s) && InTask(s, t)
    ensures CanGoOn(s)
  {
    hide ConnInv, BuffersInv, ClosureInv, Inv, SelectorInv, TaskInv, ActInv, CanStep, Do;
    if s.progress[t].Done? {
      assert CanRead(s, TaskReturns(t)) && Drives(TaskReturns(t));
    } else {
      HoldsInTask(s, t);
      if s.progress[t].Looping? && HasRemaining(s, TaskOf(s, t)) {
        assert CanRead(s, DrainByte(t, false)) && Drives(DrainByte(t, false));
      } else {
        assert CanRead(s, ReleaseBuffer(t)) && Drives(ReleaseBuffer(t));
      }
    }
  }

  lemma BusyGoesOn(s: ReadState, t: nat)
    requires ReadInv(s) && t < |s.pool.threads| && s.pool.threads[t].At?
    ensures CanGoOn(s)
  {
    hide ConnInv, BuffersInv, ClosureInv, TaskInv, Inv, Do;
    BusyThreadMoves(s.pool, t);
    var u: nat :| CanStep(s.pool, Advance(u));
    if s.pool.threads[u].point.Running? {
      WorkerGoesOn(s, u);
    } else {
      assert CanRead(s, PoolMoves(u)) && Drives(PoolMoves(u));
    }
  }

  /**
   * While anything read from a channel has not been drained, some step is possible that brings it forward:
   * the submission of the task, a move inside the pool, a byte, a release or a return.
   */
  lemma ReadNeverStuck(ss: seq<ReadState>, ls: seq<ReadStep>, i: nat, a: Act)
    requires IsReadRun(ss, ls) && i < |ss| && |ss[i].pool.threads| > 1 && !Drained(ss[i], a)
    ensures CanGoOn(ss[i])
  {
    hide ConnInv, BuffersInv, ClosureInv, TaskInv, Inv, IsReadRun, Queued, Held;
    var s := ss[i];
    ReadRunInv(ss, ls, i);
    assert ActInv(s.pool, a) by { ActOfInv(s.pool, a); }
    if s.reading.Filled? {
      assert CanRead(s, SubmitTask) && Drives(SubmitTask);
    } else if s.pool.threads[0].At? {
      BusyGoesOn(s, 0);
    } else if s.pool.executor == [] {
      NothingInQueue<Lease>(a);
      var t := SomeoneHolds(s.pool.threads, a);
      BusyGoesOn(s, t);
    } else if s.pool.threads[1].Idle? {
      assert CanRead(s, TakeTask(1)) && Drives(TakeTask(1));
    } else {
      BusyGoesOn(s, 1);
    }
  }

  /**
   * And the selector thread can always read on: between tasks it can lease a buffer for any connection, and
   * with a leased buffer it can take any chunk of up to 8192 bytes, or a failure.
   */
  lemma SelectorReadsOn(ss: seq<ReadState>, ls: seq<ReadStep>, i: nat, a: Act, chunk: seq<Byte>)
    requires IsReadRun(ss, ls) && i < |ss| && 0 < |ss[i].pool.threads|
    ensures ss[i].reading.NotReading? && ss[i].pool.threads[0].Idle? ==> CanRead(ss[i], LeaseBuffer(a))
    ensures ss[i].reading.Reading? && |chunk| <= 8192 ==> CanRead(ss[i], ReadChunk(chunk)) && CanRead(ss[i], ReadFails)
  {
    hide ConnInv, ClosureInv, TaskInv, Inv, IsReadRun, OwnerInv, Do, CanStep;
    ReadRunInv(ss, ls, i);
  }

  // ------------------------------------------------------------------ when a task is cut short

  /** The byte a draining step hands to the decoder, and what makes the step throw. */
  predicate ThrowsAt(s: ReadState, t: nat, processThrows: bool)
    requires CanDrain(s, t)
  {
    var l := TaskOf(s, t);
    var byte := s.memory[l.buf].data[s.memory[l.buf].position];
    byte == 0 && (ParseFrame(Hist(s.text, l.act)) == Throws || processThrows)
  }

  /** Step `k` of the run is one in which a task of `a` throws. */
  ghost predicate ThrowingStep(ss: seq<ReadState>, ls: seq<ReadStep>, k: nat, a: Act)
    requires IsReadRun(ss, ls) && k < |ls|
  {
    && ls[k].DrainByte? && TaskOf(ss[k], ls[k].thread).act == a
    && ThrowsAt(ss[k], ls[k].thread, ls[k].processThrows)
  }

  lemma DrainThrows(s: ReadState, t: nat, throws: bool)
    requires CanDrain(s, t)
    ensures var s', a := DoDrain(s, t, throws), TaskOf(s, t).act;
            && s'.thrown == (if ThrowsAt(s, t, throws) then s.thrown + {a} else s.thrown)
            && (ThrowsAt(s, t, throws) ==> InTask(s', t) && !CanDrain(s', t)
                                           && (TaskOf(s', t).buf < |s'.owner| ==> CanRelease(s', t)))
  {
    hide ParseFrame;
  }

  lemma OtherThrows(s: ReadState, l: ReadStep)
    requires CanRead(s, l) && !l.DrainByte?
    ensures DoRead(s, l).thrown == s.thrown
  {
    hide Do, CanStep;
  }

  /**
   * Some task of a connection has thrown if and only if one of the steps handed the decoder a terminator
   * while the text before it was malformed or the protocol threw on the message.
   */
  lemma {:induction false} ThrownIff(ss: seq<ReadState>, ls: seq<ReadStep>, n: nat, a: Act)
    requires IsReadRun(ss, ls) && n <= |ls|
    ensures a in ss[n].thrown <==> exists k :: 0 <= k < n && ThrowingStep(ss, ls, k, a)
  {
    hide DoRead, CanRead, ThrowingStep;
    if n > 0 {
      ThrownIff(ss, ls, n - 1, a);
      ThrownStep(ss, ls, n - 1, a);
    }
  }

  lemma ThrownStep(ss: seq<ReadState>, ls: seq<ReadStep>, k: nat, a: Act)
    requires IsReadRun(ss, ls) && k < |ls|
    ensures a in ss[k + 1].thrown <==> a in ss[k].thrown || ThrowingStep(ss, ls, k, a)
  {
    hide ThrowsAt;
    if ls[k].DrainByte? { DrainThrows(ss[k], ls[k].thread, ls[k].processThrows); } else { OtherThrows(ss[k], ls[k]); }
  }

  lemma SameOwners(s: ReadState, t: nat, throws: bool)
    requires CanDrain(s, t) && Holds(s, TaskOf(s, t))
    ensures TaskOf(s, t).buf < |DoDrain(s, t, throws).owner|
    ensures TaskOf(DoDrain(s, t, throws), t) == TaskOf(s, t)
  {
    hide DecodeByte;
  }

  /** A task that throws takes no further byte: its next move is to release its buffer, and it can. */
  lemma ThrowingTaskReleases(ss: seq<ReadState>, ls: seq<ReadStep>, k: nat, a: Act)
    requires IsReadRun(ss, ls) && k < |ls| && ThrowingStep(ss, ls, k, a)
    ensures var t := ls[k].thread; !CanRead(ss[k + 1], DrainByte(t, false)) && CanRead(ss[k + 1], ReleaseBuffer(t))
  {
    hide ThrowsAt, ReadInv, Holds, DoDrain, TaskInv, ConnInv, ActInv;
    var t := ls[k].thread;
    DrainThrows(ss[k], t, ls[k].processThrows);
    ReadRunInv(ss, ls, k);
    HoldsInTask(ss[k], t);
    SameOwners(ss[k], t, ls[k].processThrows);
  }
}
