/** The two connection handlers as objects, each method against the specification of its path. */
module ConnectionHandlers {
  import opened Text
  import opened StompFrame
  import opened StompCodec
  import opened ReadPathRuns
  import opened WritePath

  /** The blocking handler: one thread that owns its connection and reads byte by byte. */
  class BlockingConnectionHandler {
    const encdec: StompMessageEncoderDecoder
    const stops: Stops
    /** The messages given to `process`. */
    var processed: seq<StompMessage>

    constructor (encdec: StompMessageEncoderDecoder, stops: Stops)
      ensures this.encdec == encdec && this.stops == stops && processed == []
    {
      this.encdec, this.stops, processed := encdec, stops, [];
    }

    /** Reads `input` until it ends, the protocol wants to stop, or a malformed frame throws. */
    method Run(input: seq<Byte>)
      requires processed == [] && encdec.buffer == ""
      modifies this, encdec
      ensures processed == Cut(DecodeAll(input).messages, stops, 0)
    {
      var i := 0;
      ghost var d := FRESH;
      assert input[..0] == [];
      while !stops(processed) && i < |input|
        invariant 0 <= i <= |input|
        invariant DecodeAll(input[..i]) == Decoding(encdec.buffer, processed, true)
        invariant processed <= DecodeAll(input).messages
        invariant Cut(DecodeAll(input).messages, stops, 0) == Cut(DecodeAll(input).messages, stops, |processed|)
      {
        DecodeAllSnoc(input[..i], input[i]);
        assert input[..i + 1] == input[..i] + [input[i]];
        DecodePrefix(input[..i + 1], input);
        var nextMessage := encdec.DecodeNextByte(input[i]);
        i := i + 1;
        match nextMessage
        case Message(message) =>
          CutStep(DecodeAll(input).messages, stops, processed, message);
          processed := processed + [message];
        case Threw =>
          DecodeStopped(input, i);
          return;
        case NoMessage =>
      }
      if i == |input| { assert input[..i] == input; }
      assert DecodeAll(input).messages[..|processed|] == processed;
    }
  }

  lemma DecodeStopped(input: seq<Byte>, i: nat)
    requires i <= |input| && !DecodeAll(input[..i]).ok
    ensures DecodeAll(input) == DecodeAll(input[..i])
  {
    assert input == input[..i] + input[i..];
    DecodeConcat(FRESH, input[..i], input[i..]);
    DecodeExtends(DecodeAll(input[..i]), input[i..]);
  }

  /** Some message after the first `n` stopped the protocol. */
  ghost predicate StoppedSince(ms: seq<StompMessage>, n: nat, stops: Stops)
  {
    exists k :: n < k <= |ms| && stops(ms[..k])
  }

  lemma NoneSince(ms: seq<StompMessage>, stops: Stops)
    ensures !StoppedSince(ms, |ms|, stops)
  {
  }

  lemma StoppedSinceMore(ms: seq<StompMessage>, m: StompMessage, n: nat, stops: Stops)
    requires n <= |ms|
    ensures StoppedSince(ms + [m], n, stops) <==> StoppedSince(ms, n, stops) || stops(ms + [m])
  {
    var more := ms + [m];
    assert more[..|more|] == more;
    assert forall k | 0 <= k <= |ms| :: more[..k] == ms[..k];
  }

  /** Everything a write queue still has to write. */
  function Flat(queue: seq<seq<Byte>>): seq<Byte>
  {
    if queue == [] then [] else queue[0] + Flat(queue[1..])
  }

  lemma {:induction false} FlatAppend(queue: seq<seq<Byte>>, bytes: seq<Byte>)
    ensures Flat(queue + [bytes]) == Flat(queue) + bytes
  {
    if queue == [] {
      assert (queue + [bytes])[1..] == [];
    } else {
      assert (queue + [bytes])[1..] == queue[1..] + [bytes];
      FlatAppend(queue[1..], bytes);
    }
  }

  /** Writing part of the head buffer only moves bytes; once it is empty the head may go. */
  lemma WriteMoves(output: seq<Byte>, queue: seq<seq<Byte>>, n: nat)
    requires queue != [] && n <= |queue[0]|
    ensures var left := queue[0 := queue[0][n..]];
            && output + queue[0][..n] + Flat(left) == output + Flat(queue)
            && (n == |queue[0]| ==> Flat(left[1..]) == Flat(left))
  {
    var top, rest := queue[0], Flat(queue[1..]);
    var left := queue[0 := top[n..]];
    assert left[1..] == queue[1..];
    assert output + top[..n] + (top[n..] + rest) == output + (top + rest);
    if n == |top| { assert top[n..] + rest == rest; }
  }

  /** The buffers of the queue are offered in turn, each after the one before it was taken whole. */
  ghost predicate Offered(queue: seq<seq<Byte>>, accepted: seq<nat>)
  {
    && |accepted| <= |queue|
    && (forall k | 0 <= k < |accepted| :: accepted[k] <= |queue[k]|)
    && (forall k | 0 <= k < |accepted| - 1 :: accepted[k] == |queue[k]|)
  }

  /** The last one too was taken whole. */
  ghost predicate Taken(queue: seq<seq<Byte>>, accepted: seq<nat>)
    requires Offered(queue, accepted)
  {
    accepted != [] ==> accepted[|accepted| - 1] == |queue[|accepted| - 1]|
  }

  /** The non-blocking handler. `output` is history: the bytes its channel has accepted. */
  class NonBlockingConnectionHandler {
    const encdec: StompMessageEncoderDecoder
    const stops: Stops
    var processed: seq<StompMessage>
    var closed: bool
    var writeQueue: seq<seq<Byte>>
    var interest: Interest
    ghost var output: seq<Byte>

    constructor (encdec: StompMessageEncoderDecoder, stops: Stops)
      ensures this.encdec == encdec && this.stops == stops && processed == [] && !closed
      ensures writeQueue == [] && interest == OpRead && output == []
    {
      this.encdec, this.stops, processed, closed := encdec, stops, [], false;
      writeQueue, interest, output := [], OpRead, [];
    }

    /** The bytes written and still to be written gain one encoded message, or nothing for null. */
    method Send(msg: Option<StompMessage>)
      modifies `writeQueue, `interest
      ensures msg == None ==> writeQueue == old(writeQueue) && interest == old(interest)
      ensures msg.Some? ==> interest == OpReadWrite && writeQueue != []
      ensures msg.Some? ==> exists entries ::
          && Enumerates(entries, msg.value.headers)
          && output + Flat(writeQueue) == output + Flat(old(writeQueue)) + Wire(msg.value, entries)
    {
      if msg == None {
        return;
      }
      var frame := StompMessageEncoderDecoder.EncodeFrame(msg.value);
      ghost var entries :| Enumerates(entries, msg.value.headers)
                && frame == FrameText(msg.value.command, entries, msg.value.body) + "\0";
      FlatAppend(writeQueue, Utf8(frame));
      Assoc(output, Flat(writeQueue), Utf8(frame));
      assert Utf8(frame) == Wire(msg.value, entries);
      writeQueue := writeQueue + [Utf8(frame)];
      interest := OpReadWrite;
    }

    /**
     * Writes as much as the channel accepts: `accepted` is what it takes of each buffer it is offered, from
     * the head of the queue on. No byte is lost, repeated or reordered; it stops only at a buffer that was
     * offered and not taken whole; and write interest is given up exactly when nothing is left.
     */
    method HandleWrite() returns (accepted: seq<nat>)
      modifies `writeQueue, `interest, `output
      ensures output + Flat(writeQueue) == old(output) + Flat(old(writeQueue))
      ensures old(output) <= output
      ensures Offered(old(writeQueue), accepted)
      ensures Taken(old(writeQueue), accepted) ==>
                |accepted| == |old(writeQueue)| && writeQueue == [] && interest == OpRead
      ensures !Taken(old(writeQueue), accepted) ==>
                var last := |accepted| - 1;
                && writeQueue == [old(writeQueue)[last][accepted[last]..]] + old(writeQueue)[last + 1..]
                && interest == old(interest)
    {
      hide Flat;
      accepted := [];
      ghost var queue := writeQueue;
      while writeQueue != []
        invariant output + Flat(writeQueue) == old(output) + Flat(queue)
        invariant old(output) <= output && interest == old(interest)
        invariant |accepted| <= |queue| && writeQueue == queue[|accepted|..]
        invariant Offered(queue, accepted) && Taken(queue, accepted)
        decreases |writeQueue|
      {
        var top := writeQueue[0];
        var n: nat :| n <= |top|;
        WriteMoves(output, writeQueue, n);
        output := output + top[..n];
        writeQueue := writeQueue[0 := top[n..]];
        accepted := accepted + [n];
        if n < |top| {
          return;
        }
        writeQueue := writeQueue[1..];
      }
      interest := OpRead;
    }

    /** The lambda of `continueRead`: drains a buffer, closing after each message that stops the protocol. */
    method RunTask(buf: seq<Byte>) returns (threw: bool)
      modifies this, encdec
      ensures Decoding(encdec.buffer, processed, !threw)
           == DecodeFrom(Decoding(old(encdec.buffer), old(processed), true), buf)
      ensures closed <==> old(closed) || StoppedSince(processed, |old(processed)|, stops)
    {
      hide StoppedSince, ParseFrame;
      assert !StoppedSince(processed, |processed|, stops) by { NoneSince(processed, stops); }
      var position := 0;
      ghost var start := Decoding(encdec.buffer, processed, true);
      assert buf[..0] == [];
      while position < |buf|
        invariant 0 <= position <= |buf|
        invariant DecodeFrom(start, buf[..position]) == Decoding(encdec.buffer, processed, true)
        invariant old(processed) <= processed
        invariant closed <==> old(closed) || StoppedSince(processed, |old(processed)|, stops)
      {
        DecodeSnoc(start, buf[..position], buf[position]);
        assert buf[..position + 1] == buf[..position] + [buf[position]];
        var nextMessage := encdec.DecodeNextByte(buf[position]);
        position := position + 1;
        match nextMessage
        case Message(message) =>
          StoppedSinceMore(processed, message, |old(processed)|, stops);
          processed := processed + [message];
          if stops(processed) {
            closed := true;
          }
        case Threw =>
          DecodeConcat(start, buf[..position], buf[position..]);
          DecodeExtends(DecodeFrom(start, buf[..position]), buf[position..]);
          assert buf == buf[..position] + buf[position..];
          return true;
        case NoMessage =>
      }
      assert buf[..position] == buf;
      return false;
    }
  }

  /** The interest sets after the posted tasks have run in order. */
  function AfterTasks(interest: map<Conn, int>, tasks: seq<(Conn, int)>): map<Conn, int>
    decreases |tasks|
  {
    if tasks == [] then interest else AfterTasks(interest[tasks[0].0 := tasks[0].1], tasks[1..])
  }

  /** Of the tasks for one connection the last one counts, and without a task its interest stays. */
  lemma {:induction false} LastTaskCounts(interest: map<Conn, int>, tasks: seq<(Conn, int)>, k: nat, c: Conn)
    requires forall j | k < j < |tasks| :: tasks[j].0 != c
    ensures k < |tasks| && tasks[k].0 == c ==>
              c in AfterTasks(interest, tasks) && AfterTasks(interest, tasks)[c] == tasks[k].1
    ensures (forall j | 0 <= j < |tasks| :: tasks[j].0 != c) ==>
              (c in AfterTasks(interest, tasks) <==> c in interest)
              && (c in interest ==> AfterTasks(interest, tasks)[c] == interest[c])
    decreases |tasks|
  {
    if tasks != [] {
      var next := interest[tasks[0].0 := tasks[0].1];
      assert forall j | 0 <= j < |tasks[1..]| :: tasks[1..][j] == tasks[j + 1];
      LastTaskCounts(next, tasks[1..], if k == 0 then 0 else k - 1, c);
    }
  }

  /** What the reactor keeps for its selector thread: tasks posted by workers, interest sets, the wakeup flag. */
  class SelectorThread {
    var selectorTasks: seq<(Conn, int)>
    var interest: map<Conn, int>
    var wakeup: bool

    constructor ()
      ensures selectorTasks == [] && interest == map[] && !wakeup
    {
      selectorTasks, interest, wakeup := [], map[], false;
    }

    /** On the selector thread at once; from any other as a task, with a wakeup. */
    method UpdateInterestedOps(chan: Conn, ops: int, onSelectorThread: bool)
      modifies this
      ensures onSelectorThread ==> interest == old(interest)[chan := ops]
      ensures onSelectorThread ==> selectorTasks == old(selectorTasks) && wakeup == old(wakeup)
      ensures !onSelectorThread ==> selectorTasks == old(selectorTasks) + [(chan, ops)] && wakeup
      ensures !onSelectorThread ==> interest == old(interest)
    {
      if onSelectorThread {
        interest := interest[chan := ops];
      } else {
        selectorTasks := selectorTasks + [(chan, ops)];
        wakeup := true;
      }
    }

    /** Runs every task, in the order they were posted. */
    method RunSelectionThreadTasks()
      modifies `selectorTasks, `interest
      ensures selectorTasks == [] && interest == AfterTasks(old(interest), old(selectorTasks))
    {
      while selectorTasks != []
        invariant AfterTasks(interest, selectorTasks) == AfterTasks(old(interest), old(selectorTasks))
        decreases |selectorTasks|
      {
        var (chan, ops) := selectorTasks[0];
        interest := interest[chan := ops];
        selectorTasks := selectorTasks[1..];
      }
    }
  }
}
