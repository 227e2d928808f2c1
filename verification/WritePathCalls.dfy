/**
 * The output path against what its callers did: the bytes queued are those the senders gave, `handleWrite`
 * really offers them to the channel, and posted tasks and full queues are worked off.
 */
module WritePathCalls {
  import opened Text
  import opened StompCodec
  import opened WritePath
  import opened WritePathSteps
  import opened WritePathRuns

  // ------------------------------------------------------------------ what the steps send

  /** A call of `send` that is under way: the connection, the bytes, and how many accesses it has made. */
  datatype Call = Call(conn: Conn, bytes: seq<Byte>, moves: nat)

  /** The latest call of sender `w`, from the steps alone, if it has not returned. */
  function CallOf(ls: seq<WriteStep>, n: nat, w: nat): Option<Call>
    requires n <= |ls|
  {
    if n == 0 then None else
    match ls[n - 1]
    case Send(v, c, bytes) => if v == w then Some(Call(c, bytes, 0)) else CallOf(ls, n - 1, w)
    case SenderMoves(v) =>
      var call := CallOf(ls, n - 1, w);
      if v != w || call == None then call
      else if call.value.moves == 2 then None
      else Some(call.value.(moves := call.value.moves + 1))
    case _ => CallOf(ls, n - 1, w)
  }

  /** The first access of a call adds its message to the queue of its connection. */
  function Queueing(ls: seq<WriteStep>, k: nat): Option<Call>
    requires k < |ls|
  {
    if ls[k].SenderMoves? then
      var call := CallOf(ls, k, ls[k].sender);
      if call.Some? && call.value.moves == 0 then call else None
    else None
  }

  /** The bytes the first `n` steps queued for `c`. */
  function Given(ls: seq<WriteStep>, n: nat, c: Conn): seq<Byte>
    requires n <= |ls|
  {
    if n == 0 then []
    else
      var q := Queueing(ls, n - 1);
      Given(ls, n - 1, c) + if q.Some? && q.value.conn == c then q.value.bytes else []
  }

  function SenderFor(call: Option<Call>): Sender
  {
    match call
    case None => Resting
    case Some(Call(c, bytes, moves)) =>
      if moves == 0 then AboutToQueue(c, bytes) else if moves == 1 then AboutToPost(c) else AboutToWake
  }

  lemma {:induction false} CallMoves(ls: seq<WriteStep>, n: nat, w: nat)
    requires n <= |ls|
    ensures CallOf(ls, n, w).Some? ==> CallOf(ls, n, w).value.moves <= 2
  {
    if n > 0 {
      CallMoves(ls, n - 1, w);
    }
  }

  lemma SenderStep(s: WriteState, l: WriteStep, w: nat)
    requires CanWrite(s, l) && w < |s.senders|
    ensures var s' := DoWrite(s, l);
            && |s'.senders| == |s.senders|
            && (l.Send? && l.sender == w ==> s'.senders[w] == AboutToQueue(l.conn, l.bytes) && s.senders[w] == Resting)
            && (l.SenderMoves? && l.sender == w ==>
                  match s.senders[w]
                  case Resting => false
                  case AboutToQueue(c, _) => s'.senders[w] == AboutToPost(c)
                  case AboutToPost(c) => s'.senders[w] == AboutToWake
                  case AboutToWake => s'.senders[w] == Resting)
            && (!(l.Send? && l.sender == w) && !(l.SenderMoves? && l.sender == w) ==> s'.senders[w] == s.senders[w])
  {
    hide DoSelector;
  }

  /** Where a sender is follows from the steps alone. */
  lemma {:induction false} SenderIsCall(ss: seq<WriteState>, ls: seq<WriteStep>, n: nat, w: nat)
    requires IsWriteRun(ss, ls) && n <= |ls| && w < |ss[0].senders|
    ensures w < |ss[n].senders| && ss[n].senders[w] == SenderFor(CallOf(ls, n, w))
  {
    hide DoWrite, CanWrite;
    if n > 0 {
      SenderIsCall(ss, ls, n - 1, w);
      SenderStep(ss[n - 1], ls[n - 1], w);
      CallMoves(ls, n - 1, w);
    }
  }

  lemma SelectorEnqueues(s: WriteState, n: nat)
    requires CanMove(s, n)
    ensures DoSelector(s, n).enqueued == s.enqueued
  {
    hide RunPosted, WriteSome, PollTop, Reset;
  }

  lemma EnqueueStep(s: WriteState, l: WriteStep, c: Conn)
    requires CanWrite(s, l)
    ensures At(DoWrite(s, l).enqueued, c)
         == At(s.enqueued, c)
            + if l.SenderMoves? && s.senders[l.sender].AboutToQueue? && s.senders[l.sender].conn == c
              then s.senders[l.sender].bytes else []
  {
    hide DoSelector;
    if l.SelectorMoves? { SelectorEnqueues(s, l.accepted); }
  }

  lemma {:induction false} SendersStay(ss: seq<WriteState>, ls: seq<WriteStep>, n: nat)
    requires IsWriteRun(ss, ls) && n <= |ls|
    ensures |ss[n].senders| == |ss[0].senders|
  {
    hide DoWrite, CanWrite;
    if n > 0 {
      SendersStay(ss, ls, n - 1);
      SendersCount(ss[n - 1], ls[n - 1]);
    }
  }

  lemma SendersCount(s: WriteState, l: WriteStep)
    requires CanWrite(s, l)
    ensures |DoWrite(s, l).senders| == |s.senders|
  {
    hide DoHandleWrite, DoTasks;
  }

  /** The history `enqueued` is, in order, the bytes that the senders gave, each message when its call queued it. */
  lemma {:induction false} EnqueuedIsGiven(ss: seq<WriteState>, ls: seq<WriteStep>, n: nat, c: Conn)
    requires IsWriteRun(ss, ls) && n <= |ls|
    ensures At(ss[n].enqueued, c) == Given(ls, n, c)
  {
    hide DoWrite, CanWrite, Queueing;
    if n > 0 {
      EnqueuedIsGiven(ss, ls, n - 1, c);
      EnqueueStep(ss[n - 1], ls[n - 1], c);
      QueueingIsSender(ss, ls, n - 1);
    }
  }

  /** A step queues what the sender it moves was about to queue. */
  lemma QueueingIsSender(ss: seq<WriteState>, ls: seq<WriteStep>, k: nat)
    requires IsWriteRun(ss, ls) && k < |ls|
    ensures ls[k].SenderMoves? ==> ls[k].sender < |ss[k].senders|
    ensures Queueing(ls, k).Some? <==> ls[k].SenderMoves? && ss[k].senders[ls[k].sender].AboutToQueue?
    ensures Queueing(ls, k).Some? ==>
              var x := ss[k].senders[ls[k].sender];
              x.conn == Queueing(ls, k).value.conn && x.bytes == Queueing(ls, k).value.bytes
  {
    hide DoWrite;
    if ls[k].SenderMoves? {
      SendersStay(ss, ls, k);
      SenderIsCall(ss, ls, k, ls[k].sender);
      CallMoves(ls, k, ls[k].sender);
    }
  }

  /** The messages sender `w` has sent, and those it has queued. */
  function SentBy(ls: seq<WriteStep>, n: nat, w: nat): seq<(Conn, seq<Byte>)>
    requires n <= |ls|
  {
    if n == 0 then []
    else SentBy(ls, n - 1, w)
         + if ls[n - 1].Send? && ls[n - 1].sender == w then [(ls[n - 1].conn, ls[n - 1].bytes)] else []
  }

  function QueuedBy(ls: seq<WriteStep>, n: nat, w: nat): seq<(Conn, seq<Byte>)>
    requires n <= |ls|
  {
    if n == 0 then []
    else
      var q := Queueing(ls, n - 1);
      QueuedBy(ls, n - 1, w)
      + if ls[n - 1].SenderMoves? && ls[n - 1].sender == w && q.Some? then [(q.value.conn, q.value.bytes)] else []
  }

  function Unqueued(x: Sender): seq<(Conn, seq<Byte>)>
  {
    if x.AboutToQueue? then [(x.conn, x.bytes)] else []
  }

  /** Each sender's messages are queued once each and in the order it sent them, all but the one in its hands. */
  lemma {:induction false} EveryMessageIsQueued(ss: seq<WriteState>, ls: seq<WriteStep>, n: nat, w: nat)
    requires IsWriteRun(ss, ls) && n <= |ls| && w < |ss[0].senders|
    ensures w < |ss[n].senders| && SentBy(ls, n, w) == QueuedBy(ls, n, w) + Unqueued(ss[n].senders[w])
  {
    hide DoWrite, CanWrite;
    SenderIsCall(ss, ls, n, w);
    if n > 0 {
      EveryMessageIsQueued(ss, ls, n - 1, w);
      SenderIsCall(ss, ls, n - 1, w);
      SenderStep(ss[n - 1], ls[n - 1], w);
      CallMoves(ls, n - 1, w);
    }
  }

  /**
   * Output conservation against the callers: the bytes a channel has accepted, then the unwritten rest of
   * its queue, are exactly the bytes that the calls of `send` gave for it, in the order they were queued.
   */
  lemma WrittenIsGiven(ss: seq<WriteState>, ls: seq<WriteStep>, n: nat, c: Conn)
    requires IsWriteRun(ss, ls) && n <= |ls|
    ensures Given(ls, n, c) == At(ss[n].written, c) + Rest(ss[n].buffers, At(ss[n].queues, c))
    ensures At(ss[n].queues, c) == [] ==> At(ss[n].written, c) == Given(ls, n, c)
  {
    hide DoWrite, CanWrite, Rest, Given;
    EnqueuedIsGiven(ss, ls, n, c);
    OutputConserved(ss, ls, n, c);
  }

  // ------------------------------------------------------------------ a visit to handleWrite

  /** From step `start`, which found the channel of `c` writable, to time `i` the selector thread is in handleWrite. */
  ghost predicate Visit(ss: seq<WriteState>, ls: seq<WriteStep>, start: nat, i: nat, c: Conn)
    requires IsWriteRun(ss, ls) && i <= |ls|
  {
    && start < i && ls[start] == Writable(c)
    && forall k | start < k <= i :: InHandleWrite(ss[k].selecting) && ss[k].selecting.conn == c
  }

  /** Step `j` offers the head of the queue of `c` to its channel, which accepts `n` bytes. */
  ghost predicate Offers(ss: seq<WriteState>, ls: seq<WriteStep>, j: nat, c: Conn, top: nat, n: nat)
    requires IsWriteRun(ss, ls) && j < |ls|
  {
    && ls[j] == SelectorMoves(n) && ss[j].selecting == Write(c, top) && HeadIs(At(ss[j].queues, c), top)
    && top < |ss[j].buffers| && n <= |ss[j].buffers[top]|
  }

  ghost predicate NotAll(s: WriteState, top: nat, n: nat) { top < |s.buffers| && n < |s.buffers[top]| }

  /** Step `j` finds the queue of `c` empty. */
  ghost predicate FindsEmpty(ss: seq<WriteState>, ls: seq<WriteStep>, j: nat, c: Conn)
    requires IsWriteRun(ss, ls) && j < |ls|
  {
    ls[j].SelectorMoves? && ss[j].selecting == TestQueue(c) && At(ss[j].queues, c) == []
  }

  lemma StayOrStart(s: WriteState, l: WriteStep)
    requires CanWrite(s, l) && InHandleWrite(DoWrite(s, l).selecting)
    ensures var x, x' := s.selecting, DoWrite(s, l).selecting;
            l == Writable(x'.conn) || (InHandleWrite(x) && x.conn == x'.conn)
  {
    hide WriteSome, PollTop, Reset;
  }

  lemma HowReset(s: WriteState, l: WriteStep)
    requires CanWrite(s, l) && DoWrite(s, l).selecting.ResetOps?
    ensures var c := DoWrite(s, l).selecting.conn;
            || s.selecting == ResetOps(c)
            || (l.SelectorMoves? && s.selecting == TestQueue(c) && At(s.queues, c) == [])
  {
  }

  lemma HowTestTop(s: WriteState, l: WriteStep)
    requires CanWrite(s, l) && DoWrite(s, l).selecting.TestTop?
    ensures var s' := DoWrite(s, l);
            var c, top := s'.selecting.conn, s'.selecting.top;
            || (s.selecting == s'.selecting && (top < |s.buffers| ==>
                  top < |s'.buffers| && s'.buffers[top] == s.buffers[top]))
            || (l.SelectorMoves? && s.selecting == Write(c, top) && top < |s'.buffers|
                && s'.buffers[top] == s.buffers[top][l.accepted..])
  {
    hide DoSender, DoSelector;
    match l {
      case SenderMoves(w) => SenderKeepsBuffers(s, w);
      case SelectorMoves(n) => HowSelectorTests(s, n);
      case _ =>
    }
  }

  lemma SenderKeepsBuffers(s: WriteState, w: nat)
    requires CanWrite(s, SenderMoves(w))
    ensures DoSender(s, w).selecting == s.selecting && s.buffers <= DoSender(s, w).buffers
  {
  }

  lemma HowSelectorTests(s: WriteState, n: nat)
    requires CanMove(s, n) && DoSelector(s, n).selecting.TestTop?
    ensures var s' := DoSelector(s, n);
            var c, top := s'.selecting.conn, s'.selecting.top;
            s.selecting == Write(c, top) && top < |s'.buffers| && s'.buffers[top] == s.buffers[top][n..]
  {
    hide RunPosted, PollTop, Reset;
  }

  lemma {:induction false} VisitOf(ss: seq<WriteState>, ls: seq<WriteStep>, i: nat) returns (start: nat)
    requires IsWriteRun(ss, ls) && i <= |ls| && InHandleWrite(ss[i].selecting)
    ensures Visit(ss, ls, start, i, ss[i].selecting.conn)
  {
    hide DoWrite, CanWrite;
    StayOrStart(ss[i - 1], ls[i - 1]);
    if ls[i - 1] == Writable(ss[i].selecting.conn) {
      start := i - 1;
    } else {
      start := VisitOf(ss, ls, i - 1);
    }
  }

  lemma {:induction false} EmptyBeforeReset(ss: seq<WriteState>, ls: seq<WriteStep>, i: nat, start: nat)
    returns (j: nat)
    requires IsWriteRun(ss, ls) && i <= |ls| && ss[i].selecting.ResetOps?
    requires Visit(ss, ls, start, i, ss[i].selecting.conn)
    ensures start < j < i && FindsEmpty(ss, ls, j, ss[i].selecting.conn)
  {
    hide DoWrite, CanWrite;
    HowReset(ss[i - 1], ls[i - 1]);
    if ss[i - 1].selecting == ss[i].selecting {
      NotJustStarted(ss, ls, i, start);
      j := EmptyBeforeReset(ss, ls, i - 1, start);
    } else {
      NotJustStarted(ss, ls, i, start);
      j := i - 1;
    }
  }

  /** A visit starts at the test of the queue. */
  lemma NotJustStarted(ss: seq<WriteState>, ls: seq<WriteStep>, i: nat, start: nat)
    requires IsWriteRun(ss, ls) && i <= |ls| && InHandleWrite(ss[i].selecting) && !ss[i].selecting.TestQueue?
    requires Visit(ss, ls, start, i, ss[i].selecting.conn)
    ensures start + 1 < i
  {
    hide DoHandleWrite, DoTasks;
  }

  lemma {:induction false} OfferBeforeTest(ss: seq<WriteState>, ls: seq<WriteStep>, i: nat, start: nat)
    returns (j: nat, n: nat)
    requires IsWriteRun(ss, ls) && i <= |ls| && ss[i].selecting.TestTop?
    requires Visit(ss, ls, start, i, ss[i].selecting.conn)
    ensures var c, top := ss[i].selecting.conn, ss[i].selecting.top;
            && start < j < i && Offers(ss, ls, j, c, top, n)
            && top < |ss[i].buffers| && ss[i].buffers[top] == ss[j].buffers[top][n..]
  {
    hide DoWrite, WriteInv;
    HowTestTop(ss[i - 1], ls[i - 1]);
    NotJustStarted(ss, ls, i, start);
    if ss[i - 1].selecting == ss[i].selecting {
      j, n := OfferBeforeTest(ss, ls, i - 1, start);
    } else {
      WriteRunInv(ss, ls, i - 1);
      j, n := i - 1, ls[i - 1].accepted;
      assert TopInv(ss[j]) by { TopOf(ss[j]); }
    }
  }

  lemma TopOf(s: WriteState)
    requires WriteInv(s)
    ensures TopInv(s)
  {
  }

  lemma HowLeft(s: WriteState, l: WriteStep)
    requires CanWrite(s, l) && InHandleWrite(s.selecting) && !InHandleWrite(DoWrite(s, l).selecting)
    ensures l.SelectorMoves? && DoWrite(s, l).selecting == Keys
    ensures s.selecting.ResetOps? || (s.selecting.TestTop? && s.buffers[s.selecting.top] != [])
  {
    hide WriteSome, PollTop;
  }

  /**
   * How the selector thread leaves handleWrite: back to the keys, and either through ResetOps, having found
   * the queue empty in this visit, or having offered the head of the queue to the channel in this visit,
   * which did not accept all of it. The connection is the one that was found writable.
   */
  lemma LeavesDoneOrFull(ss: seq<WriteState>, ls: seq<WriteStep>, i: nat)
    requires IsWriteRun(ss, ls) && i < |ls|
    requires InHandleWrite(ss[i].selecting) && !InHandleWrite(ss[i + 1].selecting)
    ensures var c := ss[i].selecting.conn;
            && ss[i + 1].selecting == Keys
            && exists start: nat :: Visit(ss, ls, start, i, c)
                 && if ss[i].selecting.ResetOps? then exists j: nat :: start < j < i && FindsEmpty(ss, ls, j, c)
                    else exists j: nat, n: nat, top: nat ::
                      start < j < i && Offers(ss, ls, j, c, top, n) && NotAll(ss[j], top, n)
  {
    hide DoWrite, CanWrite, Visit, Offers, FindsEmpty;
    var c := ss[i].selecting.conn;
    HowLeft(ss[i], ls[i]);
    var start := VisitOf(ss, ls, i);
    if ss[i].selecting.ResetOps? {
      var j := EmptyBeforeReset(ss, ls, i, start);
    } else {
      var j, n := OfferBeforeTest(ss, ls, i, start);
      OfferLeft(ss, ls, i, j, n);
    }
  }

  lemma OfferLeft(ss: seq<WriteState>, ls: seq<WriteStep>, i: nat, j: nat, n: nat)
    requires IsWriteRun(ss, ls) && j < i <= |ls| && ss[i].selecting.TestTop?
    requires var c, top := ss[i].selecting.conn, ss[i].selecting.top;
             && Offers(ss, ls, j, c, top, n) && top < |ss[i].buffers|
             && ss[i].buffers[top] == ss[j].buffers[top][n..] && ss[i].buffers[top] != []
    ensures NotAll(ss[j], ss[i].selecting.top, n)
  {
  }

  // ------------------------------------------------------------------ the selector thread on its own

  /** The selector thread's next access, a write accepting all it is given. */
  function FullMove(s: WriteState): WriteStep
  {
    match s.selecting
    case Write(_, top) => SelectorMoves(if top < |s.buffers| then |s.buffers[top]| else 0)
    case _ => SelectorMoves(0)
  }

  /** After `k` such accesses with nobody else in between, unless it cannot make one. */
  function FullMoves(s: WriteState, k: nat): Option<WriteState>
    decreases k
  {
    if k == 0 then Some(s)
    else if CanWrite(s, FullMove(s)) then FullMoves(DoWrite(s, FullMove(s)), k - 1)
    else None
  }

  ghost predicate AllWritten(s: WriteState, r: WriteState, c: Conn)
  {
    && r.selecting == Keys && At(r.queues, c) == [] && c in r.interest && r.interest[c] == OpRead
    && At(r.written, c) == At(s.enqueued, c) && r.enqueued == s.enqueued
    && forall d | d != c :: At(r.queues, d) == At(s.queues, d) && At(r.written, d) == At(s.written, d)
  }

  function Next(s: WriteState): WriteState
    requires CanWrite(s, FullMove(s))
  {
    DoWrite(s, FullMove(s))
  }

  lemma NextKeepsInv(s: WriteState)
    requires WriteInv(s) && CanWrite(s, FullMove(s))
    ensures WriteInv(Next(s))
  {
    WriteStepKeepsInv(s, FullMove(s));
  }

  lemma OneMove(s: WriteState, k: nat)
    requires CanWrite(s, FullMove(s))
    ensures FullMoves(s, k + 1) == FullMoves(Next(s), k)
  {
  }

  ghost predicate OthersSame(s: WriteState, r: WriteState, c: Conn)
  {
    && r.enqueued == s.enqueued
    && forall d | d != c :: At(r.queues, d) == At(s.queues, d) && At(r.written, d) == At(s.written, d)
  }

  lemma FromTest(s: WriteState, c: Conn)
    requires s.selecting == TestQueue(c)
    ensures CanWrite(s, FullMove(s))
    ensures Next(s) == s.(selecting := if At(s.queues, c) == [] then ResetOps(c) else Peek(c))
  {
  }

  lemma FromPeek(s: WriteState, c: Conn)
    requires s.selecting == Peek(c) && At(s.queues, c) != []
    ensures CanWrite(s, FullMove(s)) && Next(s) == s.(selecting := Write(c, At(s.queues, c)[0]))
  {
  }

  lemma FromWrite(s: WriteState, c: Conn, top: nat)
    requires s.selecting == Write(c, top) && top < |s.buffers|
    ensures CanWrite(s, FullMove(s))
    ensures var r := Next(s);
            && r.selecting == TestTop(c, top) && top < |r.buffers| && r.buffers[top] == []
            && r.queues == s.queues && OthersSame(s, r, c)
  {
  }

  lemma FromTop(s: WriteState, c: Conn, top: nat)
    requires s.selecting == TestTop(c, top) && top < |s.buffers| && s.buffers[top] == []
    ensures CanWrite(s, FullMove(s)) && Next(s) == s.(selecting := Poll(c, top))
  {
  }

  lemma FromPoll(s: WriteState, c: Conn, top: nat)
    requires s.selecting == Poll(c, top) && At(s.queues, c) != []
    ensures CanWrite(s, FullMove(s))
    ensures var r := Next(s);
            r.selecting == TestQueue(c) && At(r.queues, c) == At(s.queues, c)[1..] && OthersSame(s, r, c)
  {
  }

  lemma HeadIsBuffer(s: WriteState, c: Conn)
    requires WriteInv(s) && At(s.queues, c) != []
    ensures At(s.queues, c)[0] < |s.buffers|
  {
    assert QueueInv(s, c);
  }

  /** One buffer: tested for, peeked, written, tested and polled. */
  lemma OneBuffer(s: WriteState, c: Conn, k: nat) returns (r: WriteState)
    requires WriteInv(s) && s.selecting == TestQueue(c) && At(s.queues, c) != []
    ensures WriteInv(r) && r.selecting == TestQueue(c) && At(r.queues, c) == At(s.queues, c)[1..]
    ensures OthersSame(s, r, c) && FullMoves(s, k + 5) == FullMoves(r, k)
  {
    hide WriteInv, FullMoves, CanWrite, FullMove, Next;
    var top := At(s.queues, c)[0];
    HeadIsBuffer(s, c);
    FromTest(s, c);
    var s1 := Next(s);
    FromPeek(s1, c);
    var s2 := Next(s1);
    FromWrite(s2, c, top);
    var s3 := Next(s2);
    FromTop(s3, c, top);
    var s4 := Next(s3);
    FromPoll(s4, c, top);
    r := Next(s4);
    NextKeepsInv(s);
    NextKeepsInv(s1);
    NextKeepsInv(s2);
    NextKeepsInv(s3);
    NextKeepsInv(s4);
    OneMove(s, k + 4);
    OneMove(s1, k + 3);
    OneMove(s2, k + 2);
    OneMove(s3, k + 1);
    OneMove(s4, k);
  }

  /** The end of a visit. */
  lemma NoBuffer(s: WriteState, c: Conn) returns (r: WriteState)
    requires WriteInv(s) && s.selecting == TestQueue(c) && At(s.queues, c) == []
    ensures FullMoves(s, 2) == Some(r) && WriteInv(r) && r.selecting == Keys && At(r.queues, c) == []
    ensures c in r.interest && r.interest[c] == OpRead && OthersSame(s, r, c)
  {
    hide WriteInv;
    FromTest(s, c);
    var s1 := Next(s);
    r := Next(s1);
    NextKeepsInv(s);
    NextKeepsInv(s1);
    OneMove(s, 1);
    OneMove(s1, 0);
  }

  /**
   * handleWrite on its own, with a channel that accepts what it is given: it ends at the keys with the queue
   * of the connection empty, everything ever queued for it written, and its interest back at reading.
   */
  lemma {:induction false} HandleWriteDrains(s: WriteState, c: Conn) returns (r: WriteState)
    requires WriteInv(s) && s.selecting == TestQueue(c)
    ensures FullMoves(s, 5 * |At(s.queues, c)| + 2) == Some(r) && AllWritten(s, r, c)
    decreases |At(s.queues, c)|
  {
    hide WriteInv, FullMoves;
    if At(s.queues, c) == [] {
      r := NoBuffer(s, c);
      AllOut(r, c);
    } else {
      var s' := OneBuffer(s, c, 5 * |At(s.queues, c)| - 3);
      r := HandleWriteDrains(s', c);
    }
  }

  lemma AllOut(r: WriteState, c: Conn)
    requires WriteInv(r) && At(r.queues, c) == []
    ensures At(r.written, c) == At(r.enqueued, c)
  {
    assert QueueInv(r, c);
  }

  /**
   * In a run: when a channel is found writable, and nobody comes in between, all that the senders have queued
   * for it gets written.
   */
  lemma WritableWritesAll(ss: seq<WriteState>, ls: seq<WriteStep>, i: nat, c: Conn) returns (r: WriteState)
    requires IsWriteRun(ss, ls) && i < |ls| && ls[i] == Writable(c)
    ensures FullMoves(ss[i + 1], 5 * |At(ss[i].queues, c)| + 2) == Some(r)
    ensures r.selecting == Keys && At(r.queues, c) == [] && At(r.written, c) == Given(ls, i, c)
    ensures c in r.interest && r.interest[c] == OpRead
  {
    hide FullMoves, WriteInv, DoWrite, CanWrite, Given;
    WriteRunInv(ss, ls, i + 1);
    EnqueuedIsGiven(ss, ls, i, c);
    StartsVisit(ss[i], c);
    r := HandleWriteDrains(ss[i + 1], c);
  }

  lemma StartsVisit(s: WriteState, c: Conn)
    requires CanWrite(s, Writable(c))
    ensures DoWrite(s, Writable(c)) == s.(selecting := TestQueue(c))
  {
  }

  /** The posted tasks: run in turn until none is left, each asking for its connection's write interest. */
  lemma {:induction false} TasksRunOut(s: WriteState) returns (r: WriteState)
    requires s.selecting == TestTasks
    ensures FullMoves(s, 2 * |s.tasks| + 1) == Some(r) && r.selecting == Keys && r.tasks == []
    ensures forall c | c in s.tasks :: c in r.interest && r.interest[c] == OpReadWrite
    ensures forall c | c !in s.tasks :: (c in r.interest <==> c in s.interest)
                && (c in r.interest ==> r.interest[c] == s.interest[c])
    decreases |s.tasks|
  {
    hide FullMoves;
    if s.tasks == [] {
      r := Next(s);
      OneMove(s, 0);
      assert FullMoves(r, 0) == Some(r) by { NoMove(r); }
    } else {
      var s1 := Next(s);
      var s2 := Next(s1);
      OneMove(s, 2 * |s.tasks|);
      OneMove(s1, 2 * |s.tasks| - 1);
      r := TasksRunOut(s2);
      assert forall c :: c in s.tasks <==> c == s.tasks[0] || c in s2.tasks;
    }
  }

  /** In a run: when select() returns, and nobody comes in between, every connection posted gets its write interest. */
  lemma WakesToTasks(ss: seq<WriteState>, ls: seq<WriteStep>, i: nat) returns (r: WriteState)
    requires IsWriteRun(ss, ls) && i < |ls| && ls[i] == SelectReturns
    ensures FullMoves(ss[i + 1], 2 * |ss[i].tasks| + 1) == Some(r) && r.selecting == Keys && r.tasks == []
    ensures forall c | c in ss[i].tasks :: c in r.interest && r.interest[c] == OpReadWrite
  {
    hide FullMoves;
    r := TasksRunOut(ss[i + 1]);
  }

  lemma NoMove(s: WriteState)
    ensures FullMoves(s, 0) == Some(s)
  {
  }

  /**
   * A channel that does not take the whole of the buffer it is offered ends the visit: the next access finds
   * bytes left and goes back to the keys, the queue and the interest as they were.
   */
  lemma FullChannelEndsVisit(ss: seq<WriteState>, ls: seq<WriteStep>, j: nat, c: Conn, top: nat, n: nat)
    requires IsWriteRun(ss, ls) && j < |ls| && Offers(ss, ls, j, c, top, n) && NotAll(ss[j], top, n)
    ensures FullMoves(ss[j + 1], 1) == Some(ss[j + 1].(selecting := Keys))
    ensures ss[j + 1].queues == ss[j].queues && ss[j + 1].interest == ss[j].interest
    ensures At(ss[j + 1].written, c) == At(ss[j].written, c) + ss[j].buffers[top][..n]
  {
    hide Offers, NotAll, FullMoves;
    var s, s' := ss[j], ss[j + 1];
    WriteOffered(ss, ls, j, c, top, n);
    assert CanWrite(s', FullMove(s')) && Next(s') == s'.(selecting := Keys);
    OneMove(s', 0);
    NoMove(Next(s'));
  }

  lemma WriteOffered(ss: seq<WriteState>, ls: seq<WriteStep>, j: nat, c: Conn, top: nat, n: nat)
    requires IsWriteRun(ss, ls) && j < |ls| && Offers(ss, ls, j, c, top, n) && NotAll(ss[j], top, n)
    ensures var s, s' := ss[j], ss[j + 1];
            && top < |s.buffers| && n <= |s.buffers[top]| && top < |s'.buffers| && s'.buffers[top] != []
            && s'.selecting == TestTop(c, top) && s'.queues == s.queues && s'.interest == s.interest
            && At(s'.written, c) == At(s.written, c) + s.buffers[top][..n]
  {
  }

  // ------------------------------------------------------------------ sleeping and waking

  /** From the steps alone: the selector thread has gone to select() and not returned. */
  function Asleep(ls: seq<WriteStep>, n: nat): bool
    requires n <= |ls|
  {
    if n == 0 then true
    else
      match ls[n - 1]
      case KeysDone => true
      case SelectReturns => false
      case _ => Asleep(ls, n - 1)
  }

  /** From the steps alone: some call of send has made its last access since select() last returned. */
  function Woken(ls: seq<WriteStep>, n: nat): bool
    requires n <= |ls|
  {
    n > 0 &&
    match ls[n - 1]
    case SelectReturns => false
    case SenderMoves(w) =>
      Woken(ls, n - 1) || (CallOf(ls, n - 1, w).Some? && CallOf(ls, n - 1, w).value.moves == 2)
    case _ => Woken(ls, n - 1)
  }

  lemma SleepStep(s: WriteState, l: WriteStep)
    requires CanWrite(s, l)
    ensures var s' := DoWrite(s, l);
            && (s'.selecting.Blocked? <==> l.KeysDone? || (s.selecting.Blocked? && !l.SelectReturns?))
            && (s'.wakeup <==>
                  (!l.SelectReturns? && (s.wakeup || (l.SenderMoves? && s.senders[l.sender].AboutToWake?))))
  {
    hide DoSender, DoSelector;
    match l {
      case SenderMoves(w) => SenderSleeps(s, w);
      case SelectorMoves(n) => SelectorSleeps(s, n);
      case _ =>
    }
  }

  lemma SenderSleeps(s: WriteState, w: nat)
    requires CanWrite(s, SenderMoves(w))
    ensures DoSender(s, w).selecting == s.selecting
    ensures DoSender(s, w).wakeup <==> s.wakeup || s.senders[w].AboutToWake?
  {
  }

  lemma SelectorSleeps(s: WriteState, n: nat)
    requires CanMove(s, n)
    ensures !DoSelector(s, n).selecting.Blocked? && DoSelector(s, n).wakeup == s.wakeup
  {
    hide WriteSome, PollTop, Reset, DoHandleWrite;
  }

  /**
   * The selector thread sleeps from KeysDone until select() returns, and a wakeup is pending exactly if some
   * call of send has ended since select() last returned.
   */
  lemma {:induction false} SleepsAndWakes(ss: seq<WriteState>, ls: seq<WriteStep>, n: nat)
    requires IsWriteRun(ss, ls) && n <= |ls|
    ensures ss[n].selecting.Blocked? <==> Asleep(ls, n)
    ensures ss[n].wakeup <==> Woken(ls, n)
  {
    hide DoWrite;
    if n > 0 {
      var l := ls[n - 1];
      SleepsAndWakes(ss, ls, n - 1);
      SleepStep(ss[n - 1], l);
      if l.SenderMoves? {
        SendersStay(ss, ls, n - 1);
        SenderIsCall(ss, ls, n - 1, l.sender);
        CallMoves(ls, n - 1, l.sender);
      }
    }
  }

  // ------------------------------------------------------------------ connections nobody has sent anything

  ghost predicate NothingFor(s: WriteState, c: Conn)
  {
    && At(s.queues, c) == [] && At(s.written, c) == [] && c !in s.tasks
    && (c in s.interest ==> s.interest[c] == OpRead)
    && forall w | 0 <= w < |s.senders| :: NotFor(s.senders[w], c)
  }

  predicate NotFor(x: Sender, c: Conn) { x.AboutToQueue? || x.AboutToPost? ==> x.conn != c }

  lemma NothingForStep(s: WriteState, l: WriteStep, c: Conn)
    requires WriteInv(s) && CanWrite(s, l) && NothingFor(s, c) && !(l.Send? && l.conn == c)
    ensures NothingFor(DoWrite(s, l), c)
  {
    hide WriteInv, DoSender, DoSelector;
    TopOf(s);
    match l {
      case SenderMoves(w) => NothingForSender(s, w, c);
      case SelectorMoves(n) => NothingForSelector(s, n, c);
      case _ =>
    }
  }

  lemma NothingForSender(s: WriteState, w: nat, c: Conn)
    requires CanWrite(s, SenderMoves(w)) && NothingFor(s, c)
    ensures NothingFor(DoSender(s, w), c)
  {
    hide NotFor;
    var s' := DoSender(s, w);
    assert NotFor(s.senders[w], c);
    SenderIsNotFor(s, w, c);
    forall v | 0 <= v < |s'.senders| ensures NotFor(s'.senders[v], c) {
      if v != w { assert NotFor(s.senders[v], c); }
    }
  }

  lemma SenderIsNotFor(s: WriteState, w: nat, c: Conn)
    requires CanWrite(s, SenderMoves(w)) && NotFor(s.senders[w], c)
    ensures s.senders[w].AboutToQueue? || s.senders[w].AboutToPost? ==> s.senders[w].conn != c
    ensures NotFor(DoSender(s, w).senders[w], c)
  {
  }

  lemma NothingForSelector(s: WriteState, n: nat, c: Conn)
    requires TopInv(s) && CanMove(s, n) && NothingFor(s, c)
    ensures NothingFor(DoSelector(s, n), c)
  {
    hide DoHandleWrite, NothingFor, TopInv;
    if s.selecting.TestTasks? || s.selecting.RunTask? { NothingForTasks(s, c); } else { NothingForVisit(s, n, c); }
  }

  lemma NothingForTasks(s: WriteState, c: Conn)
    requires s.selecting.TestTasks? || (s.selecting.RunTask? && s.tasks != [])
    requires NothingFor(s, c)
    ensures NothingFor(DoTasks(s), c)
  {
  }

  lemma NothingForVisit(s: WriteState, n: nat, c: Conn)
    requires CanMove(s, n) && !s.selecting.TestTasks? && !s.selecting.RunTask?
    requires TopInv(s) && NothingFor(s, c)
    ensures NothingFor(DoHandleWrite(s, n), c)
  {
  }

  /** A connection that nobody has sent anything is only ever asked to read, and nothing is written to it. */
  lemma {:induction false} NothingUnasked(ss: seq<WriteState>, ls: seq<WriteStep>, n: nat, c: Conn)
    requires IsWriteRun(ss, ls) && n <= |ls|
    requires forall k | 0 <= k < n :: !(ls[k].Send? && ls[k].conn == c)
    ensures At(ss[n].queues, c) == [] && At(ss[n].written, c) == []
    ensures c in ss[n].interest ==> ss[n].interest[c] == OpRead
    ensures NothingFor(ss[n], c)
  {
    hide DoWrite, CanWrite, WriteInv;
    if n > 0 {
      NothingUnasked(ss, ls, n - 1, c);
      WriteRunInv(ss, ls, n - 1);
      NothingForStep(ss[n - 1], ls[n - 1], c);
    }
  }

  // ------------------------------------------------------------------ which connections there are

  lemma InterestKeys(s: WriteState, l: WriteStep, c: Conn)
    requires WriteInv(s) && CanWrite(s, l)
    ensures c in DoWrite(s, l).interest <==> c in s.interest || l == Accept(c)
  {
    hide WriteInv, DoSender, DoSelector;
    match l {
      case SenderMoves(w) => SenderKeys(s, w);
      case SelectorMoves(n) => SelectorKeys(s, n, c);
      case _ =>
    }
  }

  lemma SenderKeys(s: WriteState, w: nat)
    requires CanWrite(s, SenderMoves(w))
    ensures DoSender(s, w).interest == s.interest
  {
  }

  lemma SelectorKeys(s: WriteState, n: nat, c: Conn)
    requires WriteInv(s) && CanMove(s, n)
    ensures c in DoSelector(s, n).interest <==> c in s.interest
  {
    hide WriteInv, DoHandleWrite;
    PostedIsRegistered(s);
  }

  lemma PostedIsRegistered(s: WriteState)
    requires WriteInv(s)
    ensures s.tasks != [] ==> s.tasks[0] in s.interest
    ensures SelectedInv(s)
  {
    if s.tasks != [] { assert InterestInv(s, s.tasks[0]); }
  }

  /** The connections in the selector are those that have been accepted. */
  lemma {:induction false} RegisteredIffAccepted(ss: seq<WriteState>, ls: seq<WriteStep>, n: nat, c: Conn)
    requires IsWriteRun(ss, ls) && n <= |ls|
    ensures c in ss[n].interest <==> exists i :: 0 <= i < n && ls[i] == Accept(c)
  {
    hide DoWrite, CanWrite, WriteInv;
    if n > 0 {
      RegisteredIffAccepted(ss, ls, n - 1, c);
      WriteRunInv(ss, ls, n - 1);
      InterestKeys(ss[n - 1], ls[n - 1], c);
      if ls[n - 1] == Accept(c) { assert ls[n - 1] == Accept(c); }
    }
  }

  /**
   * Nobody ever has to wait for anybody else: a worker outside `send` can call it for any accepted connection,
   * a worker in it and the selector thread can always make their next access.
   */
  lemma NobodyWaits(ss: seq<WriteState>, ls: seq<WriteStep>, n: nat, w: nat, i: nat, c: Conn, bytes: seq<Byte>)
    requires IsWriteRun(ss, ls) && n <= |ls| && w < |ss[0].senders| && i < n && ls[i] == Accept(c)
    ensures w < |ss[n].senders|
    ensures CanWrite(ss[n], if ss[n].senders[w].Resting? then Send(w, c, bytes) else SenderMoves(w))
    ensures CanWrite(ss[n], match ss[n].selecting
                            case Blocked => SelectReturns
                            case Keys => Writable(c)
                            case _ => SelectorMoves(0))
  {
    hide DoWrite, CanMove;
    SendersStay(ss, ls, n);
    RegisteredIffAccepted(ss, ls, n, c);
    if !ss[n].selecting.Blocked? && !ss[n].selecting.Keys? { SelectorNeverFails(ss, ls, n); }
  }
}
