/** Every access of a sender or of the selector thread keeps the invariant of the output path. */
module WritePathSteps {
  import opened Text
  import opened StompCodec
  import opened WritePath

  lemma SenderKept(senders: seq<Sender>, w: nat, x: Sender, y: Sender)
    requires w < |senders| && y in senders && senders[w] != y
    ensures y in senders[w := x]
  {
    var i :| 0 <= i < |senders| && senders[i] == y;
    assert senders[w := x][i] == y;
  }

  lemma PromiseKept(s: WriteState, w: nat, c: Conn)
    requires CanWrite(s, SenderMoves(w)) && Promised(s, c)
    ensures Promised(DoSender(s, w), c)
  {
    var s' := DoSender(s, w);
    if s.senders[w] == AboutToPost(c) {
      assert s'.tasks[|s.tasks|] == c;
    } else if c !in s.tasks {
      SenderKept(s.senders, w, s'.senders[w], AboutToPost(c));
    }
  }

  lemma SenderInterest(s: WriteState, w: nat, c: Conn)
    requires CanWrite(s, SenderMoves(w)) && SenderInv(s, w) && InterestInv(s, c)
    ensures InterestInv(DoSender(s, w), c)
  {
    var s' := DoSender(s, w);
    if Promised(s, c) { PromiseKept(s, w, c); }
    assert s'.senders[w] in s'.senders;
  }

  lemma SendInterest(s: WriteState, w: nat, d: Conn, bytes: seq<Byte>, c: Conn)
    requires CanWrite(s, Send(w, d, bytes)) && InterestInv(s, c)
    ensures InterestInv(DoWrite(s, Send(w, d, bytes)), c)
  {
    if AboutToPost(c) in s.senders { SenderKept(s.senders, w, AboutToQueue(d, bytes), AboutToPost(c)); }
  }

  lemma SelectorInterest(s: WriteState, n: nat, c: Conn)
    requires CanMove(s, n) && SelectedInv(s) && InterestInv(s, c)
    ensures InterestInv(DoSelector(s, n), c)
  {
    if s.selecting.RunTask? && c in s.tasks && c != s.tasks[0] { assert c in s.tasks[1..]; }
  }

  lemma InterestStep(s: WriteState, l: WriteStep, c: Conn)
    requires CanWrite(s, l) && SelectedInv(s) && InterestInv(s, c)
    requires l.SenderMoves? ==> SenderInv(s, l.sender)
    ensures InterestInv(DoWrite(s, l), c)
  {
    match l {
      case Send(w, d, bytes) => SendInterest(s, w, d, bytes, c);
      case SenderMoves(w) =>
        hide InterestInv;
        SenderInterest(s, w, c);
      case SelectorMoves(n) =>
        hide InterestInv;
        SelectorInterest(s, n, c);
      case _ =>
    }
  }

  lemma SenderWake(s: WriteState, w: nat)
    requires CanWrite(s, SenderMoves(w)) && WakeInv(s)
    ensures WakeInv(DoSender(s, w))
  {
    var s' := DoSender(s, w);
    assert s'.senders[w] in s'.senders;
    if AboutToWake in s.senders && s.senders[w] != AboutToWake {
      SenderKept(s.senders, w, s'.senders[w], AboutToWake);
    }
  }

  lemma SelectorWake(s: WriteState, n: nat)
    requires CanMove(s, n) && WakeInv(s)
    ensures WakeInv(DoSelector(s, n))
  {
    hide SomeoneWakes, DoHandleWrite;
  }

  lemma WakeStep(s: WriteState, l: WriteStep)
    requires CanWrite(s, l) && WakeInv(s)
    ensures WakeInv(DoWrite(s, l))
  {
    hide DoSender, DoSelector;
    match l {
      case Send(w, c, bytes) =>
        if AboutToWake in s.senders { SenderKept(s.senders, w, AboutToQueue(c, bytes), AboutToWake); }
      case SenderMoves(w) => SenderWake(s, w);
      case SelectorMoves(n) => SelectorWake(s, n);
      case _ =>
    }
  }

  lemma SenderSenders(s: WriteState, t: nat, w: nat)
    requires CanWrite(s, SenderMoves(t)) && w < |s.senders| && SenderInv(s, w) && SenderInv(s, t)
    ensures |DoSender(s, t).senders| == |s.senders| && SenderInv(DoSender(s, t), w)
  {
  }

  lemma SelectorSenders(s: WriteState, n: nat, w: nat)
    requires CanMove(s, n) && w < |s.senders| && SenderInv(s, w)
    ensures DoSelector(s, n).senders == s.senders && SenderInv(DoSelector(s, n), w)
  {
    hide DoSelector;
    InterestGrows(s, n);
  }

  lemma InterestGrows(s: WriteState, n: nat)
    requires CanMove(s, n)
    ensures forall c :: c in s.interest ==> c in DoSelector(s, n).interest
  {
  }

  lemma SendersStep(s: WriteState, l: WriteStep, w: nat)
    requires CanWrite(s, l) && w < |s.senders| && SenderInv(s, w)
    requires l.SenderMoves? ==> SenderInv(s, l.sender)
    ensures |DoWrite(s, l).senders| == |s.senders| && SenderInv(DoWrite(s, l), w)
  {
    hide DoSender, DoSelector;
    match l {
      case SenderMoves(t) => SenderSenders(s, t, w);
      case SelectorMoves(n) => SelectorSenders(s, n, w);
      case _ =>
    }
  }

  lemma {:induction false} RestSame(x: seq<seq<Byte>>, y: seq<seq<Byte>>, ids: seq<nat>)
    requires forall i | 0 <= i < |ids| :: ids[i] < |x| && ids[i] < |y| && x[ids[i]] == y[ids[i]]
    ensures Rest(x, ids) == Rest(y, ids)
  {
    if ids != [] {
      RestSame(x, y, ids[1..]);
    }
  }

  lemma {:induction false} RestAppend(x: seq<seq<Byte>>, ids: seq<nat>, more: seq<nat>)
    ensures Rest(x, ids + more) == Rest(x, ids) + Rest(x, more)
  {
    if ids == [] {
      assert ids + more == more;
    } else {
      assert (ids + more)[1..] == ids[1..] + more;
      RestAppend(x, ids[1..], more);
    }
  }

  lemma QueueGrows(owners: seq<Conn>, q: seq<nat>, c: Conn, d: Conn)
    requires OwnedBy(owners, q, c) && Ordered(q)
    ensures OwnedBy(owners + [d], q, c)
    ensures OwnedBy(owners + [c], q + [|owners|], c) && Ordered(q + [|owners|])
  {
  }

  lemma QueueShrinks(owners: seq<Conn>, q: seq<nat>, c: Conn)
    requires OwnedBy(owners, q, c) && Ordered(q) && q != []
    ensures OwnedBy(owners, q[1..], c) && Ordered(q[1..])
  {
  }

  lemma OwnedSame(owners: seq<Conn>, q: seq<nat>, c: Conn, x: seq<seq<Byte>>, y: seq<seq<Byte>>)
    requires OwnedBy(owners, q, c) && |owners| <= |x| && |owners| <= |y|
    requires forall id: nat | id < |owners| && owners[id] == c :: x[id] == y[id]
    ensures Rest(x, q) == Rest(y, q)
  {
    RestSame(x, y, q);
  }

  lemma EnqueueQueue(s: WriteState, w: nat, c: Conn)
    requires CanWrite(s, SenderMoves(w)) && s.senders[w].AboutToQueue? && QueueInv(s, c)
    ensures QueueInv(DoSender(s, w), c)
  {
    hide Rest, OwnedBy, Ordered;
    var q, x := At(s.queues, c), s.buffers + [s.senders[w].bytes];
    QueueGrows(s.owners, q, c, s.senders[w].conn);
    OwnedSame(s.owners, q, c, s.buffers, x);
    if c == s.senders[w].conn {
      RestAppend(x, q, [|s.buffers|]);
      RestOne(x, |s.buffers|);
      Assoc(At(s.written, c), Rest(s.buffers, q), s.senders[w].bytes);
    }
  }

  lemma RestOne(x: seq<seq<Byte>>, id: nat)
    requires id < |x|
    ensures Rest(x, [id]) == x[id]
  {
    assert [id][1..] == [];
  }

  lemma RestHead(x: seq<seq<Byte>>, ids: seq<nat>)
    requires ids != [] && ids[0] < |x|
    ensures Rest(x, ids) == x[ids[0]] + Rest(x, ids[1..])
  {
  }

  lemma WriteTop(x: seq<seq<Byte>>, q: seq<nat>, rest: seq<Byte>)
    requires q != [] && q[0] < |x| && Ordered(q)
    requires forall i | 0 <= i < |q| :: q[i] < |x|
    ensures Rest(x[q[0] := rest], q) == rest + Rest(x, q[1..])
  {
    hide Rest;
    RestHead(x[q[0] := rest], q);
    RestSame(x, x[q[0] := rest], q[1..]);
  }

  lemma InHeap(owners: seq<Conn>, q: seq<nat>, c: Conn)
    requires OwnedBy(owners, q, c)
    ensures forall i | 0 <= i < |q| :: q[i] < |owners| && owners[q[i]] == c
  {
  }

  lemma WriteElsewhere(s: WriteState, n: nat, c: Conn)
    requires CanMove(s, n) && s.selecting.Write? && QueueInv(s, c)
    requires |s.owners| == |s.buffers| && s.owners[s.selecting.top] != c && s.selecting.conn != c
    ensures QueueInv(DoSelector(s, n), c)
  {
    hide Rest, OwnedBy, Ordered;
    var s' := WriteSome(s, s.selecting.conn, s.selecting.top, n);
    assert DoSelector(s, n) == s';
    OwnedSame(s.owners, At(s.queues, c), c, s.buffers, s'.buffers);
  }

  lemma WriteHere(s: WriteState, n: nat, c: Conn)
    requires CanMove(s, n) && s.selecting.Write? && TopInv(s) && QueueInv(s, c)
    requires c == s.selecting.conn
    ensures QueueInv(DoSelector(s, n), c)
  {
    hide Rest, OwnedBy, Ordered;
    var q := At(s.queues, c);
    var top := s.buffers[q[0]];
    InHeap(s.owners, q, c);
    RestHead(s.buffers, q);
    WriteTop(s.buffers, q, top[n..]);
    MoveBytes(At(s.written, c), top, n, Rest(s.buffers, q[1..]));
    var s' := DoSelector(s, n);
    assert s'.buffers == s.buffers[q[0] := top[n..]];
    assert At(s'.written, c) == At(s.written, c) + top[..n];
    assert At(s'.queues, c) == q;
    assert At(s'.enqueued, c) == At(s'.written, c) + Rest(s'.buffers, q);
    assert OwnedBy(s'.owners, q, c);
    assert Ordered(q);
    assert |s'.owners| == |s'.buffers|;
    assert QueueInv(s', c);
  }

  /** A partial write moves bytes from the head buffer to the channel and touches no other buffer. */
  lemma WriteQueueStep(s: WriteState, n: nat, c: Conn)
    requires CanMove(s, n) && s.selecting.Write? && TopInv(s) && QueueInv(s, c)
    requires QueueInv(s, s.selecting.conn)
    ensures QueueInv(DoSelector(s, n), c)
  {
    hide Rest, DoSelector, OwnedBy, Ordered;
    if c == s.selecting.conn {
      WriteHere(s, n, c);
    } else {
      InHeap(s.owners, At(s.queues, s.selecting.conn), s.selecting.conn);
      WriteElsewhere(s, n, c);
    }
  }

  lemma MoveBytes(written: seq<Byte>, top: seq<Byte>, n: nat, rest: seq<Byte>)
    requires n <= |top|
    ensures written + (top + rest) == (written + top[..n]) + (top[n..] + rest)
  {
  }

  lemma PollQueueStep(s: WriteState, n: nat, c: Conn)
    requires CanMove(s, n) && s.selecting.Poll? && TopInv(s) && QueueInv(s, c)
    ensures QueueInv(DoSelector(s, n), c)
  {
    hide Rest, OwnedBy, Ordered;
    var q := At(s.queues, c);
    if c == s.selecting.conn {
      QueueShrinks(s.owners, q, c);
      RestHead(s.buffers, q);
      assert [] + Rest(s.buffers, q[1..]) == Rest(s.buffers, q[1..]);
    }
  }

  lemma SenderQueue(s: WriteState, w: nat, c: Conn)
    requires CanWrite(s, SenderMoves(w)) && QueueInv(s, c)
    ensures QueueInv(DoSender(s, w), c)
  {
    hide QueueInv;
    if s.senders[w].AboutToQueue? {
      EnqueueQueue(s, w, c);
    } else {
      QueueUntouched(s, DoSender(s, w), c);
    }
  }

  lemma QueueUntouched(s: WriteState, s': WriteState, c: Conn)
    requires QueueInv(s, c) && SameQueues(s, s')
    ensures QueueInv(s', c)
  {
    hide Rest, OwnedBy, Ordered;
  }

  lemma SelectorQueue(s: WriteState, n: nat, c: Conn)
    requires CanMove(s, n) && TopInv(s) && QueueInv(s, c)
    requires s.selecting.Write? ==> QueueInv(s, s.selecting.conn)
    ensures QueueInv(DoSelector(s, n), c)
  {
    hide QueueInv, TopInv, DoSelector;
    if s.selecting.Write? {
      WriteQueueStep(s, n, c);
    } else if s.selecting.Poll? {
      PollQueueStep(s, n, c);
    } else {
      SelectorLooksOn(s, n);
      QueueUntouched(s, DoSelector(s, n), c);
    }
  }

  /** The selector thread's other accesses leave every queue and buffer alone. */
  lemma SelectorLooksOn(s: WriteState, n: nat)
    requires CanMove(s, n) && !s.selecting.Write? && !s.selecting.Poll?
    ensures SameQueues(s, DoSelector(s, n))
  {
    hide At, SameQueues, DoTasks, DoHandleWrite;
    if s.selecting.TestTasks? || s.selecting.RunTask? {
      TasksLookOn(s);
    } else {
      HandleWriteLooksOn(s, n);
    }
  }

  lemma TasksLookOn(s: WriteState)
    requires s.selecting.TestTasks? || (s.selecting.RunTask? && s.tasks != [])
    ensures SameQueues(s, DoTasks(s))
  {
  }

  lemma HandleWriteLooksOn(s: WriteState, n: nat)
    requires CanMove(s, n) && !s.selecting.TestTasks? && !s.selecting.RunTask?
    requires !s.selecting.Write? && !s.selecting.Poll?
    ensures SameQueues(s, DoHandleWrite(s, n))
  {
    hide At, WriteSome, PollTop, SameQueues;
    match s.selecting {
      case TestQueue(_) => GotoLooksOn(s);
      case Peek(_) => GotoLooksOn(s);
      case TestTop(_, _) => GotoLooksOn(s);
      case ResetOps(c) => ResetLooksOn(s, c);
    }
  }

  lemma GotoLooksOn(s: WriteState)
    ensures forall x :: SameQueues(s, Goto(s, x))
  {
  }

  lemma ResetLooksOn(s: WriteState, c: Conn)
    ensures SameQueues(s, Reset(s, c))
  {
  }

  lemma QueueStep(s: WriteState, l: WriteStep, c: Conn)
    requires CanWrite(s, l) && TopInv(s) && QueueInv(s, c)
    requires l.SelectorMoves? && s.selecting.Write? ==> QueueInv(s, s.selecting.conn)
    ensures QueueInv(DoWrite(s, l), c)
  {
    hide Rest, OwnedBy, Ordered, DoSender, DoSelector, TopInv;
    match l {
      case SenderMoves(w) => SenderQueue(s, w, c);
      case SelectorMoves(n) => SelectorQueue(s, n, c);
      case _ =>
    }
  }

  lemma SenderTop(s: WriteState, w: nat)
    requires CanWrite(s, SenderMoves(w)) && TopInv(s)
    ensures TopInv(DoSender(s, w))
  {
    var x := s.senders[w];
    if x.AboutToQueue? { QueueHeadKept(At(s.queues, x.conn), |s.buffers|); }
    hide HeadIs;
  }

  lemma QueueHeadKept(q: seq<nat>, id: nat)
    ensures forall top :: HeadIs(q, top) ==> HeadIs(q + [id], top)
  {
  }

  lemma TopInHand(s: WriteState, n: nat)
    requires CanMove(s, n) && TopInv(s)
    requires s.selecting.Peek? || s.selecting.Write? || s.selecting.TestTop?
    ensures TopInv(DoSelector(s, n))
  {
    hide At;
  }

  lemma NoTopInHand(s: WriteState, n: nat)
    requires CanMove(s, n)
    requires !(s.selecting.Peek? || s.selecting.Write? || s.selecting.TestTop?)
    ensures TopInv(DoSelector(s, n))
  {
    hide At, RunPosted, PollTop, Reset;
  }

  lemma SelectorTop(s: WriteState, n: nat)
    requires CanMove(s, n) && TopInv(s)
    ensures TopInv(DoSelector(s, n))
  {
    hide DoSelector, TopInv;
    if s.selecting.Peek? || s.selecting.Write? || s.selecting.TestTop? {
      TopInHand(s, n);
    } else {
      NoTopInHand(s, n);
    }
  }

  lemma SelectorSelected(s: WriteState, n: nat)
    requires CanMove(s, n) && SelectedInv(s)
    ensures SelectedInv(DoSelector(s, n))
  {
    hide DoTasks, DoHandleWrite;
  }

  lemma OtherTop(s: WriteState, l: WriteStep)
    requires CanWrite(s, l) && TopInv(s) && !l.SenderMoves? && !l.SelectorMoves?
    ensures TopInv(DoWrite(s, l))
  {
    hide At, HeadIs;
  }

  lemma TopStep(s: WriteState, l: WriteStep)
    requires CanWrite(s, l) && TopInv(s) && SelectedInv(s)
    ensures TopInv(DoWrite(s, l)) && SelectedInv(DoWrite(s, l))
  {
    hide DoSelector, TopInv;
    match l {
      case SenderMoves(w) => SenderTop(s, w);
      case SelectorMoves(n) =>
        SelectorTop(s, n);
        SelectorSelected(s, n);
      case _ => OtherTop(s, l);
    }
  }

  lemma WriteStepKeepsInv(s: WriteState, l: WriteStep)
    requires WriteInv(s) && CanWrite(s, l)
    ensures WriteInv(DoWrite(s, l))
  {
    hide InterestInv, QueueInv, WakeInv, TopInv, SelectedInv, SenderInv, DoWrite;
    var s' := DoWrite(s, l);
    if l.SelectorMoves? && s.selecting.Write? { assert QueueInv(s, s.selecting.conn); }
    if l.SenderMoves? { assert SenderInv(s, l.sender); }
    WakeStep(s, l);
    TopStep(s, l);
    forall c: Conn ensures InterestInv(s', c) && QueueInv(s', c) {
      assert InterestInv(s, c) && QueueInv(s, c);
      InterestStep(s, l, c);
      QueueStep(s, l, c);
    }
    SenderCount(s, l);
    forall w: nat | w < |s'.senders| ensures SenderInv(s', w) {
      assert SenderInv(s, w);
      SendersStep(s, l, w);
    }
  }

  lemma SenderCount(s: WriteState, l: WriteStep)
    requires CanWrite(s, l)
    ensures |DoWrite(s, l).senders| == |s.senders|
  {
    hide DoSender, DoSelector;
  }
}
