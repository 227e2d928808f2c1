/**
 * The reactor's output path: any number of workers in `send` against the selector thread in its loop and
 * in `handleWrite`, one step per access to a write queue, to selectorTasks, to an interest set, to the
 * selector's wakeup flag or to a channel. The flag is sticky: set by wakeup(), cleared when select()
 * returns. The connections are the open ones.
 */
module WritePath {
  import opened StompCodec

  type Conn = int

  datatype Interest = OpRead | OpReadWrite

  /** A worker that calls `send`: nowhere in it, or about to make the named access. */
  datatype Sender =
    | Resting
    | AboutToQueue(conn: Conn, bytes: seq<Byte>)   // writeQueue.add(encodedMsg)
    | AboutToPost(conn: Conn)                      // selectorTasks.add(() -> interestOps(READ|WRITE))
    | AboutToWake                                  // selector.wakeup()

  /** Where the selector thread is. A buffer is named by its place in the heap of buffers. */
  datatype Selecting =
    | Blocked                              // in select(), or about to call it
    | TestTasks                            // selectorTasks.isEmpty()
    | RunTask                              // selectorTasks.remove().run()
    | Keys                                 // in the loop over the selected keys
    | TestQueue(conn: Conn)                // handleWrite: writeQueue.isEmpty()
    | Peek(conn: Conn)                     // writeQueue.peek()
    | Write(conn: Conn, top: nat)          // chan.write(top)
    | TestTop(conn: Conn, top: nat)        // top.hasRemaining()
    | Poll(conn: Conn, top: nat)           // writeQueue.poll()
    | ResetOps(conn: Conn)                 // interestOps(READ)

  /**
   * `buffers` holds the unwritten rest of every encoded message, `owners` the connection it is for.
   * `enqueued` and `written` are history: all bytes ever added to a write queue, in that order, and
   * the bytes the channel has accepted.
   */
  datatype WriteState = WriteState(
    tasks: seq<Conn>,
    wakeup: bool,
    selecting: Selecting,
    interest: map<Conn, Interest>,
    queues: map<Conn, seq<nat>>,
    buffers: seq<seq<Byte>>,
    owners: seq<Conn>,
    senders: seq<Sender>,
    enqueued: map<Conn, seq<Byte>>,
    written: map<Conn, seq<Byte>>)

  datatype WriteStep =
    | Send(sender: nat, conn: Conn, bytes: seq<Byte>)   // a worker calls send
    | SenderMoves(sender: nat)                          // it makes its next access
    | SelectReturns                                     // a channel is ready or a wakeup is pending
    | Accept(conn: Conn)                                // a new channel is registered for reading
    | Writable(conn: Conn)                              // a selected key is writable
    | KeysDone
    | SelectorMoves(accepted: nat)                      // any other access; a write accepts that many bytes

  function At<T>(m: map<Conn, seq<T>>, c: Conn): seq<T> { if c in m then m[c] else [] }

  predicate CanWrite(s: WriteState, l: WriteStep)
  {
    match l
    case Send(w, c, _) => w < |s.senders| && s.senders[w].Resting? && c in s.interest
    case SenderMoves(w) => w < |s.senders| && !s.senders[w].Resting?
    case SelectReturns => s.selecting.Blocked?
    case Accept(c) => s.selecting.Keys? && c !in s.interest
    case Writable(c) => s.selecting.Keys? && c in s.interest
    case KeysDone => s.selecting.Keys?
    case SelectorMoves(n) => CanMove(s, n)
  }

  predicate CanMove(s: WriteState, n: nat)
  {
    match s.selecting
    case Blocked => false
    case Keys => false
    case RunTask => s.tasks != []
    case Peek(c) => At(s.queues, c) != []
    case Write(_, top) => top < |s.buffers| && n <= |s.buffers[top]|
    case TestTop(_, top) => top < |s.buffers|
    case Poll(c, _) => At(s.queues, c) != []
    case _ => true
  }

  function DoWrite(s: WriteState, l: WriteStep): WriteState
    requires CanWrite(s, l)
  {
    match l
    case Send(w, c, bytes) => s.(senders := s.senders[w := AboutToQueue(c, bytes)])
    case SenderMoves(w) => DoSender(s, w)
    case SelectReturns => s.(selecting := TestTasks, wakeup := false)
    case Accept(c) => s.(interest := s.interest[c := OpRead])
    case Writable(c) => s.(selecting := TestQueue(c))
    case KeysDone => s.(selecting := Blocked)
    case SelectorMoves(n) => DoSelector(s, n)
  }

  function DoSender(s: WriteState, w: nat): (r: WriteState)
    requires CanWrite(s, SenderMoves(w))
    ensures |r.senders| == |s.senders|
  {
    match s.senders[w]
    case AboutToQueue(c, bytes) =>
      s.(buffers := s.buffers + [bytes], owners := s.owners + [c],
         queues := s.queues[c := At(s.queues, c) + [|s.buffers|]],
         enqueued := s.enqueued[c := At(s.enqueued, c) + bytes],
         senders := s.senders[w := AboutToPost(c)])
    case AboutToPost(c) => s.(tasks := s.tasks + [c], senders := s.senders[w := AboutToWake])
    case AboutToWake => s.(wakeup := true, senders := s.senders[w := Resting])
  }

  function DoSelector(s: WriteState, n: nat): (r: WriteState)
    requires CanMove(s, n)
    ensures r.senders == s.senders
  {
    if s.selecting.TestTasks? || s.selecting.RunTask? then DoTasks(s) else DoHandleWrite(s, n)
  }

  /** runSelectionThreadTasks, one access. */
  function DoTasks(s: WriteState): (r: WriteState)
    requires s.selecting.TestTasks? || (s.selecting.RunTask? && s.tasks != [])
    ensures r.senders == s.senders && r.enqueued == s.enqueued
    ensures r.selecting.Keys? || r.selecting.RunTask? || r.selecting.TestTasks?
  {
    if s.selecting.RunTask? then RunPosted(s) else Goto(s, if s.tasks == [] then Keys else RunTask)
  }

  /** handleWrite, one access. */
  function DoHandleWrite(s: WriteState, n: nat): (r: WriteState)
    requires CanMove(s, n) && !s.selecting.TestTasks? && !s.selecting.RunTask?
    ensures r.senders == s.senders && r.tasks == s.tasks && r.wakeup == s.wakeup
    ensures r.selecting.Keys? || (!r.selecting.RunTask? && !r.selecting.TestTasks? && !r.selecting.Blocked?
                                  && r.selecting.conn == s.selecting.conn)
    ensures r.interest == if s.selecting.ResetOps? then s.interest[s.selecting.conn := OpRead] else s.interest
  {
    match s.selecting
    case TestQueue(c) => Goto(s, if At(s.queues, c) == [] then ResetOps(c) else Peek(c))
    case Peek(c) => Goto(s, Write(c, At(s.queues, c)[0]))
    case Write(c, top) => WriteSome(s, c, top, n)
    case TestTop(c, top) => Goto(s, if s.buffers[top] != [] then Keys else Poll(c, top))
    case Poll(c, _) => PollTop(s, c)
    case ResetOps(c) => Reset(s, c)
  }

  function Goto(s: WriteState, next: Selecting): WriteState { s.(selecting := next) }

  function RunPosted(s: WriteState): (r: WriteState)
    requires s.tasks != []
    ensures r.senders == s.senders && r.enqueued == s.enqueued && r.selecting == TestTasks
  {
    s.(interest := s.interest[s.tasks[0] := OpReadWrite], tasks := s.tasks[1..], selecting := TestTasks)
  }

  function WriteSome(s: WriteState, c: Conn, top: nat, n: nat): (r: WriteState)
    requires top < |s.buffers| && n <= |s.buffers[top]|
    ensures r.senders == s.senders && r.enqueued == s.enqueued && r.selecting == TestTop(c, top)
    ensures r.tasks == s.tasks && r.wakeup == s.wakeup && r.interest == s.interest && r.queues == s.queues
  {
    s.(buffers := s.buffers[top := s.buffers[top][n..]],
       written := s.written[c := At(s.written, c) + s.buffers[top][..n]],
       selecting := TestTop(c, top))
  }

  function PollTop(s: WriteState, c: Conn): (r: WriteState)
    requires At(s.queues, c) != []
    ensures r.senders == s.senders && r.enqueued == s.enqueued && r.selecting == TestQueue(c)
    ensures r.tasks == s.tasks && r.wakeup == s.wakeup && r.interest == s.interest
  {
    s.(queues := s.queues[c := At(s.queues, c)[1..]], selecting := TestQueue(c))
  }

  function Reset(s: WriteState, c: Conn): (r: WriteState)
    ensures r.senders == s.senders && r.enqueued == s.enqueued && r.selecting == Keys
    ensures r.tasks == s.tasks && r.wakeup == s.wakeup && r.queues == s.queues
  {
    s.(interest := s.interest[c := OpRead], selecting := Keys)
  }

  // ------------------------------------------------------------------ the invariant

  /** Somebody will still ask for the connection's write interest: a posted task or a sender before posting. */
  ghost predicate Promised(s: WriteState, c: Conn)
  {
    c in s.tasks || AboutToPost(c) in s.senders
  }

  ghost predicate InterestInv(s: WriteState, c: Conn)
  {
    && (At(s.queues, c) != [] ==> c in s.interest && (s.interest[c].OpReadWrite? || Promised(s, c)))
    && (s.selecting == ResetOps(c) && At(s.queues, c) != [] ==> Promised(s, c))
    && (c in s.tasks ==> c in s.interest)
  }

  ghost predicate SomeoneWakes(senders: seq<Sender>) { AboutToWake in senders }

  ghost predicate WakeInv(s: WriteState)
  {
    && (s.tasks != [] ==> s.wakeup || SomeoneWakes(s.senders) || s.selecting.TestTasks? || s.selecting.RunTask?)
    && (s.selecting.RunTask? ==> s.tasks != [])
  }

  ghost predicate SenderInv(s: WriteState, w: nat)
    requires w < |s.senders|
  {
    match s.senders[w]
    case AboutToQueue(c, _) => c in s.interest
    case AboutToPost(c) => c in s.interest
    case _ => true
  }

  /** The unwritten bytes of a queue of buffers. */
  function Rest(buffers: seq<seq<Byte>>, ids: seq<nat>): seq<Byte>
  {
    if ids == [] then [] else (if ids[0] < |buffers| then buffers[ids[0]] else []) + Rest(buffers, ids[1..])
  }

  ghost predicate OwnedBy(owners: seq<Conn>, q: seq<nat>, c: Conn)
  {
    forall i | 0 <= i < |q| :: q[i] < |owners| && owners[q[i]] == c
  }

  ghost predicate Ordered(q: seq<nat>) { forall i, j | 0 <= i < j < |q| :: q[i] < q[j] }

  /** The queue of `c` names buffers made for `c`, in the order they were made. */
  ghost predicate QueueInv(s: WriteState, c: Conn)
  {
    var q := At(s.queues, c);
    && |s.owners| == |s.buffers| && OwnedBy(s.owners, q, c) && Ordered(q)
    && At(s.enqueued, c) == At(s.written, c) + Rest(s.buffers, q)
  }

  ghost predicate SameQueues(s: WriteState, r: WriteState)
  {
    && r.queues == s.queues && r.buffers == s.buffers && r.owners == s.owners
    && r.enqueued == s.enqueued && r.written == s.written
  }

  ghost predicate HeadIs(q: seq<nat>, top: nat) { q != [] && q[0] == top }

  /** The buffer being written is the head of its queue, and stays so. */
  ghost predicate TopInv(s: WriteState)
  {
    match s.selecting
    case Peek(c) => At(s.queues, c) != []
    case Write(c, top) => HeadIs(At(s.queues, c), top)
    case TestTop(c, top) => HeadIs(At(s.queues, c), top)
    case Poll(c, top) => HeadIs(At(s.queues, c), top) && top < |s.buffers| && s.buffers[top] == []
    case _ => true
  }

  predicate InHandleWrite(x: Selecting)
  {
    !x.Blocked? && !x.TestTasks? && !x.RunTask? && !x.Keys?
  }

  ghost predicate SelectedInv(s: WriteState)
  {
    InHandleWrite(s.selecting) ==> s.selecting.conn in s.interest
  }

  ghost predicate WriteInv(s: WriteState)
  {
    && WakeInv(s) && TopInv(s) && SelectedInv(s)
    && (forall c: Conn :: InterestInv(s, c) && QueueInv(s, c))
    && (forall w: nat | w < |s.senders| :: SenderInv(s, w))
  }

  ghost predicate WriteInit(s: WriteState)
  {
    && s.tasks == [] && !s.wakeup && s.selecting == Blocked && s.interest == map[] && s.queues == map[]
    && s.buffers == [] && s.owners == [] && s.enqueued == map[] && s.written == map[]
    && forall w | 0 <= w < |s.senders| :: s.senders[w] == Resting
  }
}
