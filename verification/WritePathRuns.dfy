/** Whole runs of the output path: no write and no wakeup is lost, and no byte. */
module WritePathRuns {
  import opened WritePath
  import opened WritePathSteps

  ghost predicate IsWriteRun(ss: seq<WriteState>, ls: seq<WriteStep>)
  {
    && |ss| == |ls| + 1 && WriteInit(ss[0])
    && (forall i | 0 <= i < |ls| :: CanWrite(ss[i], ls[i]) && ss[i + 1] == DoWrite(ss[i], ls[i]))
  }

  lemma {:induction false} WriteRunInv(ss: seq<WriteState>, ls: seq<WriteStep>, i: nat)
    requires IsWriteRun(ss, ls) && i < |ss|
    ensures WriteInv(ss[i])
  {
    hide DoWrite, CanWrite;
    if i > 0 {
      hide WriteInv;
      WriteRunInv(ss, ls, i - 1);
      WriteStepKeepsInv(ss[i - 1], ls[i - 1]);
    }
  }

  /** No worker is between adding to a write queue and its wakeup call. */
  predicate NobodyMidSend(s: WriteState)
  {
    forall w | 0 <= w < |s.senders| :: s.senders[w].Resting? || s.senders[w].AboutToQueue?
  }

  /**
   * No lost write and no lost wakeup: whenever the selector thread is about to block with no wakeup
   * pending and no worker is in the middle of `send`, there are no tasks left for it and every
   * connection with something to write has its write interest set.
   */
  lemma NoLostWrite(ss: seq<WriteState>, ls: seq<WriteStep>, i: nat, c: Conn)
    requires IsWriteRun(ss, ls) && i < |ss|
    requires ss[i].selecting.Blocked? && !ss[i].wakeup && NobodyMidSend(ss[i])
    ensures ss[i].tasks == []
    ensures At(ss[i].queues, c) != [] ==> c in ss[i].interest && ss[i].interest[c].OpReadWrite?
  {
    WriteRunInv(ss, ls, i);
    assert InterestInv(ss[i], c);
  }

  /** A task posted while the selector thread is about to block always comes with a wakeup. */
  lemma NoLostWakeup(ss: seq<WriteState>, ls: seq<WriteStep>, i: nat)
    requires IsWriteRun(ss, ls) && i < |ss| && ss[i].selecting.Blocked? && ss[i].tasks != []
    ensures ss[i].wakeup || AboutToWake in ss[i].senders
  {
    WriteRunInv(ss, ls, i);
  }

  /**
   * Output conservation under any partial writes and concurrent sends: the bytes the channel accepted,
   * then the unwritten rest of the queue, are all the bytes ever enqueued, in enqueue order.
   */
  lemma OutputConserved(ss: seq<WriteState>, ls: seq<WriteStep>, i: nat, c: Conn)
    requires IsWriteRun(ss, ls) && i < |ss|
    ensures At(ss[i].enqueued, c) == At(ss[i].written, c) + Rest(ss[i].buffers, At(ss[i].queues, c))
    ensures At(ss[i].queues, c) == [] ==> At(ss[i].written, c) == At(ss[i].enqueued, c)
  {
    WriteRunInv(ss, ls, i);
    assert QueueInv(ss[i], c);
  }

  /** The buffer `poll` removes is the one that was peeked, and all of it has been written. */
  lemma PolledIsPeeked(ss: seq<WriteState>, ls: seq<WriteStep>, i: nat)
    requires IsWriteRun(ss, ls) && i < |ss| && ss[i].selecting.Poll?
    ensures var q := At(ss[i].queues, ss[i].selecting.conn);
            q != [] && q[0] == ss[i].selecting.top && q[0] < |ss[i].buffers| && ss[i].buffers[q[0]] == []
  {
    WriteRunInv(ss, ls, i);
  }

  /** The selector thread never takes from an empty queue of tasks or buffers: it can always move on. */
  lemma SelectorNeverFails(ss: seq<WriteState>, ls: seq<WriteStep>, i: nat)
    requires IsWriteRun(ss, ls) && i < |ss| && !ss[i].selecting.Blocked? && !ss[i].selecting.Keys?
    ensures CanWrite(ss[i], SelectorMoves(0))
  {
    WriteRunInv(ss, ls, i);
    var s := ss[i];
    if s.selecting.Write? || s.selecting.TestTop? { assert QueueInv(s, s.selecting.conn); }
  }
}
