/** Every access in the pool keeps its invariant, and is one atomic operation on an act or invisible to it. */
module ActorPoolSteps {
  import opened Text
  import opened ActorPool

  // ------------------------------------------------------------------ bookkeeping of closures

  lemma {:induction false} HeldAppend<T>(x: seq<Thread<T>>, y: seq<Thread<T>>, a: Act)
    ensures Held(x + y, a) == Held(x, a) + Held(y, a)
  {
    if x == [] {
      assert x + y == y;
    } else {
      assert (x + y)[1..] == x[1..] + y;
      HeldAppend(x[1..], y, a);
    }
  }

  lemma HeldSplit<T>(threads: seq<Thread<T>>, t: nat, a: Act)
    requires t < |threads|
    ensures Held(threads, a) == Held(threads[..t], a) + HeldBy(threads[t], a) + Held(threads[t + 1..], a)
  {
    assert threads == threads[..t] + ([threads[t]] + threads[t + 1..]);
    HeldAppend(threads[..t], [threads[t]] + threads[t + 1..], a);
    HeldAppend([threads[t]], threads[t + 1..], a);
    assert [threads[t]][1..] == [];
  }

  lemma SwapMiddle<T>(l: seq<T>, x: seq<T>, r: seq<T>, y: seq<T>)
    ensures |l + x + r| <= |x| ==> l + y + r == y
    ensures |l + x + r| >= |x|
    ensures |l + x + r| == 1 && x != [] ==> l + x + r == x
  {
    if |l + x + r| == |x| {
      assert l == [] && r == [];
    }
  }

  lemma HeldUpdate<T>(threads: seq<Thread<T>>, t: nat, pc: Thread<T>, a: Act)
    requires t < |threads|
    ensures HeldBy(threads[t], a) == HeldBy(pc, a) ==> Held(threads[t := pc], a) == Held(threads, a)
    ensures |Held(threads, a)| <= |HeldBy(threads[t], a)| ==> Held(threads[t := pc], a) == HeldBy(pc, a)
    ensures |Held(threads, a)| >= |HeldBy(threads[t], a)|
    ensures |Held(threads, a)| == 1 && HeldBy(threads[t], a) != [] ==> Held(threads, a) == HeldBy(threads[t], a)
  {
    var after := threads[t := pc];
    HeldSplit(threads, t, a);
    HeldSplit(after, t, a);
    assert after[..t] == threads[..t] && after[t + 1..] == threads[t + 1..];
    SwapMiddle(Held(threads[..t], a), HeldBy(threads[t], a), Held(threads[t + 1..], a), HeldBy(pc, a));
  }

  lemma {:induction false} QueuedAppend<T>(executor: seq<Closure<T>>, c: Closure<T>, a: Act)
    ensures Queued(executor + [c], a) == Queued(executor, a) + if c.act == a then [c.task] else []
  {
    hide Queued;
    QueuedHead(executor + [c], a);
    if executor == [] {
      NothingInQueue<T>(a);
      assert (executor + [c])[1..] == [];
    } else {
      assert (executor + [c])[1..] == executor[1..] + [c];
      QueuedHead(executor, a);
      QueuedAppend(executor[1..], c, a);
    }
  }

  lemma QueuedHead<T>(executor: seq<Closure<T>>, a: Act)
    requires executor != []
    ensures Queued(executor, a)
         == (if executor[0].act == a then [executor[0].task] else []) + Queued(executor[1..], a)
  {
  }

  lemma NothingInQueue<T>(a: Act)
    ensures Queued<T>([], a) == []
  {
  }

  lemma {:induction false} NothingHeld<T>(threads: seq<Thread<T>>, a: Act)
    requires forall t | 0 <= t < |threads| :: !Refers(threads[t], a)
    ensures Held(threads, a) == []
  {
    if threads != [] {
      NothingHeld(threads[1..], a);
    }
  }

  lemma {:induction false} NothingQueued<T>(executor: seq<Closure<T>>, a: Act)
    requires forall i | 0 <= i < |executor| :: executor[i].act != a
    ensures Queued(executor, a) == []
  {
    if executor != [] {
      NothingQueued(executor[1..], a);
    }
  }

  // ------------------------------------------------------------------ every step keeps the invariant

  /** Nothing of `a` has changed that its users can see. */
  ghost predicate Unseen<T>(s: Pool<T>, s': Pool<T>, a: Act)
  {
    View(s', a) == View(s, a) && Hist(s'.submitted, a) == Hist(s.submitted, a)
  }

  ghost predicate Submits<T>(s: Pool<T>, s': Pool<T>, a: Act, r: T)
  {
    View(s', a) == AtomicSubmit(View(s, a), r) && Hist(s'.submitted, a) == Hist(s.submitted, a) + [r]
  }

  ghost predicate Completes<T>(s: Pool<T>, s': Pool<T>, a: Act)
  {
    View(s', a) == AtomicComplete(View(s, a)) && Hist(s'.submitted, a) == Hist(s.submitted, a)
  }

  /** How a step changes one actor: not at all, or by one atomic submit, or by one atomic complete. */
  ghost predicate Effect<T>(s: Pool<T>, s': Pool<T>, l: Step<T>, a: Act)
  {
    if l.Advance? && l.thread < |s.threads| && Refers(s.threads[l.thread], a) then
      var th := s.threads[l.thread];
      if th.point.SubmitAdd? || th.point.SubmitOffer? then Submits(s, s', a, th.task)
      else if th.point.CompleteRemove? || th.point.CompletePoll? then Completes(s, s', a)
      else Unseen(s, s', a)
    else
      Unseen(s, s', a)
  }

  // Threads: one outside every monitor relies on nothing; one inside shares its act with no other.

  /** Thread `t` is about to act, and `u` is any thread. */
  ghost predicate Threads<T>(s: Pool<T>, t: nat, u: nat)
  {
    && t < |s.threads| && s.threads[t].At? && ThreadInv(s, t)
    && u < |s.threads| && ThreadInv(s, u) && RefsInv(s)
  }

  ghost predicate ThreadsAfter<T>(s: Pool<T>, u: nat)
  {
    u < |s.threads| && ThreadInv(s, u) && RefsInv(s)
  }

  lemma GotoThreads<T>(s: Pool<T>, t: nat, p: Point, u: nat)
    requires Threads(s, t, u)
    requires var th := s.threads[t];
             InMonitor(th.(point := p)) == InMonitor(th) && PointInv(s, p, th.act, th.queue)
    ensures ThreadsAfter(Goto(s, t, p), u)
  {
  }

  lemma EnterThreads<T>(s: Pool<T>, t: nat, p: Point, u: nat)
    requires Threads(s, t, u) && s.threads[t].act !in s.monitors
    requires InMonitor(s.threads[t].(point := p)) && PointInv(s, p, s.threads[t].act, s.threads[t].queue)
    ensures ThreadsAfter(Enter(s, t, p), u)
  {
  }

  lemma LeaveThreads<T>(s: Pool<T>, t: nat, u: nat)
    requires Threads(s, t, u) && InMonitor(s.threads[t])
    ensures ThreadsAfter(Leave(s, t), u)
  {
  }

  lemma GetThreads<T>(s: Pool<T>, t: nat, p: Point, missing: Point, u: nat)
    requires Threads(s, t, u) && InMonitor(s.threads[t])
    requires (p.SubmitOffer? && missing.SubmitPut? && s.threads[t].act in s.playingNow)
          || (p.CompleteTest? && missing.CompletePut?)
    ensures ThreadsAfter(Get(s, t, p, missing), u)
  {
    if s.threads[t].act !in s.acts {
      GotoThreads(s, t, missing, u);
    }
  }

  lemma PutThreads<T>(s: Pool<T>, t: nat, p: Point, u: nat)
    requires Threads(s, t, u) && InMonitor(s.threads[t])
    requires (p.SubmitOffer? && s.threads[t].act in s.playingNow) || p.CompleteTest?
    ensures ThreadsAfter(Put(s, t, p), u)
  {
  }

  lemma AddThreads<T>(s: Pool<T>, t: nat, u: nat)
    requires Threads(s, t, u) && InMonitor(s.threads[t])
    ensures ThreadsAfter(Add(s, t, SubmitExecute), u)
  {
  }

  lemma OfferThreads<T>(s: Pool<T>, t: nat, u: nat)
    requires Threads(s, t, u) && s.threads[t].point.SubmitOffer?
    ensures ThreadsAfter(Offer(s, t, SubmitExit), u)
  {
  }

  lemma ExecuteThreads<T>(s: Pool<T>, t: nat, p: Point, u: nat)
    requires Threads(s, t, u) && InMonitor(s.threads[t]) && (p.SubmitExit? || p.CompleteExit?)
    ensures ThreadsAfter(Execute(s, t, p), u)
  {
  }

  lemma RemoveThreads<T>(s: Pool<T>, t: nat, u: nat)
    requires Threads(s, t, u) && InMonitor(s.threads[t])
    ensures ThreadsAfter(Remove(s, t, CompleteExit), u)
  {
  }

  lemma PollThreads<T>(s: Pool<T>, t: nat, u: nat)
    requires Threads(s, t, u) && s.threads[t].point.CompletePoll?
    ensures ThreadsAfter(Poll(s, t, CompleteExecute), u)
  {
  }

  lemma AdvanceThreads<T>(s: Pool<T>, t: nat, u: nat)
    requires Threads(s, t, u) && CanAdvance(s, s.threads[t])
    ensures ThreadsAfter(DoAdvance(s, t), u)
  {
    hide Goto, Enter, Leave, Get, Put, Add, Offer, Execute, Remove, Poll, ThreadsAfter;
    var th := s.threads[t];
    match th.point {
      case SubmitEnter => EnterThreads(s, t, SubmitCheck, u);
      case SubmitCheck => GotoThreads(s, t, if th.act in s.playingNow then SubmitGet else SubmitAdd, u);
      case SubmitAdd => AddThreads(s, t, u);
      case SubmitExecute => ExecuteThreads(s, t, SubmitExit, u);
      case SubmitGet => GetThreads(s, t, SubmitOffer, SubmitPut, u);
      case SubmitPut => PutThreads(s, t, SubmitOffer, u);
      case SubmitOffer => OfferThreads(s, t, u);
      case SubmitExit => LeaveThreads(s, t, u);
      case Running => GotoThreads(s, t, CompleteEnter, u);
      case CompleteEnter => EnterThreads(s, t, CompleteGet, u);
      case CompleteGet => GetThreads(s, t, CompleteTest, CompletePut, u);
      case CompletePut => PutThreads(s, t, CompleteTest, u);
      case CompleteTest => GotoThreads(s, t, if s.queues[th.queue] == [] then CompleteRemove else CompletePoll, u);
      case CompleteRemove => RemoveThreads(s, t, u);
      case CompletePoll => PollThreads(s, t, u);
      case CompleteExecute => ExecuteThreads(s, t, CompleteExit, u);
      case CompleteExit => LeaveThreads(s, t, u);
    }
  }

  /** The control flow: the points that can come after `p` in the same call. */
  predicate Follows(p: Point, p': Point)
  {
    match p
    case SubmitEnter => p'.SubmitCheck?
    case SubmitCheck => p'.SubmitGet? || p'.SubmitAdd?
    case SubmitAdd => p'.SubmitExecute?
    case SubmitExecute => p'.SubmitExit?
    case SubmitGet => p'.SubmitOffer? || p'.SubmitPut?
    case SubmitPut => p'.SubmitOffer?
    case SubmitOffer => p'.SubmitExit?
    case Running => p'.CompleteEnter?
    case CompleteEnter => p'.CompleteGet?
    case CompleteGet => p'.CompleteTest? || p'.CompletePut?
    case CompletePut => p'.CompleteTest?
    case CompleteTest => p'.CompleteRemove? || p'.CompletePoll?
    case CompleteRemove => p'.CompleteExit?
    case CompletePoll => p'.CompleteExecute?
    case CompleteExecute => p'.CompleteExit?
    case _ => false
  }

  /** A step moves its own thread along the control flow, and adds to the executor only by execute. */
  lemma AdvanceMoves<T>(s: Pool<T>, t: nat)
    requires CanStep(s, Advance(t))
    ensures var th := s.threads[t]; var th' := DoAdvance(s, t).threads[t];
      && DoAdvance(s, t).threads == s.threads[t := th']
      && (th'.Idle? ==> th.point.SubmitExit? || th.point.CompleteExit?)
      && (th'.At? ==> th'.act == th.act && Follows(th.point, th'.point))
      && (th'.At? && !th.point.CompletePoll? ==> th'.task == th.task)
      && DoAdvance(s, t).executor == s.executor
           + if th.point.SubmitExecute? || th.point.CompleteExecute? then [Closure(th.act, th.task)] else []
  {
    hide Goto, Enter, Leave, Get, Put, Add, Offer, Execute, Remove, Poll;
    assert s.executor + [] == s.executor;
  }

  // Acts: every access is invisible, or is one atomic operation on the act of the moving thread.

  /** Thread `t` is about to act, and `a` is any act. */
  ghost predicate Acts<T>(s: Pool<T>, t: nat, a: Act)
  {
    t < |s.threads| && s.threads[t].At? && ThreadInv(s, t) && QueuesInv(s) && ActInv(s, a)
  }

  /** A step that moves one thread and, for `a`, nothing else. */
  lemma QuietActs<T>(s: Pool<T>, s': Pool<T>, t: nat, th: Thread<T>, a: Act)
    requires t < |s.threads| && s'.threads == s.threads[t := th] && HeldBy(th, a) == HeldBy(s.threads[t], a)
    requires s'.playingNow == s.playingNow && s'.executor == s.executor
    requires s'.submitted == s.submitted && s'.completed == s.completed
    requires Pending(s', a) == Pending(s, a) && ActInv(s, a)
    ensures ActInv(s', a) && Unseen(s, s', a)
  {
    hide Held, Queued;
    HeldUpdate(s.threads, t, th, a);
  }

  lemma GotoActs<T>(s: Pool<T>, t: nat, p: Point, a: Act)
    requires Acts(s, t, a) && Holding(p) == Holding(s.threads[t].point)
    ensures var s' := Goto(s, t, p); ActInv(s', a) && Unseen(s, s', a)
    ensures var s' := Enter(s, t, p); ActInv(s', a) && Unseen(s, s', a)
  {
    hide Held, Queued;
    QuietActs(s, Goto(s, t, p), t, s.threads[t].(point := p), a);
    QuietActs(s, Enter(s, t, p), t, s.threads[t].(point := p), a);
  }

  lemma LeaveActs<T>(s: Pool<T>, t: nat, a: Act)
    requires Acts(s, t, a) && !Holding(s.threads[t].point)
    ensures var s' := Leave(s, t); ActInv(s', a) && Unseen(s, s', a)
  {
    hide Held, Queued;
    QuietActs(s, Leave(s, t), t, Idle, a);
  }

  lemma GetActs<T>(s: Pool<T>, t: nat, p: Point, missing: Point, a: Act)
    requires Acts(s, t, a)
    requires Holding(p) == Holding(s.threads[t].point) && Holding(missing) == Holding(s.threads[t].point)
    ensures var s' := Get(s, t, p, missing); ActInv(s', a) && Unseen(s, s', a)
  {
    hide Held, Queued, ActInv, Unseen, Get;
    var th, s' := s.threads[t], Get(s, t, p, missing);
    GetKeeps(s, t, p, missing, a);
    if th.act in s.acts {
      QuietActs(s, s', t, th.(queue := s.acts[th.act], point := p), a);
    } else {
      QuietActs(s, s', t, th.(point := missing), a);
    }
  }

  lemma GetKeeps<T>(s: Pool<T>, t: nat, p: Point, missing: Point, a: Act)
    requires Busy(s, t)
    ensures var s' := Get(s, t, p, missing);
            && s'.playingNow == s.playingNow && s'.submitted == s.submitted && s'.completed == s.completed
            && Pending(s', a) == Pending(s, a)
  {
  }

  /** Nobody else has put a queue since the read-locked get found none, so no queue is overwritten. */
  lemma PutActs<T>(s: Pool<T>, t: nat, p: Point, a: Act)
    requires Acts(s, t, a) && Holding(p) == Holding(s.threads[t].point)
    requires s.threads[t].point.SubmitPut? || s.threads[t].point.CompletePut?
    ensures s.threads[t].act !in s.acts
    ensures var s' := Put(s, t, p); ActInv(s', a) && Unseen(s, s', a)
  {
    hide Held, Queued;
    var s' := Put(s, t, p);
    QuietActs(s, s', t, s'.threads[t], a);
  }

  /** Handing a closure to the executor moves the task from the thread to the executor's queue. */
  lemma ExecuteActs<T>(s: Pool<T>, t: nat, p: Point, a: Act)
    requires Acts(s, t, a) && Holding(s.threads[t].point) && !Holding(p)
    ensures var s' := Execute(s, t, p); ActInv(s', a) && Unseen(s, s', a)
  {
    hide Held, Queued;
    var th, s' := s.threads[t], Execute(s, t, p);
    HeldUpdate(s.threads, t, s'.threads[t], a);
    QueuedAppend(s.executor, Closure(th.act, th.task), a);
    assert InFlight(s', a) == InFlight(s, a);
    assert Pending(s', a) == Pending(s, a);
  }

  lemma AddActs<T>(s: Pool<T>, t: nat, a: Act)
    requires Acts(s, t, a) && s.threads[t].point.SubmitAdd?
    ensures var s' := Add(s, t, SubmitExecute);
            ActInv(s', a) && if a == s.threads[t].act then Submits(s, s', a, s.threads[t].task) else Unseen(s, s', a)
  {
    hide Held, Queued;
    var th, s' := s.threads[t], Add(s, t, SubmitExecute);
    HeldUpdate(s.threads, t, s'.threads[t], a);
    assert Pending(s', a) == Pending(s, a);
    if a == th.act {
      assert InFlight(s, a) == [] && InFlight(s', a) == [th.task];
    }
  }

  lemma OfferActs<T>(s: Pool<T>, t: nat, a: Act)
    requires Acts(s, t, a) && s.threads[t].point.SubmitOffer?
    ensures var s' := Offer(s, t, SubmitExit);
            ActInv(s', a) && if a == s.threads[t].act then Submits(s, s', a, s.threads[t].task) else Unseen(s, s', a)
  {
    hide Held, Queued;
    var th, s' := s.threads[t], Offer(s, t, SubmitExit);
    HeldUpdate(s.threads, t, s'.threads[t], a);
    assert InFlight(s', a) == InFlight(s, a);
    if a == th.act {
      assert Pending(s', a) == Pending(s, a) + [th.task];
      Assoc(Hist(s.completed, a) + InFlight(s, a), Pending(s, a), [th.task]);
    }
  }

  lemma RemoveActs<T>(s: Pool<T>, t: nat, a: Act)
    requires Acts(s, t, a) && s.threads[t].point.CompleteRemove?
    ensures var s' := Remove(s, t, CompleteExit);
            ActInv(s', a) && if a == s.threads[t].act then Completes(s, s', a) else Unseen(s, s', a)
  {
    hide Held, Queued;
    var th, s' := s.threads[t], Remove(s, t, CompleteExit);
    HeldUpdate(s.threads, t, s'.threads[t], a);
    assert Pending(s', a) == Pending(s, a);
    if a == th.act {
      assert InFlight(s, a) == [th.task] && InFlight(s', a) == [];
    }
  }

  lemma HeadMovesUp<T>(done: seq<T>, pending: seq<T>)
    requires pending != []
    ensures done + [pending[0]] + pending[1..] == done + pending
  {
  }

  lemma PollMoves<T>(s: Pool<T>, t: nat, a: Act)
    requires Acts(s, t, a) && CanAdvance(s, s.threads[t]) && s.threads[t].point.CompletePoll?
    ensures var s' := Poll(s, t, CompleteExecute); var th := s.threads[t]; var pending := Pending(s, th.act);
            if a == th.act then
              && pending != [] && InFlight(s, a) == [th.task]
              && InFlight(s', a) == [pending[0]] && Pending(s', a) == pending[1..]
            else InFlight(s', a) == InFlight(s, a) && Pending(s', a) == Pending(s, a)
  {
    hide Held, Queued;
    HeldUpdate(s.threads, t, Poll(s, t, CompleteExecute).threads[t], a);
  }

  lemma PollActs<T>(s: Pool<T>, t: nat, a: Act)
    requires Acts(s, t, a) && CanAdvance(s, s.threads[t]) && s.threads[t].point.CompletePoll?
    ensures var s' := Poll(s, t, CompleteExecute);
            ActInv(s', a) && if a == s.threads[t].act then Completes(s, s', a) else Unseen(s, s', a)
  {
    hide InFlight, Pending;
    PollMoves(s, t, a);
    if a == s.threads[t].act {
      HeadMovesUp(Hist(s.completed, a) + [s.threads[t].task], Pending(s, a));
    }
  }

  lemma AdvanceActs<T>(s: Pool<T>, t: nat, a: Act)
    requires Acts(s, t, a) && CanAdvance(s, s.threads[t])
    ensures ActInv(DoAdvance(s, t), a) && Effect(s, DoAdvance(s, t), Advance(t), a)
  {
    hide Goto, Enter, Leave, Get, Put, Add, Offer, Execute, Remove, Poll, ActInv, Unseen, Submits, Completes;
    var th := s.threads[t];
    match th.point {
      case SubmitEnter => GotoActs(s, t, SubmitCheck, a);
      case SubmitCheck => GotoActs(s, t, if th.act in s.playingNow then SubmitGet else SubmitAdd, a);
      case SubmitAdd => AddActs(s, t, a);
      case SubmitExecute => ExecuteActs(s, t, SubmitExit, a);
      case SubmitGet => GetActs(s, t, SubmitOffer, SubmitPut, a);
      case SubmitPut => PutActs(s, t, SubmitOffer, a);
      case SubmitOffer => OfferActs(s, t, a);
      case SubmitExit => LeaveActs(s, t, a);
      case Running => GotoActs(s, t, CompleteEnter, a);
      case CompleteEnter => GotoActs(s, t, CompleteGet, a);
      case CompleteGet => GetActs(s, t, CompleteTest, CompletePut, a);
      case CompletePut => PutActs(s, t, CompleteTest, a);
      case CompleteTest => GotoActs(s, t, if s.queues[th.queue] == [] then CompleteRemove else CompletePoll, a);
      case CompleteRemove => RemoveActs(s, t, a);
      case CompletePoll => PollActs(s, t, a);
      case CompleteExecute => ExecuteActs(s, t, CompleteExit, a);
      case CompleteExit => LeaveActs(s, t, a);
    }
  }

  lemma InvokeKeeps<T>(s: Pool<T>, t: nat, act: Act, r: T, a: Act)
    requires CanStep(s, Invoke(t, act, r)) && ActInv(s, a)
    ensures var s' := Do(s, Invoke(t, act, r)); ActInv(s', a) && Unseen(s, s', a)
  {
    hide Held, Queued;
    QuietActs(s, Do(s, Invoke(t, act, r)), t, At(SubmitEnter, act, r, 0), a);
  }

  lemma TakeMoves<T>(s: Pool<T>, t: nat, a: Act)
    requires CanStep(s, Take(t)) && ActInv(s, a)
    ensures var s' := Do(s, Take(t)); InFlight(s', a) == InFlight(s, a) && Pending(s', a) == Pending(s, a)
  {
    hide Held, Queued;
    QueuedHead(s.executor, a);
    HeldUpdate(s.threads, t, Do(s, Take(t)).threads[t], a);
  }

  lemma TakeKeeps<T>(s: Pool<T>, t: nat, a: Act)
    requires CanStep(s, Take(t)) && ActInv(s, a)
    ensures var s' := Do(s, Take(t)); ActInv(s', a) && Unseen(s, s', a)
  {
    TakeMoves(s, t, a);
    hide InFlight, Pending;
  }

  /** The collector only ever drops a queue that is empty. */
  lemma CollectDropsNothing<T>(s: Pool<T>, a: Act)
    requires Inv(s) && CanStep(s, Collect(a))
    ensures s.queues[s.acts[a]] == [] && a !in s.playingNow
  {
    assert ActInv(s, a);
    NothingHeld(s.threads, a);
    NothingQueued(s.executor, a);
  }

  lemma CollectKeeps<T>(s: Pool<T>, dropped: Act, a: Act)
    requires Inv(s) && CanStep(s, Collect(dropped))
    ensures var s' := Do(s, Collect(dropped)); ActInv(s', a) && Unseen(s, s', a)
  {
    hide Held, Queued;
    assert ActInv(s, a);
    CollectDropsNothing(s, dropped);
  }

  lemma ActKept<T>(s: Pool<T>, l: Step<T>, a: Act)
    requires Inv(s) && CanStep(s, l)
    ensures ActInv(Do(s, l), a) && Effect(s, Do(s, l), l, a)
  {
    hide Unseen, Submits, Completes, DoAdvance;
    assert ActInv(s, a);
    match l {
      case Invoke(t, b, r) => InvokeKeeps(s, t, b, r, a);
      case Take(t) => TakeKeeps(s, t, a);
      case Advance(t) =>
        assert ThreadInv(s, t);
        AdvanceActs(s, t, a);
      case Collect(b) => CollectKeeps(s, b, a);
    }
  }

  lemma ThreadKept<T>(s: Pool<T>, l: Step<T>, u: nat)
    requires Inv(s) && CanStep(s, l) && u < |s.threads|
    ensures u < |Do(s, l).threads| && ThreadInv(Do(s, l), u)
  {
    hide DoAdvance;
    assert ThreadInv(s, u);
    if l.Advance? {
      assert ThreadInv(s, l.thread);
      AdvanceThreads(s, l.thread, u);
    }
  }

  lemma RefsKept<T>(s: Pool<T>, l: Step<T>)
    requires Inv(s) && CanStep(s, l)
    ensures RefsInv(Do(s, l))
  {
    hide DoAdvance;
    if l.Advance? {
      assert ThreadInv(s, l.thread);
      AdvanceThreads(s, l.thread, l.thread);
    }
  }

  /** Every step keeps the invariant and is, for each act, one atomic operation or invisible. */
  lemma StepKeepsInv<T>(s: Pool<T>, l: Step<T>)
    requires Inv(s) && CanStep(s, l)
    ensures Inv(Do(s, l))
    ensures forall a: Act :: Effect(s, Do(s, l), l, a)
  {
    hide DoAdvance, ThreadInv, ActInv, Effect;
    RefsKept(s, l);
    forall u: nat | u < |s.threads| ensures ThreadInv(Do(s, l), u) { ThreadKept(s, l, u); }
    forall a: Act ensures ActInv(Do(s, l), a) && Effect(s, Do(s, l), l, a) { ActKept(s, l, a); }
  }
}
