/**
 * ActorThreadPool as a step system: any number of threads, one step per access to a shared structure.
 * The pending queues are objects reached through the weak map `acts`, which may forget entries.
 */
module ActorPool {

  type Act = int

  /** A reference to a pending queue, an index into the heap of queues. */
  type Ref = nat

  /** What `execute` hands to the executor: the lambda that runs the task and then calls `complete`. */
  datatype Closure<T> = Closure(act: Act, task: T)

  /** The points of `submit`, of a task, and of `complete` at which other threads can interleave. */
  datatype Point =
    | SubmitEnter      // about to take the monitor of act
    | SubmitCheck      // playingNow.contains(act)
    | SubmitAdd        // playingNow.add(act)
    | SubmitExecute    // threads.execute(closure)
    | SubmitGet        // acts.get(act), under the read lock
    | SubmitPut        // acts.put(act, new queue), under the write lock
    | SubmitOffer      // queue.add(task)
    | SubmitExit       // about to leave the monitor
    | Running          // task.run(), which may return or throw
    | CompleteEnter    // in the finally block, about to take the monitor
    | CompleteGet      // acts.get(act), under the read lock
    | CompletePut      // acts.put(act, new queue), under the write lock
    | CompleteTest     // pending.isEmpty()
    | CompleteRemove   // playingNow.remove(act)
    | CompletePoll     // pending.poll()
    | CompleteExecute  // threads.execute(closure of the polled task)
    | CompleteExit     // about to leave the monitor

  /** A thread with nothing to do, or at a point with its local variables. */
  datatype Thread<T> = Idle | At(point: Point, act: Act, task: T, queue: Ref)

  /**
   * The shared state. `owners` says which act each queue object was made for; the last two fields are
   * history: per act, the tasks in the order `submit` placed them, and those whose closure has finished.
   */
  datatype Pool<T> = Pool(
    playingNow: set<Act>,
    acts: map<Act, Ref>,
    queues: seq<seq<T>>,
    owners: seq<Act>,
    monitors: map<Act, nat>,
    executor: seq<Closure<T>>,
    threads: seq<Thread<T>>,
    submitted: map<Act, seq<T>>,
    completed: map<Act, seq<T>>)

  datatype Step<T> =
    | Invoke(thread: nat, act: Act, task: T)   // an idle thread calls submit
    | Take(thread: nat)                        // an idle thread of the executor takes the next closure
    | Advance(thread: nat)                     // a thread makes its next access
    | Collect(act: Act)                        // the garbage collector drops a weak entry

  function Hist<T>(h: map<Act, seq<T>>, a: Act): seq<T> { if a in h then h[a] else [] }

  function Append<T>(h: map<Act, seq<T>>, a: Act, r: T): map<Act, seq<T>> { h[a := Hist(h, a) + [r]] }

  predicate InMonitor<T>(th: Thread<T>)
  {
    th.At? && (!th.point.SubmitEnter? && !th.point.Running? && !th.point.CompleteEnter?)
  }

  predicate Refers<T>(th: Thread<T>, a: Act) { th.At? && th.act == a }

  predicate CanAdvance<T>(s: Pool<T>, th: Thread<T>)
  {
    && th.At?
    && (th.point.SubmitEnter? || th.point.CompleteEnter? ==> th.act !in s.monitors)
    && (th.point.SubmitOffer? || th.point.CompleteTest? || th.point.CompletePoll? ==> th.queue < |s.queues|)
    && (th.point.CompletePoll? ==> s.queues[th.queue] != [])
  }

  predicate CanStep<T>(s: Pool<T>, l: Step<T>)
  {
    match l
    case Invoke(t, _, _) => t < |s.threads| && s.threads[t].Idle?
    case Take(t) => t < |s.threads| && s.threads[t].Idle? && s.executor != []
    case Advance(t) => t < |s.threads| && CanAdvance(s, s.threads[t])
    case Collect(a) =>
      && a in s.acts
      && (forall t | 0 <= t < |s.threads| :: !Refers(s.threads[t], a))
      && (forall i | 0 <= i < |s.executor| :: s.executor[i].act != a)
  }

  function Do<T>(s: Pool<T>, l: Step<T>): Pool<T>
    requires CanStep(s, l)
  {
    match l
    case Invoke(t, a, r) => s.(threads := s.threads[t := At(SubmitEnter, a, r, 0)])
    case Take(t) =>
      var c := s.executor[0];
      s.(threads := s.threads[t := At(Running, c.act, c.task, 0)], executor := s.executor[1..])
    case Advance(t) => DoAdvance(s, t)
    case Collect(a) => s.(acts := s.acts - {a})
  }

  function DoAdvance<T>(s: Pool<T>, t: nat): (r: Pool<T>)
    requires t < |s.threads| && CanAdvance(s, s.threads[t])
    ensures |r.threads| == |s.threads|
  {
    var th := s.threads[t];
    match th.point
    case SubmitEnter => Enter(s, t, SubmitCheck)
    case SubmitCheck => Goto(s, t, if th.act in s.playingNow then SubmitGet else SubmitAdd)
    case SubmitAdd => Add(s, t, SubmitExecute)
    case SubmitExecute => Execute(s, t, SubmitExit)
    case SubmitGet => Get(s, t, SubmitOffer, SubmitPut)
    case SubmitPut => Put(s, t, SubmitOffer)
    case SubmitOffer => Offer(s, t, SubmitExit)
    case SubmitExit => Leave(s, t)
    case Running => Goto(s, t, CompleteEnter)
    case CompleteEnter => Enter(s, t, CompleteGet)
    case CompleteGet => Get(s, t, CompleteTest, CompletePut)
    case CompletePut => Put(s, t, CompleteTest)
    case CompleteTest => Goto(s, t, if s.queues[th.queue] == [] then CompleteRemove else CompletePoll)
    case CompleteRemove => Remove(s, t, CompleteExit)
    case CompletePoll => Poll(s, t, CompleteExecute)
    case CompleteExecute => Execute(s, t, CompleteExit)
    case CompleteExit => Leave(s, t)
  }

  // The accesses, each made by thread `t`, which then moves on to point `p`.

  predicate Busy<T>(s: Pool<T>, t: nat) { t < |s.threads| && s.threads[t].At? }

  function Goto<T>(s: Pool<T>, t: nat, p: Point): (r: Pool<T>)
    requires Busy(s, t)
    ensures r.threads == s.threads[t := s.threads[t].(point := p)]
    ensures r.executor == s.executor
  {
    s.(threads := s.threads[t := s.threads[t].(point := p)])
  }

  function Enter<T>(s: Pool<T>, t: nat, p: Point): (r: Pool<T>)
    requires Busy(s, t)
    ensures r.threads == s.threads[t := s.threads[t].(point := p)]
    ensures r.executor == s.executor
  {
    Goto(s, t, p).(monitors := s.monitors[s.threads[t].act := t])
  }

  function Leave<T>(s: Pool<T>, t: nat): (r: Pool<T>)
    requires Busy(s, t)
    ensures r.threads == s.threads[t := Idle]
    ensures r.executor == s.executor
  {
    s.(monitors := s.monitors - {s.threads[t].act}, threads := s.threads[t := Idle])
  }

  function Get<T>(s: Pool<T>, t: nat, p: Point, missing: Point): (r: Pool<T>)
    requires Busy(s, t)
    ensures var th := s.threads[t];
            r.threads == s.threads[t := if th.act in s.acts then th.(queue := s.acts[th.act], point := p)
                                        else th.(point := missing)]
    ensures r.executor == s.executor
  {
    var th := s.threads[t];
    if th.act in s.acts then s.(threads := s.threads[t := th.(queue := s.acts[th.act], point := p)])
    else Goto(s, t, missing)
  }

  function Put<T>(s: Pool<T>, t: nat, p: Point): (r: Pool<T>)
    requires Busy(s, t)
    ensures r.threads == s.threads[t := s.threads[t].(queue := |s.queues|, point := p)]
    ensures r.executor == s.executor
  {
    var th, q := s.threads[t], |s.queues|;
    s.(queues := s.queues + [[]], owners := s.owners + [th.act], acts := s.acts[th.act := q],
       threads := s.threads[t := th.(queue := q, point := p)])
  }

  function Add<T>(s: Pool<T>, t: nat, p: Point): (r: Pool<T>)
    requires Busy(s, t)
    ensures r.threads == s.threads[t := s.threads[t].(point := p)]
    ensures r.executor == s.executor
  {
    var th := s.threads[t];
    Goto(s, t, p).(playingNow := s.playingNow + {th.act}, submitted := Append(s.submitted, th.act, th.task))
  }

  function Offer<T>(s: Pool<T>, t: nat, p: Point): (r: Pool<T>)
    requires Busy(s, t) && s.threads[t].queue < |s.queues|
    ensures r.threads == s.threads[t := s.threads[t].(point := p)]
    ensures r.executor == s.executor
  {
    var th := s.threads[t];
    Goto(s, t, p).(queues := s.queues[th.queue := s.queues[th.queue] + [th.task]],
                   submitted := Append(s.submitted, th.act, th.task))
  }

  function Execute<T>(s: Pool<T>, t: nat, p: Point): (r: Pool<T>)
    requires Busy(s, t)
    ensures r.threads == s.threads[t := s.threads[t].(point := p)]
    ensures r.executor == s.executor + [Closure(s.threads[t].act, s.threads[t].task)]
  {
    var th := s.threads[t];
    Goto(s, t, p).(executor := s.executor + [Closure(th.act, th.task)])
  }

  function Remove<T>(s: Pool<T>, t: nat, p: Point): (r: Pool<T>)
    requires Busy(s, t)
    ensures r.threads == s.threads[t := s.threads[t].(point := p)]
    ensures r.executor == s.executor
  {
    var th := s.threads[t];
    Goto(s, t, p).(playingNow := s.playingNow - {th.act}, completed := Append(s.completed, th.act, th.task))
  }

  function Poll<T>(s: Pool<T>, t: nat, p: Point): (r: Pool<T>)
    requires Busy(s, t) && s.threads[t].queue < |s.queues| && s.queues[s.threads[t].queue] != []
    ensures r.threads == s.threads[t := s.threads[t].(point := p, task := s.queues[s.threads[t].queue][0])]
    ensures r.executor == s.executor
  {
    var th := s.threads[t];
    var pending := s.queues[th.queue];
    s.(queues := s.queues[th.queue := pending[1..]], completed := Append(s.completed, th.act, th.task),
       threads := s.threads[t := th.(point := p, task := pending[0])])
  }

  // ------------------------------------------------------------------ what an act has in the pool

  /** In submit, before the task has been placed. */
  predicate Placing(p: Point)
  {
    p.SubmitEnter? || p.SubmitCheck? || p.SubmitAdd? || p.SubmitGet? || p.SubmitPut? || p.SubmitOffer?
  }

  predicate Holding(p: Point)
  {
    || p.SubmitExecute? || p.Running? || p.CompleteEnter? || p.CompleteGet? || p.CompletePut? || p.CompleteTest?
    || p.CompleteRemove? || p.CompletePoll? || p.CompleteExecute?
  }

  /** The task of `a` that a thread is running, finishing, or about to hand to the executor. */
  function HeldBy<T>(th: Thread<T>, a: Act): seq<T>
  {
    if Refers(th, a) && Holding(th.point) then [th.task] else []
  }

  function Held<T>(threads: seq<Thread<T>>, a: Act): seq<T>
  {
    if threads == [] then [] else HeldBy(threads[0], a) + Held(threads[1..], a)
  }

  function Queued<T>(executor: seq<Closure<T>>, a: Act): seq<T>
  {
    if executor == [] then [] else
    (if executor[0].act == a then [executor[0].task] else []) + Queued(executor[1..], a)
  }

  /** The tasks of `a` handed out and not finished, wherever their closures are. */
  function InFlight<T>(s: Pool<T>, a: Act): seq<T> { Queued(s.executor, a) + Held(s.threads, a) }

  function Pending<T>(s: Pool<T>, a: Act): seq<T>
  {
    if a in s.acts && s.acts[a] < |s.queues| then s.queues[s.acts[a]] else []
  }

  // ------------------------------------------------------------------ the simple form

  /** An actor as its users see it: at most one task in flight and a queue behind it. */
  datatype Actor<T> = Actor(completed: seq<T>, inFlight: seq<T>, pending: seq<T>)

  function AtomicSubmit<T>(v: Actor<T>, r: T): Actor<T>
  {
    if v.inFlight == [] then v.(inFlight := [r]) else v.(pending := v.pending + [r])
  }

  function AtomicComplete<T>(v: Actor<T>): Actor<T>
  {
    if v.pending == [] then Actor(v.completed + v.inFlight, [], [])
    else Actor(v.completed + v.inFlight, [v.pending[0]], v.pending[1..])
  }

  function View<T>(s: Pool<T>, a: Act): Actor<T>
  {
    Actor(Hist(s.completed, a), InFlight(s, a), Pending(s, a))
  }

  // ------------------------------------------------------------------ the invariant

  ghost predicate ActInv<T>(s: Pool<T>, a: Act)
  {
    && |InFlight(s, a)| <= 1
    && (a in s.playingNow <==> InFlight(s, a) != [])
    && (a !in s.playingNow ==> Pending(s, a) == [])
    && Hist(s.submitted, a) == Hist(s.completed, a) + InFlight(s, a) + Pending(s, a)
  }

  /** What a thread may rely on at each point inside a monitor. */
  ghost predicate ThreadInv<T>(s: Pool<T>, t: nat)
    requires t < |s.threads|
  {
    var th := s.threads[t];
    && (InMonitor(th) ==> th.act in s.monitors && s.monitors[th.act] == t)
    && (th.At? ==> PointInv(s, th.point, th.act, th.queue))
  }

  ghost predicate PointInv<T>(s: Pool<T>, p: Point, a: Act, q: Ref)
  {
    && (p.SubmitAdd? ==> a !in s.playingNow)
    && ((p.SubmitGet? || p.SubmitPut? || p.SubmitOffer?) ==> a in s.playingNow)
    && ((p.SubmitPut? || p.CompletePut?) ==> a !in s.acts)
    && ((p.SubmitOffer? || p.CompleteTest? || p.CompletePoll?) ==> a in s.acts && s.acts[a] == q)
    && (p.CompleteRemove? ==> Pending(s, a) == [])
    && (p.CompletePoll? ==> Pending(s, a) != [])
  }

  ghost predicate QueuesInv<T>(s: Pool<T>)
  {
    && |s.owners| == |s.queues|
    && (forall a | a in s.acts :: s.acts[a] < |s.queues| && s.owners[s.acts[a]] == a)
  }

  ghost predicate RefsInv<T>(s: Pool<T>)
  {
    && QueuesInv(s)
    && (forall a | a in s.monitors :: s.monitors[a] < |s.threads|
          && InMonitor(s.threads[s.monitors[a]]) && s.threads[s.monitors[a]].act == a)
  }

  ghost predicate Inv<T>(s: Pool<T>)
  {
    && RefsInv(s)
    && (forall t: nat | t < |s.threads| :: ThreadInv(s, t))
    && (forall a: Act :: ActInv(s, a))
  }

  ghost predicate Init<T>(s: Pool<T>)
  {
    && s.playingNow == {} && s.acts == map[] && s.queues == [] && s.owners == []
    && s.monitors == map[] && s.executor == []
    && (forall t | 0 <= t < |s.threads| :: s.threads[t] == Idle)
    && s.submitted == map[] && s.completed == map[]
  }
}
