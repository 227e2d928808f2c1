/** Whole runs of the actor pool, the simple form they refine, and the class ActorThreadPool. */
module ActorPoolRuns {
  import opened ActorPool
  import opened ActorPoolSteps

  // ------------------------------------------------------------------ whole runs

  ghost predicate IsRun<T(!new)>(ss: seq<Pool<T>>, ls: seq<Step<T>>)
  {
    && |ss| == |ls| + 1 && Init(ss[0])
    && (forall i | 0 <= i < |ls| :: CanStep(ss[i], ls[i]) && ss[i + 1] == Do(ss[i], ls[i]))
  }

  lemma InitInv<T>(s: Pool<T>)
    requires Init(s)
    ensures Inv(s)
    ensures forall a: Act :: View(s, a) == Actor([], [], [])
  {
    forall a: Act ensures ActInv(s, a) && View(s, a) == Actor([], [], []) { NothingHeld(s.threads, a); }
  }

  lemma {:induction false} RunInv<T(!new)>(ss: seq<Pool<T>>, ls: seq<Step<T>>, i: nat)
    requires IsRun(ss, ls) && i < |ss|
    ensures Inv(ss[i])
  {
    if i == 0 {
      InitInv(ss[0]);
    } else {
      RunInv(ss, ls, i - 1);
      StepKeepsInv(ss[i - 1], ls[i - 1]);
    }
  }

  /**
   * Per-actor serial FIFO with conservation, in every state of every run: the tasks submitted for an
   * act are those completed, then at most one in flight, then those pending; and the act is in
   * playingNow exactly while one is in flight.
   */
  lemma SerialFifo<T(!new)>(ss: seq<Pool<T>>, ls: seq<Step<T>>, i: nat, a: Act)
    requires IsRun(ss, ls) && i < |ss|
    ensures var s := ss[i];
      && Hist(s.submitted, a) == Hist(s.completed, a) + InFlight(s, a) + Pending(s, a)
      && |InFlight(s, a)| <= 1
      && (a in s.playingNow <==> InFlight(s, a) != [])
  {
    RunInv(ss, ls, i);
    assert ActInv(ss[i], a);
  }

  lemma {:induction false} HeldAtLeast<T>(threads: seq<Thread<T>>, t: nat, a: Act)
    requires t < |threads|
    ensures |Held(threads, a)| >= |HeldBy(threads[t], a)|
  {
    HeldSplit(threads, t, a);
  }

  /** No two threads ever run tasks of one act at once, and the one that runs is the next in order. */
  lemma RunsAloneAndInOrder<T(!new)>(ss: seq<Pool<T>>, ls: seq<Step<T>>, i: nat, t: nat, u: nat)
    requires IsRun(ss, ls) && i < |ss| && t < |ss[i].threads| && u < |ss[i].threads|
    requires ss[i].threads[t].At? && ss[i].threads[t].point.Running?
    ensures var s := ss[i]; var th := s.threads[t];
      && |Hist(s.completed, th.act)| < |Hist(s.submitted, th.act)|
      && Hist(s.submitted, th.act)[|Hist(s.completed, th.act)|] == th.task
      && (Refers(s.threads[u], th.act) && s.threads[u].point.Running? ==> u == t)
  {
    var s, a := ss[i], ss[i].threads[t].act;
    RunInv(ss, ls, i);
    assert ActInv(s, a);
    HeldUpdate(s.threads, t, Idle, a);
    HeldAtLeast(s.threads[t := Idle], u, a);
  }

  /** The put of the split get-and-put never replaces a queue, in any state of any run. */
  lemma PutNeverOverwrites<T(!new)>(ss: seq<Pool<T>>, ls: seq<Step<T>>, i: nat, t: nat)
    requires IsRun(ss, ls) && i < |ss| && t < |ss[i].threads|
    requires ss[i].threads[t].At? && (ss[i].threads[t].point.SubmitPut? || ss[i].threads[t].point.CompletePut?)
    ensures ss[i].threads[t].act !in ss[i].acts
  {
    RunInv(ss, ls, i);
    assert ThreadInv(ss[i], t);
  }

  /** Collecting a weak entry never loses a task. */
  lemma CollectLosesNothing<T(!new)>(ss: seq<Pool<T>>, ls: seq<Step<T>>, i: nat, a: Act)
    requires IsRun(ss, ls) && i < |ss| && CanStep(ss[i], Collect(a))
    ensures ss[i].acts[a] < |ss[i].queues| && ss[i].queues[ss[i].acts[a]] == []
  {
    RunInv(ss, ls, i);
    CollectDropsNothing(ss[i], a);
  }

  /**
   * The pool never gets stuck: while a task is in flight or pending, some thread can take a closure or
   * make its next access. (So poll never finds an empty queue and a monitor is always left.)
   */
  lemma NeverStuck<T(!new)>(ss: seq<Pool<T>>, ls: seq<Step<T>>, i: nat, a: Act)
    requires IsRun(ss, ls) && i < |ss| && ss[i].threads != []
    requires InFlight(ss[i], a) != [] || Pending(ss[i], a) != []
    ensures exists t: nat :: CanStep(ss[i], Take(t)) || CanStep(ss[i], Advance(t))
  {
    var s := ss[i];
    RunInv(ss, ls, i);
    assert ActInv(s, a);
    if s.executor == [] {
      var t := SomeoneHolds(s.threads, a);
      BusyThreadMoves(s, t);
    } else if s.threads[0].Idle? {
      assert CanStep(s, Take(0));
    } else {
      BusyThreadMoves(s, 0);
    }
  }

  /** A thread that is not idle can move, or the owner of the monitor it waits for can. */
  lemma BusyThreadMoves<T>(s: Pool<T>, t: nat)
    requires Inv(s) && t < |s.threads| && s.threads[t].At?
    ensures exists u: nat :: CanStep(s, Advance(u))
  {
    assert ThreadInv(s, t);
    if !CanStep(s, Advance(t)) {
      var u := s.monitors[s.threads[t].act];
      assert ThreadInv(s, u);
      assert CanStep(s, Advance(u));
    }
  }

  lemma {:induction false} SomeoneHolds<T>(threads: seq<Thread<T>>, a: Act) returns (t: nat)
    requires Held(threads, a) != []
    ensures t < |threads| && HeldBy(threads[t], a) != []
  {
    if HeldBy(threads[0], a) != [] {
      t := 0;
    } else {
      t := SomeoneHolds(threads[1..], a);
      t := t + 1;
    }
  }

  // ------------------------------------------------------------------ refinement of the simple form

  datatype Op<T> = OpSubmit(task: T) | OpComplete

  /** The atomic operation on `a` that a step is, if it is one. */
  function OpOf<T>(s: Pool<T>, l: Step<T>, a: Act): (ops: seq<Op<T>>)
    ensures |ops| <= 1
  {
    if l.Advance? && l.thread < |s.threads| && Refers(s.threads[l.thread], a) then
      var th := s.threads[l.thread];
      if th.point.SubmitAdd? || th.point.SubmitOffer? then [OpSubmit(th.task)]
      else if th.point.CompleteRemove? || th.point.CompletePoll? then [OpComplete]
      else []
    else []
  }

  function Ops<T>(ss: seq<Pool<T>>, ls: seq<Step<T>>, n: nat, a: Act): seq<Op<T>>
    requires n <= |ls| && |ss| == |ls| + 1
  {
    if n == 0 then [] else Ops(ss, ls, n - 1, a) + OpOf(ss[n - 1], ls[n - 1], a)
  }

  function Apply<T>(v: Actor<T>, op: Op<T>): Actor<T>
  {
    match op
    case OpSubmit(r) => AtomicSubmit(v, r)
    case OpComplete => AtomicComplete(v)
  }

  function Replay<T>(ops: seq<Op<T>>): Actor<T>
  {
    if ops == [] then Actor([], [], []) else Apply(Replay(ops[..|ops| - 1]), ops[|ops| - 1])
  }

  lemma StepIsOp<T>(s: Pool<T>, l: Step<T>, a: Act)
    requires Inv(s) && CanStep(s, l)
    ensures OpOf(s, l, a) == [] ==> View(Do(s, l), a) == View(s, a)
    ensures OpOf(s, l, a) != [] ==> View(Do(s, l), a) == Apply(View(s, a), OpOf(s, l, a)[0])
  {
    hide View, Do, Inv;
    StepKeepsInv(s, l);
    assert Effect(s, Do(s, l), l, a);
  }

  lemma ReplayMore<T>(before: seq<Op<T>>, ops: seq<Op<T>>)
    requires |ops| <= 1
    ensures Replay(before + ops) == if ops == [] then Replay(before) else Apply(Replay(before), ops[0])
  {
    if ops == [] {
      assert before + ops == before;
    } else {
      assert (before + ops)[..|before + ops| - 1] == before;
    }
  }

  /** Every interleaving is, for each act, some sequence of whole submits and completes. */
  lemma {:induction false} RefinesAtomicActor<T(!new)>(ss: seq<Pool<T>>, ls: seq<Step<T>>, n: nat, a: Act)
    requires IsRun(ss, ls) && n <= |ls|
    ensures View(ss[n], a) == Replay(Ops(ss, ls, n, a))
  {
    hide View, Inv;
    if n == 0 {
      InitInv(ss[0]);
    } else {
      RefinesAtomicActor(ss, ls, n - 1, a);
      RunInv(ss, ls, n - 1);
      StepIsOp(ss[n - 1], ls[n - 1], a);
      ReplayMore(Ops(ss, ls, n - 1, a), OpOf(ss[n - 1], ls[n - 1], a));
    }
  }

  // ------------------------------------------------------------------ the object

  /** The pool as one object; each method body runs inside the monitor of its act. */
  class ActorThreadPool<T> {
    var acts: map<Act, seq<T>>
    var playingNow: set<Act>
    /** Everything handed to the executor service so far. */
    var threads: seq<Closure<T>>

    ghost function PendingOf(act: Act): seq<T>
      reads this
    {
      if act in acts then acts[act] else []
    }

    ghost function ViewOf(act: Act): Actor<T>
      reads this
    {
      var handed := Queued(threads, act);
      if act in playingNow && handed != [] then
        Actor(handed[..|handed| - 1], handed[|handed| - 1..], PendingOf(act))
      else
        Actor(handed, [], PendingOf(act))
    }

    ghost predicate Valid()
      reads this
    {
      && (forall act <- playingNow :: Queued(threads, act) != [])
      && (forall act <- acts :: act !in playingNow ==> acts[act] == [])
    }

    constructor ()
      ensures Valid() && forall act: Act :: ViewOf(act) == Actor([], [], [])
    {
      acts, playingNow, threads := map[], {}, [];
    }

    method Submit(act: Act, r: T)
      requires Valid()
      modifies this
      ensures Valid()
      ensures ViewOf(act) == AtomicSubmit(old(ViewOf(act)), r)
      ensures forall other: Act | other != act :: ViewOf(other) == old(ViewOf(other))
    {
      if act !in playingNow {
        playingNow := playingNow + {act};
        Execute(r, act);
      } else {
        PendingRunnablesOf(act);
        acts := acts[act := acts[act] + [r]];
      }
    }

    /** Makes sure that `act` has a pending queue. */
    method PendingRunnablesOf(act: Act)
      modifies this`acts
      ensures act in acts && acts[act] == old(PendingOf(act))
      ensures forall other: Act | other != act :: (other in acts <==> other in old(acts))
                && (other in acts ==> acts[other] == old(acts)[other])
    {
      if act !in acts {
        acts := acts[act := []];
      }
    }

    method Execute(r: T, act: Act)
      modifies this`threads
      ensures threads == old(threads) + [Closure(act, r)]
      ensures forall a: Act :: Queued(threads, a) == old(Queued(threads, a)) + if a == act then [r] else []
    {
      threads := threads + [Closure(act, r)];
      forall a: Act ensures Queued(threads, a) == old(Queued(threads, a)) + if a == act then [r] else [] {
        QueuedAppend(old(threads), Closure(act, r), a);
      }
    }

    /** Called by a closure of `act` when its task has returned or thrown. */
    method Complete(act: Act)
      requires Valid() && act in playingNow
      modifies this
      ensures Valid()
      ensures ViewOf(act) == AtomicComplete(old(ViewOf(act)))
      ensures forall other: Act | other != act :: ViewOf(other) == old(ViewOf(other))
    {
      hide Queued;
      PendingRunnablesOf(act);
      var pending := acts[act];
      if |pending| == 0 {
        playingNow := playingNow - {act};
      } else {
        acts := acts[act := pending[1..]];
        Execute(pending[0], act);
      }
      OthersKept(act);
    }

    /** Nothing that the view of another act is made of has changed. */
    twostate predicate OnlyTouches(act: Act)
      reads this
    {
      forall other: Act | other != act ::
        && (other in playingNow <==> other in old(playingNow))
        && (other in acts <==> other in old(acts))
        && PendingOf(other) == old(PendingOf(other))
        && Queued(threads, other) == old(Queued(threads, other))
    }

    twostate lemma OthersKept(act: Act)
      requires OnlyTouches(act)
      ensures forall other: Act | other != act :: ViewOf(other) == old(ViewOf(other))
    {
      hide Queued;
    }
  }
}
