/**
 * The actor pool against its callers: what each thread asked for is what it submits, once and in order, and
 * no call goes on for ever.
 */
module ActorPoolCalls {
  import opened Text
  import opened ActorPool
  import opened ActorPoolSteps
  import opened ActorPoolRuns

  // ------------------------------------------------------------------ what is asked for is submitted

  /** The calls of `submit` that thread `t` has made, from the steps alone. */
  function Invoked<T>(ls: seq<Step<T>>, n: nat, t: nat): seq<(Act, T)>
    requires n <= |ls|
  {
    if n == 0 then []
    else Invoked(ls, n - 1, t)
         + if ls[n - 1].Invoke? && ls[n - 1].thread == t then [(ls[n - 1].act, ls[n - 1].task)] else []
  }

  /** The atomic submit that a step of thread `t` is, if it is one. */
  function SubmitOf<T>(s: Pool<T>, l: Step<T>, t: nat): seq<(Act, T)>
  {
    if l.Advance? && l.thread == t && Busy(s, t) then
      var ops := OpOf(s, l, s.threads[t].act);
      if ops != [] && ops[0].OpSubmit? then [(s.threads[t].act, ops[0].task)] else []
    else []
  }

  function SubmitsOf<T>(ss: seq<Pool<T>>, ls: seq<Step<T>>, n: nat, t: nat): seq<(Act, T)>
    requires n <= |ls| && |ss| == |ls| + 1
  {
    if n == 0 then [] else SubmitsOf(ss, ls, n - 1, t) + SubmitOf(ss[n - 1], ls[n - 1], t)
  }

  /** The call a thread has not placed yet. */
  function Unplaced<T>(th: Thread<T>): seq<(Act, T)>
  {
    if th.At? && Placing(th.point) then [(th.act, th.task)] else []
  }

  lemma PlacingStep<T>(s: Pool<T>, l: Step<T>, t: nat)
    requires CanStep(s, l) && t < |s.threads|
    ensures t < |Do(s, l).threads|
    ensures Unplaced(s.threads[t])
            + (if l.Invoke? && l.thread == t then [(l.act, l.task)] else [])
         == SubmitOf(s, l, t) + Unplaced(Do(s, l).threads[t])
  {
    hide DoAdvance;
    if l.Advance? {
      if l.thread == t { PlacingAdvance(s, t); } else { AdvanceElsewhere(s, l.thread, t); }
    }
  }

  lemma PlacingAdvance<T>(s: Pool<T>, t: nat)
    requires t < |s.threads| && CanAdvance(s, s.threads[t])
    ensures t < |DoAdvance(s, t).threads|
    ensures Unplaced(s.threads[t]) == SubmitOf(s, Advance(t), t) + Unplaced(DoAdvance(s, t).threads[t])
  {
    hide DoAdvance;
    AdvanceMoves(s, t);
  }

  lemma AdvanceElsewhere<T>(s: Pool<T>, u: nat, t: nat)
    requires u < |s.threads| && CanAdvance(s, s.threads[u]) && t < |s.threads| && t != u
    ensures t < |DoAdvance(s, u).threads| && DoAdvance(s, u).threads[t] == s.threads[t]
  {
    hide DoAdvance;
    AdvanceMoves(s, u);
  }

  /**
   * In every interleaving, the submits a thread makes, as atomic operations on their acts, are the calls it
   * was asked to make, with their acts and tasks, once each and in order; only its latest may be missing.
   */
  lemma {:induction false} EveryCallIsSubmitted<T(!new)>(ss: seq<Pool<T>>, ls: seq<Step<T>>, n: nat, t: nat)
    requires IsRun(ss, ls) && n <= |ls| && t < |ss[0].threads|
    ensures t < |ss[n].threads| && Invoked(ls, n, t) == SubmitsOf(ss, ls, n, t) + Unplaced(ss[n].threads[t])
  {
    hide Do, CanStep, SubmitOf, Unplaced;
    if n == 0 {
      assert Unplaced(ss[0].threads[t]) == [] by { NotPlacing(ss[0].threads[t]); }
    } else {
      var s, l := ss[n - 1], ls[n - 1];
      EveryCallIsSubmitted(ss, ls, n - 1, t);
      PlacingStep(s, l, t);
      var call := if l.Invoke? && l.thread == t then [(l.act, l.task)] else [];
      Assoc(SubmitsOf(ss, ls, n - 1, t), Unplaced(s.threads[t]), call);
      Assoc(SubmitsOf(ss, ls, n - 1, t), SubmitOf(s, l, t), Unplaced(ss[n].threads[t]));
    }
  }

  lemma NotPlacing<T>(th: Thread<T>)
    requires th == Idle
    ensures Unplaced(th) == []
  {
  }

  // ------------------------------------------------------------------ calls end

  /** How many accesses of its own a thread is at most from being idle again. */
  function Left(p: Point): nat
  {
    match p
    case SubmitEnter => 6
    case SubmitCheck => 5
    case SubmitAdd => 3
    case SubmitExecute => 2
    case SubmitGet => 4
    case SubmitPut => 3
    case SubmitOffer => 2
    case SubmitExit => 1
    case Running => 8
    case CompleteEnter => 7
    case CompleteGet => 6
    case CompletePut => 5
    case CompleteTest => 4
    case CompleteRemove => 2
    case CompletePoll => 3
    case CompleteExecute => 2
    case CompleteExit => 1
  }

  lemma OneLeftLess<T>(s: Pool<T>, t: nat)
    requires t < |s.threads| && CanAdvance(s, s.threads[t])
    ensures s.threads[t].At? && t < |DoAdvance(s, t).threads|
    ensures var th := DoAdvance(s, t).threads[t]; th.At? ==> Left(th.point) < Left(s.threads[t].point)
  {
    hide DoAdvance;
    AdvanceMoves(s, t);
  }

  /** The accesses thread `t` has made since it last called submit or took a closure, from the steps alone. */
  function MovesOf<T>(ls: seq<Step<T>>, n: nat, t: nat): nat
    requires n <= |ls|
  {
    if n == 0 then 0
    else
      match ls[n - 1]
      case Invoke(u, _, _) => if u == t then 0 else MovesOf(ls, n - 1, t)
      case Take(u) => if u == t then 0 else MovesOf(ls, n - 1, t)
      case Advance(u) => MovesOf(ls, n - 1, t) + if u == t then 1 else 0
      case Collect(_) => MovesOf(ls, n - 1, t)
  }

  /** The latest of these was a call of submit. */
  function Submits<T>(ls: seq<Step<T>>, n: nat, t: nat): bool
    requires n <= |ls|
  {
    n > 0 &&
    match ls[n - 1]
    case Invoke(u, _, _) => u == t || Submits(ls, n - 1, t)
    case Take(u) => u != t && Submits(ls, n - 1, t)
    case _ => Submits(ls, n - 1, t)
  }

  /**
   * Every call is over after at most six accesses of its own, and a task that has run is over after at most
   * seven more, however the other threads interleave: while a thread is not idle it has not used them up.
   */
  lemma {:induction false} CallsEnd<T(!new)>(ss: seq<Pool<T>>, ls: seq<Step<T>>, n: nat, t: nat)
    requires IsRun(ss, ls) && n <= |ls| && t < |ss[0].threads|
    ensures t < |ss[n].threads|
    ensures ss[n].threads[t].At? ==> MovesOf(ls, n, t) < if Submits(ls, n, t) then 6 else 8
    ensures ss[n].threads[t].At? ==>
              MovesOf(ls, n, t) + Left(ss[n].threads[t].point) <= if Submits(ls, n, t) then 6 else 8
  {
    hide DoAdvance, CanAdvance, Left;
    if n > 0 {
      var s, l := ss[n - 1], ls[n - 1];
      CallsEnd(ss, ls, n - 1, t);
      if l.Advance? {
        if l.thread == t { OneLeftLess(s, t); } else { AdvanceElsewhere(s, l.thread, t); }
      }
      assert Left(SubmitEnter) == 6 && Left(Running) == 8 by { Starts(); }
    }
    if ss[n].threads[t].At? { SomeLeft(ss[n].threads[t].point); }
  }

  lemma Starts()
    ensures Left(SubmitEnter) == 6 && Left(Running) == 8
  {
  }

  lemma SomeLeft(p: Point)
    ensures Left(p) >= 1
  {
  }
}
