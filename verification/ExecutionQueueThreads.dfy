/** The execution queue on an executor with several threads: a waiter is queued before its timer is armed. */
module ExecutionQueueThreads {
  import opened Prelude
  import opened ExecutionQueues

  /**
   * `armed` are the waiters whose timer runs. `woken` is the one a release has cancelled and whose coroutine has not
   * run yet, `stuck` one that a release took from the queue before its timer ran: cancelling had no effect on it.
   */
  datatype Threads =
    Threads(lock: Lock, holder: Option<Client>, armed: set<Client>, woken: Option<Client>, stuck: Option<Client>)

  const IDLE_QUEUE := Threads(UNLOCKED, None, {}, None, None)

  datatype Step =
    | Acquire(c: Client, atOnce: bool)  // with its timer armed in the same stretch or not
    | Arm(c: Client)
    | Wake
    | Leave

  predicate Busy(t: Threads, c: Client) {
    t.holder == Some(c) || c in t.lock.waiters || t.woken == Some(c) || t.stuck == Some(c)
  }

  /** What happens at a step; None when the step cannot happen. */
  function Next(t: Threads, s: Step): Option<Threads> {
    match s
    case Acquire(c, atOnce) =>
      if Busy(t, c) then None
      else
        var (lock, granted) := Ask(t.lock, c);
        if granted then Some(t.(lock := lock, holder := Some(c)))
        else Some(t.(lock := lock, armed := if atOnce then t.armed + {c} else t.armed - {c}))
    case Arm(c) =>
      if c in t.lock.waiters || t.stuck == Some(c) then Some(t.(armed := t.armed + {c})) else None
    case Wake =>
      if t.woken.None? then None else Some(t.(holder := t.woken, woken := None))
    case Leave =>
      if t.holder.None? then None
      else
        var (lock, next) := Release(t.lock);
        match next
        case None => Some(t.(lock := lock, holder := None))
        case Some(d) =>
          if d in t.armed then Some(t.(lock := lock, holder := None, woken := Some(d)))
          else Some(t.(lock := lock, holder := None, stuck := Some(d)))
  }

  function Run(t: Threads, steps: seq<Step>): Option<Threads>
    decreases |steps|
  {
    if steps == [] then Some(t)
    else
      match Next(t, steps[0])
      case None => None
      case Some(t') => Run(t', steps[1..])
  }

  function Count(o: Option<Client>): nat {
    if o.Some? then 1 else 0
  }

  /** A taken lock is with one holder, one hand-off in flight, or one stuck waiter. */
  predicate Sane(t: Threads) {
    && Count(t.holder) + Count(t.woken) + Count(t.stuck) == (if t.lock.inProgress then 1 else 0)
    && (!t.lock.inProgress ==> t.lock.waiters == [])
  }

  lemma {:induction false} StaysSane(t: Threads, s: Step)
    requires Sane(t) && Next(t, s).Some?
    ensures Sane(Next(t, s).value)
    ensures t.stuck.Some? ==> Next(t, s).value.stuck == t.stuck
  {
  }

  /** The release takes a waiter whose timer is not armed yet. */
  predicate TooEarly(t: Threads, s: Step) {
    s.Leave? && t.holder.Some? && t.lock.waiters != [] && t.lock.waiters[0] !in t.armed
  }

  predicate EverTooEarly(t: Threads, steps: seq<Step>)
    decreases |steps|
  {
    steps != [] && Next(t, steps[0]).Some?
    && (TooEarly(t, steps[0]) || EverTooEarly(Next(t, steps[0]).value, steps[1..]))
  }

  lemma {:induction false} StuckStays(t: Threads, steps: seq<Step>)
    requires Sane(t) && t.stuck.Some? && Run(t, steps).Some?
    ensures var t' := Run(t, steps).value;
            Sane(t') && t'.stuck == t.stuck && t'.holder == None && t'.woken == None && t'.lock.inProgress
    decreases |steps|
  {
    if steps != [] {
      StaysSane(t, steps[0]);
      StuckStays(Next(t, steps[0]).value, steps[1..]);
    }
  }

  lemma {:induction false} StuckIff(t: Threads, steps: seq<Step>)
    requires Sane(t) && t.stuck.None? && Run(t, steps).Some?
    ensures Run(t, steps).value.stuck.Some? <==> EverTooEarly(t, steps)
    decreases |steps|
  {
    if steps != [] {
      var t' := Next(t, steps[0]).value;
      StaysSane(t, steps[0]);
      if t'.stuck.Some? {
        StuckStays(t', steps[1..]);
      } else {
        StuckIff(t', steps[1..]);
      }
    }
  }

  /**
   * Over every run of a connection: the lock is taken with nobody holding it and no hand-off in flight, and stays so in
   * every continuation, exactly when some release took a waiter from the queue before its timer was armed.
   */
  lemma {:induction false} LockLostIff(steps: seq<Step>)
    requires Run(IDLE_QUEUE, steps).Some?
    ensures var t := Run(IDLE_QUEUE, steps).value;
            && (t.lock.inProgress && t.holder.None? && t.woken.None? <==> EverTooEarly(IDLE_QUEUE, steps))
            && (EverTooEarly(IDLE_QUEUE, steps) ==>
                  forall more :: Run(t, more).Some? ==>
                      Run(t, more).value.holder.None? && Run(t, more).value.lock.inProgress)
  {
    StuckIff(IDLE_QUEUE, steps);
    RunIsSane(IDLE_QUEUE, steps);
    var t := Run(IDLE_QUEUE, steps).value;
    if t.stuck.Some? {
      forall more | Run(t, more).Some? ensures Run(t, more).value.holder.None? && Run(t, more).value.lock.inProgress {
        StuckStays(t, more);
      }
    }
  }

  lemma {:induction false} RunIsSane(t: Threads, steps: seq<Step>)
    requires Sane(t) && Run(t, steps).Some?
    ensures Sane(Run(t, steps).value)
    decreases |steps|
  {
    if steps != [] {
      StaysSane(t, steps[0]);
      RunIsSane(Next(t, steps[0]).value, steps[1..]);
    }
  }

  /** On one thread every waiter is queued and armed in one stretch. */
  predicate OneThread(steps: seq<Step>) {
    forall k :: 0 <= k < |steps| && steps[k].Acquire? ==> steps[k].atOnce
  }

  /** Then no release is ever too early. */
  lemma {:induction false} OneThreadNeverTooEarly(t: Threads, steps: seq<Step>)
    requires OneThread(steps) && forall c :: c in t.lock.waiters ==> c in t.armed
    ensures !EverTooEarly(t, steps)
    decreases |steps|
  {
    if steps != [] && Next(t, steps[0]).Some? {
      OneThreadNeverTooEarly(Next(t, steps[0]).value, steps[1..]);
    }
  }

  /** With two it happens: queue, release, arm. */
  lemma {:induction false} LockLost(a: Client, b: Client)
    requires a != b
    ensures var steps := [Acquire(a, true), Acquire(b, false), Leave, Arm(b)];
            Run(IDLE_QUEUE, steps).Some? && Run(IDLE_QUEUE, steps).value.stuck == Some(b)
  {
    var steps := [Acquire(a, true), Acquire(b, false), Leave, Arm(b)];
    var t1 := Next(IDLE_QUEUE, steps[0]).value;
    var t2 := Next(t1, steps[1]).value;
    var t3 := Next(t2, steps[2]).value;
    assert t2.lock.waiters == [b] && t3.stuck == Some(b);
    assert steps[1..][1..] == steps[2..] && steps[2..][1..] == steps[3..] && steps[3..][1..] == [];
    assert Run(t3, steps[3..]) == Next(t3, Arm(b));
    assert Run(t2, steps[2..]) == Run(t3, steps[3..]);
    assert Run(t1, steps[1..]) == Run(t2, steps[2..]);
  }

  /** What each step does. */
  lemma {:induction false} StepsDo(t: Threads, c: Client)
    ensures Next(t, Acquire(c, true)).Some? <==>
            t.holder != Some(c) && c !in t.lock.waiters && t.woken != Some(c) && t.stuck != Some(c)
    ensures Next(t, Acquire(c, false)).Some? <==> Next(t, Acquire(c, true)).Some?
    ensures Next(t, Wake).Some? <==> t.woken.Some?
    ensures t.woken.Some? ==> Next(t, Wake).value == t.(holder := t.woken, woken := None)
    ensures Next(t, Leave).Some? <==> t.holder.Some?
    ensures t.holder.Some? && t.lock.waiters == [] ==>
              Next(t, Leave).value == t.(lock := Lock(false, []), holder := None)
    ensures t.holder.Some? && t.lock.waiters != [] ==>
              var d, rest := t.lock.waiters[0], Lock(t.lock.inProgress, t.lock.waiters[1..]);
              Next(t, Leave).value ==
              if d in t.armed then t.(lock := rest, holder := None, woken := Some(d))
              else t.(lock := rest, holder := None, stuck := Some(d))
    ensures Next(t, Arm(c)).Some? <==> c in t.lock.waiters || t.stuck == Some(c)
    ensures Next(t, Arm(c)).Some? ==> Next(t, Arm(c)).value == t.(armed := t.armed + {c})
    ensures !t.lock.inProgress && !Busy(t, c) ==>
              Next(t, Acquire(c, true)) == Some(t.(lock := Lock(true, t.lock.waiters), holder := Some(c)))
    ensures t.lock.inProgress && !Busy(t, c) ==>
              var queued := Lock(true, t.lock.waiters + [c]);
              && Next(t, Acquire(c, true)) == Some(t.(lock := queued, armed := t.armed + {c}))
              && Next(t, Acquire(c, false)) == Some(t.(lock := queued, armed := t.armed - {c}))
  {
  }
}
