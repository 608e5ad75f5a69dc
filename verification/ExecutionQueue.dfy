/** The lock that lets one coroutine at a time use a PostgreSQL connection, handed on in arrival order. */
module ExecutionQueues {
  import opened Prelude

  /** A coroutine that asks for the connection; it owns the lease object it asked for. */
  type Client = nat

  /** `queue` is the connection's lock proper. */
  datatype Lock = Lock(inProgress: bool, waiters: seq<Client>)

  const UNLOCKED := Lock(false, [])

  /** The first stretch of acquireExecutionQueue: granted at once, or queued behind the others. */
  function Ask(lock: Lock, c: Client): (Lock, bool) {
    if !lock.inProgress then (Lock(true, lock.waiters), true)
    else (Lock(true, lock.waiters + [c]), false)
  }

  /** releaseExecutionQueue: unlock, or wake the oldest waiter and stay locked. */
  function Release(lock: Lock): (Lock, Option<Client>) {
    if lock.waiters == [] then (Lock(false, []), None)
    else (Lock(lock.inProgress, lock.waiters[1..]), Some(lock.waiters[0]))
  }

  class ExecutionQueue {
    var executionInProgress: bool
    var executionWaiters: seq<Client>

    function Abstract(): Lock
      reads this
    {
      Lock(executionInProgress, executionWaiters)
    }

    constructor ()
      ensures Abstract() == UNLOCKED
    {
      executionInProgress, executionWaiters := false, [];
    }

    method AcquireExecutionQueue(c: Client) returns (granted: bool)
      modifies this
      ensures (Abstract(), granted) == Ask(old(Abstract()), c)
    {
      if !executionInProgress {
        executionInProgress := true;
        return true;
      }
      executionWaiters := executionWaiters + [c];
      return false;
    }

    method ReleaseExecutionQueue() returns (next: Option<Client>)
      modifies this
      ensures (Abstract(), next) == Release(old(Abstract()))
    {
      if executionWaiters == [] {
        executionInProgress := false;
        return None;
      }
      next := Some(executionWaiters[0]);
      executionWaiters := executionWaiters[1..];
    }
  }

  /** The RAII lease: `owner` is null once the lease is moved from or destroyed. */
  class ExecutionQueueLease {
    var owner: ExecutionQueue?

    constructor (owner: ExecutionQueue?)
      ensures this.owner == owner
    {
      this.owner := owner;
    }

    constructor Move(other: ExecutionQueueLease)
      modifies other
      ensures owner == old(other.owner) && other.owner == null
    {
      owner := other.owner;
      new;
      other.owner := null;
    }

    /** The destructor. */
    method Destroy() returns (woken: Option<Client>)
      modifies this, owner
      ensures owner == null
      ensures old(owner) == null ==> woken == None
      ensures old(owner) != null ==> (old(owner).Abstract(), woken) == Release(old(owner.Abstract()))
    {
      woken := None;
      if owner != null {
        woken := owner.ReleaseExecutionQueue();
      }
      owner := null;
    }

    /** Assigning onto a lease that holds a lock releases that lock first; self-assignment changes nothing. */
    method MoveAssign(other: ExecutionQueueLease) returns (woken: Option<Client>)
      modifies this, other, owner
      ensures this == other ==>
                owner == old(owner) && woken == None && (owner != null ==> owner.Abstract() == old(owner.Abstract()))
      ensures this != other ==> owner == old(other.owner) && other.owner == null
      ensures this != other && old(owner) == null ==> woken == None
      ensures this != other && old(owner) != null ==> (old(owner).Abstract(), woken) == Release(old(owner.Abstract()))
    {
      woken := None;
      if this != other {
        if owner != null {
          woken := owner.ReleaseExecutionQueue();
        }
        owner := other.owner;
        other.owner := null;
      }
    }
  }

  // ----- Every interleaving of the clients of one connection -----

  /** A lease object; it starts with the client that asked and keeps its number through moves. */
  type LeaseId = nat

  /**
   * `leases` tells which live lease objects hold the lock. `handedOn` lists the clients woken by a release whose
   * coroutine has not run yet. `arrivals` and `grants` are the logs of requests and of lock hand-outs.
   */
  datatype World = World(lock: Lock, leases: map<LeaseId, bool>, handedOn: seq<Client>, arrivals: seq<Client>,
                         grants: seq<Client>)

  const NEW_WORLD := World(UNLOCKED, map[], [], [], [])

  datatype Event =
    | Request(c: Client)
    | Resume(c: Client, lease: LeaseId)      // the woken coroutine gets its lease object
    | EmptyLease(lease: LeaseId)             // a default-constructed lease
    | MoveConstruct(from: LeaseId, to: LeaseId)
    | MoveAssign(from: LeaseId, to: LeaseId)
    | Drop(lease: LeaseId)                   // the lease goes out of scope

  function ReleaseBy(w: World): World {
    var (lock, next) := Release(w.lock);
    match next
    case None => w.(lock := lock)
    case Some(c) => w.(lock := lock, handedOn := w.handedOn + [c], grants := w.grants + [c])
  }

  /** What happens at an event; None when the event cannot happen. */
  function Next(w: World, ev: Event): Option<World> {
    match ev
    case Request(c) =>
      if c in w.leases then None
      else
        var (lock, granted) := Ask(w.lock, c);
        var w' := w.(lock := lock, arrivals := w.arrivals + [c]);
        Some(if granted then w'.(grants := w.grants + [c], leases := w.leases[c := true]) else w')
    case Resume(c, l) =>
      if w.handedOn == [] || w.handedOn[0] != c || l in w.leases then None
      else Some(w.(handedOn := w.handedOn[1..], leases := w.leases[l := true]))
    case EmptyLease(l) =>
      if l in w.leases then None else Some(w.(leases := w.leases[l := false]))
    case MoveConstruct(a, b) =>
      if a !in w.leases || b in w.leases then None
      else Some(w.(leases := w.leases[b := w.leases[a]][a := false]))
    case MoveAssign(a, b) =>
      if a !in w.leases || b !in w.leases then None
      else if a == b then Some(w)
      else
        var w' := if w.leases[b] then ReleaseBy(w) else w;
        Some(w'.(leases := w.leases[b := w.leases[a]][a := false]))
    case Drop(l) =>
      if l !in w.leases then None
      else
        var w' := if w.leases[l] then ReleaseBy(w) else w;
        Some(w'.(leases := w.leases - {l}))
  }

  function Run(w: World, evs: seq<Event>): Option<World>
    decreases |evs|
  {
    if evs == [] then Some(w)
    else
      match Next(w, evs[0])
      case None => None
      case Some(w') => Run(w', evs[1..])
  }

  ghost predicate Holds(w: World, l: LeaseId) {
    l in w.leases && w.leases[l]
  }

  /** One holder or one hand-off in flight while the lock is taken, none of either while it is free. */
  ghost predicate Exclusive(w: World) {
    && (forall l, k :: Holds(w, l) && Holds(w, k) ==> l == k)
    && |w.handedOn| <= 1
    && (w.handedOn != [] ==> forall l :: !Holds(w, l))
    && (w.lock.inProgress <==> w.handedOn != [] || exists l :: Holds(w, l))
    && (!w.lock.inProgress ==> w.lock.waiters == [])
  }

  /** Grants follow arrivals; who is still waiting is the rest, in order. */
  ghost predicate FirstComeFirstServed(w: World) {
    w.grants + w.lock.waiters == w.arrivals
  }

  /** The state after the one holder `l` has given the lock up. */
  lemma {:induction false} ReleaseKeeps(w: World, l: LeaseId, leases: map<LeaseId, bool>)
    requires Exclusive(w) && FirstComeFirstServed(w) && Holds(w, l)
    requires forall k :: !Holds(w.(leases := leases), k)
    ensures Exclusive(ReleaseBy(w).(leases := leases)) && FirstComeFirstServed(ReleaseBy(w).(leases := leases))
  {
    var w' := ReleaseBy(w).(leases := leases);
    assert forall k :: Holds(w', k) ==> Holds(w.(leases := leases), k);
    if w.lock.waiters != [] {
      assert w.lock.waiters == [w.lock.waiters[0]] + w.lock.waiters[1..];
      assert w'.grants + w'.lock.waiters == w.grants + w.lock.waiters;
    }
  }

  /** A new lease object takes a lock that no lease holds. */
  lemma {:induction false} SoleHolder(w: World, w': World, l: LeaseId)
    requires w'.leases == w.leases[l := true]
    requires forall k :: !Holds(w, k)
    ensures forall k :: Holds(w', k) <==> k == l
  {
    assert forall k :: k != l ==> (Holds(w', k) <==> Holds(w, k));
  }

  lemma {:induction false} MoveKeeps(w: World, w': World, a: LeaseId, b: LeaseId)
    requires Exclusive(w) && FirstComeFirstServed(w) && !Holds(w, b) && a in w.leases && a != b
    requires w' == w.(leases := w.leases[b := w.leases[a]][a := false])
    ensures Exclusive(w') && FirstComeFirstServed(w')
  {
    assert forall k :: Holds(w', k) ==> Holds(w, if k == b then a else k);
    assert forall k :: Holds(w, k) ==> Holds(w', if k == a then b else k);
  }

  lemma {:induction false} RequestKeeps(w: World, c: Client)
    requires Exclusive(w) && FirstComeFirstServed(w) && c !in w.leases
    ensures Exclusive(Next(w, Request(c)).value) && FirstComeFirstServed(Next(w, Request(c)).value)
  {
    var w' := Next(w, Request(c)).value;
    if !w.lock.inProgress {
      SoleHolder(w, w', c);
      assert Holds(w', c);
    } else {
      assert forall l :: Holds(w', l) <==> Holds(w, l);
      assert w'.arrivals == w.grants + (w.lock.waiters + [c]);
    }
  }

  lemma {:induction false} NextKeeps(w: World, ev: Event)
    requires Exclusive(w) && FirstComeFirstServed(w) && Next(w, ev).Some?
    ensures Exclusive(Next(w, ev).value) && FirstComeFirstServed(Next(w, ev).value)
  {
    var w' := Next(w, ev).value;
    match ev
    case Request(c) => RequestKeeps(w, c);
    case Resume(c, l) =>
      SoleHolder(w, w', l);
      assert Holds(w', l);
    case EmptyLease(l) =>
      assert forall k :: Holds(w', k) <==> Holds(w, k);
    case MoveConstruct(a, b) =>
      MoveKeeps(w, w', a, b);
    case MoveAssign(a, b) =>
      if a != b {
        if w.leases[b] {
          assert Holds(w, b);
          assert forall k :: k != b ==> !Holds(w, k);
          assert !Holds(w, a);
          assert forall k :: Holds(w.(leases := w'.leases), k) ==> k != b && Holds(w, k);
          ReleaseKeeps(w, b, w'.leases);
        } else {
          MoveKeeps(w, w', a, b);
        }
      }
    case Drop(l) =>
      if w.leases[l] {
        assert Holds(w, l);
        assert forall k :: k != l ==> !Holds(w, k);
        assert forall k :: Holds(w.(leases := w'.leases), k) ==> k != l && Holds(w, k);
        ReleaseKeeps(w, l, w'.leases);
      } else {
        assert forall k :: Holds(w', k) <==> Holds(w, k);
      }
  }

  lemma {:induction false} RunKeeps(w: World, evs: seq<Event>)
    requires Exclusive(w) && FirstComeFirstServed(w) && Run(w, evs).Some?
    ensures Exclusive(Run(w, evs).value) && FirstComeFirstServed(Run(w, evs).value)
    decreases |evs|
  {
    if evs != [] {
      NextKeeps(w, evs[0]);
      RunKeeps(Next(w, evs[0]).value, evs[1..]);
    }
  }

  // ----- Main results -----

  /**
   * However leases are moved, assigned and dropped, at most one of them holds the lock, none while a hand-off is in
   * flight; and the lock is never lost: while it is taken there is a holder or a hand-off.
   */
  lemma {:induction false} MutualExclusion(evs: seq<Event>, l: LeaseId, k: LeaseId)
    requires Run(NEW_WORLD, evs).Some?
    ensures var w := Run(NEW_WORLD, evs).value;
            && (Holds(w, l) && Holds(w, k) ==> l == k)
            && (Holds(w, l) ==> w.handedOn == [] && w.lock.inProgress)
            && |w.handedOn| <= 1
            && (w.lock.inProgress <==> w.handedOn != [] || exists m :: Holds(w, m))
            && (!w.lock.inProgress ==> w.lock.waiters == [])
  {
    RunKeeps(NEW_WORLD, evs);
  }

  /** The lock is handed out in the order it was asked for; a newcomer never overtakes a waiter. */
  lemma {:induction false} GrantsInArrivalOrder(evs: seq<Event>)
    requires Run(NEW_WORLD, evs).Some?
    ensures var w := Run(NEW_WORLD, evs).value;
            w.grants + w.lock.waiters == w.arrivals
  {
    RunKeeps(NEW_WORLD, evs);
  }

  /** An event that gives the lock up: dropping, or assigning over, the lease that holds it. */
  predicate IsRelease(w: World, ev: Event) {
    match ev
    case Drop(l) => l in w.leases && w.leases[l]
    case MoveAssign(a, b) => a in w.leases && b in w.leases && a != b && w.leases[b]
    case _ => false
  }

  function Releases(w: World, evs: seq<Event>): nat
    decreases |evs|
  {
    if evs == [] || Next(w, evs[0]).None? then 0
    else (if IsRelease(w, evs[0]) then 1 else 0) + Releases(Next(w, evs[0]).value, evs[1..])
  }

  lemma {:induction false} OneEventAtPosition(w: World, ev: Event, k: nat)
    requires Exclusive(w) && k < |w.lock.waiters| && Next(w, ev).Some?
    ensures var w' := Next(w, ev).value;
            if IsRelease(w, ev)
            then w'.grants == w.grants + [w.lock.waiters[0]] && w'.lock.waiters == w.lock.waiters[1..]
            else w'.grants == w.grants && w.lock.waiters <= w'.lock.waiters
  {
  }

  /**
   * The waiter at position k is still waiting, at position k - n, after n <= k releases, and has been granted the
   * lock, as the (k+1)-th grant from here, once there were more.
   */
  lemma {:induction false} WaiterGrantedAtItsTurn(w: World, evs: seq<Event>, k: nat)
    requires Exclusive(w) && FirstComeFirstServed(w) && k < |w.lock.waiters| && Run(w, evs).Some?
    ensures var w' := Run(w, evs).value;
            var n := Releases(w, evs);
            && (n <= k ==>
                 && k - n < |w'.lock.waiters| && w'.lock.waiters[k - n] == w.lock.waiters[k]
                 && |w'.grants| == |w.grants| + n)
            && (n > k ==> |w.grants| + k < |w'.grants| && w'.grants[|w.grants| + k] == w.lock.waiters[k])
    decreases |evs|
  {
    if evs != [] {
      var w1 := Next(w, evs[0]).value;
      NextKeeps(w, evs[0]);
      OneEventAtPosition(w, evs[0], k);
      if IsRelease(w, evs[0]) && k == 0 {
        GrantsOnlyGrow(w1, evs[1..]);
      } else if IsRelease(w, evs[0]) {
        assert w1.lock.waiters[k - 1] == w.lock.waiters[k];
        WaiterGrantedAtItsTurn(w1, evs[1..], k - 1);
      } else {
        WaiterGrantedAtItsTurn(w1, evs[1..], k);
      }
    }
  }

  lemma {:induction false} GrantsOnlyGrow(w: World, evs: seq<Event>)
    requires Run(w, evs).Some?
    ensures w.grants <= Run(w, evs).value.grants
    decreases |evs|
  {
    if evs != [] {
      GrantsOnlyGrow(Next(w, evs[0]).value, evs[1..]);
    }
  }

  // ----- What each step does -----

  /** A request takes a free lock and otherwise waits last. */
  lemma {:induction false} RequestDecides(w: World, c: Client)
    ensures Next(w, Request(c)).Some? <==> c !in w.leases
    ensures c !in w.leases ==>
              var w' := Next(w, Request(c)).value;
              && w'.arrivals == w.arrivals + [c] && w'.handedOn == w.handedOn && w'.lock.inProgress
              && (!w.lock.inProgress ==>
                    && w'.leases == w.leases[c := true] && w'.lock.waiters == w.lock.waiters
                    && w'.grants == w.grants + [c])
              && (w.lock.inProgress ==>
                    && w'.leases == w.leases && w'.lock.waiters == w.lock.waiters + [c] && w'.grants == w.grants)
  {
  }

  /** The lock was given up: handed to the first waiter, or free without one. */
  predicate GivenUp(w: World, w': World) {
    && w'.arrivals == w.arrivals
    && (w.lock.waiters == [] ==>
          !w'.lock.inProgress && w'.lock.waiters == [] && w'.handedOn == w.handedOn && w'.grants == w.grants)
    && (w.lock.waiters != [] ==>
          && w'.lock.inProgress == w.lock.inProgress && w'.lock.waiters == w.lock.waiters[1..]
          && w'.handedOn == w.handedOn + [w.lock.waiters[0]] && w'.grants == w.grants + [w.lock.waiters[0]])
  }

  /** A lease that ends gives the lock up exactly when it holds it. */
  lemma {:induction false} DropGivesUp(w: World, l: LeaseId)
    ensures Next(w, Drop(l)).Some? <==> l in w.leases
    ensures l in w.leases ==>
              var w' := Next(w, Drop(l)).value;
              && w'.leases == w.leases - {l}
              && (if w.leases[l] then GivenUp(w, w') else w' == w.(leases := w.leases - {l}))
  {
  }

  /** A default-constructed lease holds nothing. */
  lemma {:induction false} EmptyLeaseHoldsNothing(w: World, l: LeaseId)
    ensures Next(w, EmptyLease(l)).Some? <==> l !in w.leases
    ensures l !in w.leases ==>
              var w' := Next(w, EmptyLease(l)).value;
              !Holds(w', l) && w' == w.(leases := w.leases[l := false])
  {
  }

  /**
   * A move takes the lock along; assigning to a lease that holds the lock gives that up first; to itself it does
   * nothing.
   */
  lemma {:induction false} MovesTakeAlong(w: World, a: LeaseId, b: LeaseId)
    ensures Next(w, MoveConstruct(a, b)).Some? <==> a in w.leases && b !in w.leases
    ensures Next(w, MoveAssign(a, b)).Some? <==> a in w.leases && b in w.leases
    ensures a in w.leases && b !in w.leases ==>
              Next(w, MoveConstruct(a, b)).value == w.(leases := w.leases[b := w.leases[a]][a := false])
    ensures a in w.leases && a == b ==> Next(w, MoveAssign(a, b)).value == w
    ensures a in w.leases && b in w.leases && a != b ==>
              var w' := Next(w, MoveAssign(a, b)).value;
              && w'.leases == w.leases[b := w.leases[a]][a := false]
              && (if w.leases[b] then GivenUp(w, w') else w' == w.(leases := w'.leases))
  {
  }

  /** The client that was handed the lock can always take it up, with a lease of its own, and then holds it. */
  lemma {:induction false} HandOffArrives(evs: seq<Event>, l: LeaseId)
    requires Run(NEW_WORLD, evs).Some? && Run(NEW_WORLD, evs).value.handedOn != []
             && l !in Run(NEW_WORLD, evs).value.leases
    ensures var w := Run(NEW_WORLD, evs).value;
            var next := Next(w, Resume(w.handedOn[0], l));
            && next.Some? && next.value.handedOn == [] && next.value.leases == w.leases[l := true]
            && next.value.lock == w.lock && Holds(next.value, l)
  {
    MutualExclusion(evs, l, l);
  }

  /** So when the holder ends its lease, the first waiter can hold the lock two steps later. */
  lemma {:induction false} FirstWaiterServed(evs: seq<Event>, holder: LeaseId, l: LeaseId)
    requires Run(NEW_WORLD, evs).Some?
    requires var w := Run(NEW_WORLD, evs).value;
             Holds(w, holder) && w.lock.waiters != [] && l !in w.leases
    ensures var w := Run(NEW_WORLD, evs).value;
            var end := Run(w, [Drop(holder), Resume(w.lock.waiters[0], l)]);
            end.Some? && Holds(end.value, l) && end.value.lock.waiters == w.lock.waiters[1..]
  {
    var w := Run(NEW_WORLD, evs).value;
    MutualExclusion(evs, holder, holder);
    DropGivesUp(w, holder);
    var two := [Drop(holder), Resume(w.lock.waiters[0], l)];
    var w1 := Next(w, two[0]).value;
    assert w1.handedOn == [w.lock.waiters[0]];
    assert two[1..] == [two[1]] && two[1..][1..] == [];
    assert Run(w1, two[1..]) == Next(w1, two[1]);
  }

  /** A run goes on with any step that can happen. */
  lemma {:induction false} RunGoesOn(w: World, evs: seq<Event>, ev: Event)
    requires Run(w, evs).Some?
    ensures Run(w, evs + [ev]) == Next(Run(w, evs).value, ev)
    decreases |evs|
  {
    if evs == [] {
      assert evs + [ev] == [ev] && [ev][1..] == [];
      assert Next(w, ev).Some? ==> Run(Next(w, ev).value, []) == Next(w, ev);
    } else {
      assert (evs + [ev])[1..] == evs[1..] + [ev];
      RunGoesOn(Next(w, evs[0]).value, evs[1..], ev);
    }
  }

  /** For instance: one client takes the lock, another waits, the first leaves, and the other holds it. */
  lemma {:induction false} HandOffHappens(a: Client, b: Client)
    requires a != b
    ensures var end := Run(NEW_WORLD, [] + [Request(a)] + [Request(b)] + [Drop(a)] + [Resume(b, b)]);
            end.Some? && Holds(end.value, b) && !Holds(end.value, a) && end.value.lock.waiters == []
  {
    var w1 := Next(NEW_WORLD, Request(a)).value;
    var w2 := Next(w1, Request(b)).value;
    var w3 := Next(w2, Drop(a)).value;
    assert w2.lock.waiters == [b] && w3.handedOn == [b];
    RunGoesOn(NEW_WORLD, [], Request(a));
    RunGoesOn(NEW_WORLD, [] + [Request(a)], Request(b));
    RunGoesOn(NEW_WORLD, [] + [Request(a)] + [Request(b)], Drop(a));
    RunGoesOn(NEW_WORLD, [] + [Request(a)] + [Request(b)] + [Drop(a)], Resume(b, b));
  }
}
