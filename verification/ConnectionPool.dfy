/** The pool's slots: who may use which connection, over every interleaving of acquirers. */
module ConnectionPools {
  import opened Prelude

  datatype Error = InvalidSlot(index: nat)

  function FirstFree(inUse: seq<bool>): (r: Option<nat>)
    ensures r.Some? ==> r.value < |inUse| && !inUse[r.value] && forall k :: 0 <= k < r.value ==> inUse[k]
    ensures r.None? ==> forall k :: 0 <= k < |inUse| ==> inUse[k]
  {
    FirstIndex(inUse, (u: bool) => !u)
  }

  class ConnectionPool {
    var slots: seq<bool>

    constructor ()
      ensures slots == []
    {
      slots := [];
    }

    /** Takes the first free slot, if there is one. */
    method TryAcquireExistingSlot() returns (r: Option<nat>)
      modifies this
      ensures r == FirstFree(old(slots))
      ensures slots == if r.Some? then old(slots)[r.value := true] else old(slots)
    {
      var index := 0;
      while index < |slots|
        invariant 0 <= index <= |slots| && slots == old(slots)
        invariant forall k :: 0 <= k < index ==> slots[k]
      {
        if !slots[index] {
          assert FirstFree(slots) == Some(index);
          slots := slots[index := true];
          return Some(index);
        }
        index := index + 1;
      }
      return None;
    }

    method ReleaseSlot(index: nat) returns (r: Result<(), Error>)
      modifies this
      ensures index < |old(slots)| ==> r == Ok(()) && slots == old(slots)[index := false]
      ensures index >= |old(slots)| ==> r == Err(InvalidSlot(index)) && slots == old(slots)
    {
      if index >= |slots| {
        return Err(InvalidSlot(index));
      }
      slots := slots[index := false];
      return Ok(());
    }

    /** The last stretch of createSlot and the claim that follows it in acquire, with no suspension in between. */
    method PublishAndClaim() returns (index: nat)
      modifies this
      ensures index == |old(slots)| && slots == old(slots) + [true]
    {
      index := |slots|;
      slots := slots + [false];
      slots := slots[index := true];
    }
  }

  /** The lease on a slot: the pool reference is null once it is moved from or destroyed. */
  class PooledConnection {
    var pool: ConnectionPool?
    var slotIndex: nat

    /** Every lease comes from a slot of its pool. */
    ghost predicate Valid()
      reads this, pool
    {
      pool != null ==> slotIndex < |pool.slots|
    }

    constructor (pool: ConnectionPool, slotIndex: nat)
      requires slotIndex < |pool.slots|
      ensures Valid() && this.pool == pool && this.slotIndex == slotIndex
    {
      this.pool, this.slotIndex := pool, slotIndex;
    }

    constructor Move(other: PooledConnection)
      requires other.Valid()
      modifies other
      ensures Valid() && pool == old(other.pool) && slotIndex == old(other.slotIndex)
      ensures other.pool == null && other.slotIndex == old(other.slotIndex)
    {
      pool, slotIndex := other.pool, other.slotIndex;
      new;
      other.pool := null;
    }

    /** The destructor. */
    method Destroy()
      requires Valid()
      modifies this, pool
      ensures pool == null
      ensures old(pool) != null ==> old(pool).slots == old(pool.slots)[old(slotIndex) := false]
    {
      if pool != null {
        var _ := pool.ReleaseSlot(slotIndex);
      }
      pool := null;
    }

    /** Gives up the lease held so far and takes over the other's; self-assignment changes nothing. */
    method MoveAssign(other: PooledConnection)
      requires Valid() && other.Valid()
      modifies this, other, pool
      ensures this == other ==>
                pool == old(pool) && slotIndex == old(slotIndex) && (pool != null ==> pool.slots == old(pool.slots))
      ensures this != other ==> pool == old(other.pool) && slotIndex == old(other.slotIndex) && other.pool == null
      ensures this != other && old(pool) != null ==> old(pool).slots == old(pool.slots)[old(slotIndex) := false]
    {
      if this != other {
        if pool != null {
          var _ := pool.ReleaseSlot(slotIndex);
        }
        pool := other.pool;
        slotIndex := other.slotIndex;
        other.pool := null;
      }
    }
  }

  // ----- Every interleaving of acquirers -----

  type Task = nat

  /** Where an acquirer is suspended, or what it holds. */
  datatype Phase =
    | Initializing(created: nat)  // in initialize(), so many slots created by this task
    | Creating                    // in createSlot(), pool_max already checked
    | Waiting                     // polling in waitForAvailableSlot()
    | Syncing(slot: nat)          // slot taken, in syncStatements()
    | Leased(slot: nat)           // returned as a PooledConnection
    | Failed(slot: nat)           // syncStatements threw; nobody will release the slot

  datatype Config = Config(poolMin: nat, poolMax: nat)

  datatype World = World(initialized: bool, slots: seq<bool>, tasks: map<Task, Phase>)

  datatype Event =
    | Begin(t: Task)
    | InitCreated(t: Task)
    | Created(t: Task)
    | CreateFails(t: Task)
    | Poll(t: Task)
    | Synced(t: Task)
    | SyncFails(t: Task)
    | Release(t: Task)

  const NEW_WORLD := World(false, [], map[])

  /** The stretch of acquire() up to its first suspension, for an initialized pool. */
  function Decide(cfg: Config, w: World, t: Task): World {
    match FirstFree(w.slots)
    case Some(i) => w.(slots := w.slots[i := true], tasks := w.tasks[t := Syncing(i)])
    case None => w.(tasks := w.tasks[t := if |w.slots| < cfg.poolMax then Creating else Waiting])
  }

  /** The initialization loop, when `created` slots of this task are done. */
  function InitLoop(cfg: Config, w: World, t: Task, created: nat): World {
    if created < cfg.poolMin then w.(tasks := w.tasks[t := Initializing(created)])
    else Decide(cfg, w.(initialized := true), t)
  }

  /** What happens at an event; None when the event cannot happen. */
  function Next(cfg: Config, w: World, ev: Event): Option<World> {
    match ev
    case Begin(t) =>
      if t in w.tasks then None
      else if w.initialized then Some(Decide(cfg, w, t)) else Some(InitLoop(cfg, w, t, 0))
    case InitCreated(t) =>
      if t !in w.tasks || !w.tasks[t].Initializing? then None
      else Some(InitLoop(cfg, w.(slots := w.slots + [false]), t, w.tasks[t].created + 1))
    case Created(t) =>
      if t !in w.tasks || !w.tasks[t].Creating? then None
      else Some(w.(slots := w.slots + [true], tasks := w.tasks[t := Syncing(|w.slots|)]))
    case CreateFails(t) =>
      if t !in w.tasks || !(w.tasks[t].Creating? || w.tasks[t].Initializing?) then None
      else Some(w.(tasks := w.tasks - {t}))
    case Poll(t) =>
      if t !in w.tasks || !w.tasks[t].Waiting? then None
      else
        (match FirstFree(w.slots)
         case Some(i) => Some(w.(slots := w.slots[i := true], tasks := w.tasks[t := Syncing(i)]))
         case None => Some(w))
    case Synced(t) =>
      if t !in w.tasks || !w.tasks[t].Syncing? then None
      else Some(w.(tasks := w.tasks[t := Leased(w.tasks[t].slot)]))
    case SyncFails(t) =>
      if t !in w.tasks || !w.tasks[t].Syncing? then None
      else Some(w.(tasks := w.tasks[t := Failed(w.tasks[t].slot)]))
    case Release(t) =>
      if t !in w.tasks || !w.tasks[t].Leased? || w.tasks[t].slot >= |w.slots| then None
      else Some(w.(slots := w.slots[w.tasks[t].slot := false], tasks := w.tasks - {t}))
  }

  function Run(cfg: Config, w: World, evs: seq<Event>): Option<World>
    decreases |evs|
  {
    if evs == [] then Some(w)
    else
      match Next(cfg, w, evs[0])
      case None => None
      case Some(w') => Run(cfg, w', evs[1..])
  }

  // ----- One holder per slot -----

  /** Task `t` is using slot `i`, setting it up, or has leaked it. */
  ghost predicate Holds(w: World, t: Task, i: nat) {
    t in w.tasks && (w.tasks[t] == Syncing(i) || w.tasks[t] == Leased(i) || w.tasks[t] == Failed(i))
  }

  /** The in_use flags are exactly the slots held, and no slot is held twice. */
  ghost predicate OneHolder(w: World) {
    && (forall t: Task, i: nat :: Holds(w, t, i) ==> i < |w.slots| && w.slots[i])
    && (forall i :: 0 <= i < |w.slots| && w.slots[i] ==> exists t :: Holds(w, t, i))
    && (forall t, u, i :: Holds(w, t, i) && Holds(w, u, i) ==> t == u)
  }

  /** Task `t`, which held nothing, takes slot `i`, which nobody held. */
  lemma {:induction false} TakeSlot(w: World, w': World, t: Task, i: nat)
    requires OneHolder(w) && (forall k :: !Holds(w, t, k)) && (forall u :: !Holds(w, u, i))
    requires w'.tasks == w.tasks[t := Syncing(i)]
    requires i < |w'.slots| && w'.slots[i] && |w.slots| <= |w'.slots|
    requires forall k :: 0 <= k < |w'.slots| && k != i ==> k < |w.slots| && w'.slots[k] == w.slots[k]
    ensures OneHolder(w')
  {
    assert Holds(w', t, i);
    assert forall u, k :: u != t ==> (Holds(w', u, k) <==> Holds(w, u, k));
    assert forall k :: Holds(w', t, k) ==> k == i;
    forall k | 0 <= k < |w'.slots| && w'.slots[k]
      ensures exists u :: Holds(w', u, k)
    {
      if k != i {
        var u :| Holds(w, u, k);
        assert Holds(w', u, k);
      }
    }
  }

  /** Task `t`, which held nothing, stops or goes on without a slot. */
  lemma {:induction false} NoSlot(w: World, w': World, t: Task)
    requires OneHolder(w) && (forall k :: !Holds(w, t, k))
    requires forall u :: u != t ==> (u in w'.tasks <==> u in w.tasks) && (u in w.tasks ==> w'.tasks[u] == w.tasks[u])
    requires forall k :: !Holds(w', t, k)
    requires |w.slots| <= |w'.slots|
    requires forall k :: 0 <= k < |w'.slots| ==> if k < |w.slots| then w'.slots[k] == w.slots[k] else !w'.slots[k]
    ensures OneHolder(w')
  {
    assert forall u, k :: Holds(w', u, k) <==> Holds(w, u, k);
    forall k | 0 <= k < |w'.slots| && w'.slots[k]
      ensures exists u :: Holds(w', u, k)
    {
      var u :| Holds(w, u, k);
      assert Holds(w', u, k);
    }
  }

  lemma {:induction false} DecideHolder(cfg: Config, w: World, t: Task)
    requires OneHolder(w) && forall k :: !Holds(w, t, k)
    ensures OneHolder(Decide(cfg, w, t))
  {
    var w' := Decide(cfg, w, t);
    match FirstFree(w.slots)
    case Some(i) => TakeSlot(w, w', t, i);
    case None => NoSlot(w, w', t);
  }

  lemma {:induction false} InitLoopHolder(cfg: Config, w: World, t: Task, created: nat)
    requires OneHolder(w) && forall k :: !Holds(w, t, k)
    ensures OneHolder(InitLoop(cfg, w, t, created))
  {
    if created < cfg.poolMin {
      NoSlot(w, InitLoop(cfg, w, t, created), t);
    } else {
      assert forall k :: Holds(w.(initialized := true), t, k) ==> Holds(w, t, k);
      NoSlot(w, w.(initialized := true), t);
      DecideHolder(cfg, w.(initialized := true), t);
    }
  }

  /** A task keeps its slot while its phase changes. */
  lemma {:induction false} SameSlot(w: World, w': World, t: Task, i: nat)
    requires OneHolder(w) && Holds(w, t, i) && w'.slots == w.slots
    requires w'.tasks == w.tasks[t := Leased(i)] || w'.tasks == w.tasks[t := Failed(i)]
    ensures OneHolder(w')
  {
    assert forall u, k :: Holds(w', u, k) <==> Holds(w, u, k);
  }

  lemma {:induction false} ReleaseHolder(w: World, w': World, t: Task, i: nat)
    requires OneHolder(w) && Holds(w, t, i) && i < |w.slots|
    requires w'.slots == w.slots[i := false] && w'.tasks == w.tasks - {t}
    ensures OneHolder(w')
  {
    assert forall u, k :: Holds(w', u, k) <==> Holds(w, u, k) && u != t;
    assert forall u, k :: Holds(w', u, k) ==> k != i;
    forall k | 0 <= k < |w'.slots| && w'.slots[k]
      ensures exists u :: Holds(w', u, k)
    {
      var u :| Holds(w, u, k);
      assert Holds(w', u, k);
    }
  }

  lemma {:induction false} NextHolder(cfg: Config, w: World, ev: Event)
    requires OneHolder(w) && Next(cfg, w, ev).Some?
    ensures OneHolder(Next(cfg, w, ev).value)
  {
    hide OneHolder;
    var w' := Next(cfg, w, ev).value;
    match ev
    case Begin(t) =>
      if w.initialized {
        DecideHolder(cfg, w, t);
      } else {
        InitLoopHolder(cfg, w, t, 0);
      }
    case InitCreated(t) =>
      var grown := w.(slots := w.slots + [false]);
      assert forall k :: !Holds(w, t, k);
      NoSlot(w, grown, t);
      InitLoopHolder(cfg, grown, t, w.tasks[t].created + 1);
    case Created(t) => CreatedHolder(w, w', t);
    case CreateFails(t) => NoSlot(w, w', t);
    case Poll(t) =>
      if FirstFree(w.slots).Some? {
        PollHolder(w, w', t);
      }
    case Synced(t) => SameSlot(w, w', t, w.tasks[t].slot);
    case SyncFails(t) => SameSlot(w, w', t, w.tasks[t].slot);
    case Release(t) => ReleaseHolder(w, w', t, w.tasks[t].slot);
  }

  lemma {:induction false} CreatedHolder(w: World, w': World, t: Task)
    requires OneHolder(w) && t in w.tasks && w.tasks[t].Creating?
    requires w' == w.(slots := w.slots + [true], tasks := w.tasks[t := Syncing(|w.slots|)])
    ensures OneHolder(w')
  {
    assert forall u :: !Holds(w, u, |w.slots|);
    TakeSlot(w, w', t, |w.slots|);
  }

  lemma {:induction false} PollHolder(w: World, w': World, t: Task)
    requires OneHolder(w) && t in w.tasks && w.tasks[t].Waiting? && FirstFree(w.slots).Some?
    requires var i := FirstFree(w.slots).value; w' == w.(slots := w.slots[i := true], tasks := w.tasks[t := Syncing(i)])
    ensures OneHolder(w')
  {
    var i := FirstFree(w.slots).value;
    assert forall u :: !Holds(w, u, i);
    TakeSlot(w, w', t, i);
  }

  lemma {:induction false} RunHolder(cfg: Config, w: World, evs: seq<Event>)
    requires OneHolder(w) && Run(cfg, w, evs).Some?
    ensures OneHolder(Run(cfg, w, evs).value)
    decreases |evs|
  {
    hide OneHolder, Next;
    if evs != [] {
      NextHolder(cfg, w, evs[0]);
      RunHolder(cfg, Next(cfg, w, evs[0]).value, evs[1..]);
    }
  }

  /**
   * In every reachable state a slot is in use exactly when some acquirer holds it, is setting it up, or has leaked
   * it, and then there is exactly one such acquirer: no connection is ever leased twice.
   */
  lemma {:induction false} NoSlotLeasedTwice(cfg: Config, evs: seq<Event>)
    requires Run(cfg, NEW_WORLD, evs).Some?
    ensures var w := Run(cfg, NEW_WORLD, evs).value;
            && (forall t, u, i :: Holds(w, t, i) && Holds(w, u, i) ==> t == u)
            && (forall i :: 0 <= i < |w.slots| ==> (w.slots[i] <==> exists t :: Holds(w, t, i)))
  {
    RunHolder(cfg, NEW_WORLD, evs);
  }

  predicate FailureFree(evs: seq<Event>) {
    forall k :: 0 <= k < |evs| ==> !evs[k].SyncFails?
  }

  ghost predicate NoneFailed(w: World) {
    forall t :: t in w.tasks ==> !w.tasks[t].Failed?
  }

  lemma {:induction false} RunNoneFailed(cfg: Config, w: World, evs: seq<Event>)
    requires NoneFailed(w) && FailureFree(evs) && Run(cfg, w, evs).Some?
    ensures NoneFailed(Run(cfg, w, evs).value)
    decreases |evs|
  {
    if evs != [] {
      RunNoneFailed(cfg, Next(cfg, w, evs[0]).value, evs[1..]);
    }
  }

  /** Without sync failures the slots in use are exactly those of live leases and of acquires in progress. */
  lemma {:induction false} InUseMeansLeasedOrInProgress(cfg: Config, evs: seq<Event>, i: nat)
    requires Run(cfg, NEW_WORLD, evs).Some? && FailureFree(evs) && i < |Run(cfg, NEW_WORLD, evs).value.slots|
    ensures var w := Run(cfg, NEW_WORLD, evs).value;
            w.slots[i] <==> exists t :: t in w.tasks && (w.tasks[t] == Leased(i) || w.tasks[t] == Syncing(i))
  {
    NoSlotLeasedTwice(cfg, evs);
    RunNoneFailed(cfg, NEW_WORLD, evs);
    var w := Run(cfg, NEW_WORLD, evs).value;
    if w.slots[i] {
      var t :| Holds(w, t, i);
      assert w.tasks[t] == Leased(i) || w.tasks[t] == Syncing(i);
    }
    if t :| t in w.tasks && (w.tasks[t] == Leased(i) || w.tasks[t] == Syncing(i)) {
      assert Holds(w, t, i);
    }
  }

  // ----- A failed sync leaks its slot for good -----

  ghost predicate Leaked(w: World, t: Task, i: nat) {
    t in w.tasks && w.tasks[t] == Failed(i)
  }

  lemma {:induction false} LeakStep(cfg: Config, w: World, ev: Event, t: Task, i: nat)
    requires Leaked(w, t, i) && Next(cfg, w, ev).Some?
    ensures Leaked(Next(cfg, w, ev).value, t, i)
  {
  }

  lemma {:induction false} LeakRun(cfg: Config, w: World, evs: seq<Event>, t: Task, i: nat)
    requires Leaked(w, t, i) && Run(cfg, w, evs).Some?
    ensures Leaked(Run(cfg, w, evs).value, t, i)
    decreases |evs|
  {
    if evs != [] {
      LeakStep(cfg, w, evs[0], t, i);
      LeakRun(cfg, Next(cfg, w, evs[0]).value, evs[1..], t, i);
    }
  }

  /** After a sync failure the slot stays in use in every later state, and nobody else ever gets it. */
  lemma {:induction false} LeakedForGood(cfg: Config, before: seq<Event>, after: seq<Event>, t: Task, i: nat, u: Task)
    requires Run(cfg, NEW_WORLD, before).Some? && Leaked(Run(cfg, NEW_WORLD, before).value, t, i)
    requires Run(cfg, Run(cfg, NEW_WORLD, before).value, after).Some?
    ensures var w := Run(cfg, Run(cfg, NEW_WORLD, before).value, after).value;
            i < |w.slots| && w.slots[i] && (Holds(w, u, i) ==> u == t)
  {
    var w0 := Run(cfg, NEW_WORLD, before).value;
    RunHolder(cfg, NEW_WORLD, before);
    RunHolder(cfg, w0, after);
    LeakRun(cfg, w0, after, t, i);
    var w := Run(cfg, w0, after).value;
    assert Holds(w, t, i);
  }

  /** A run with a sync failure ends with a leaked slot. */
  lemma {:induction false} SyncFailureLeaks(cfg: Config, w: World, evs: seq<Event>) returns (t: Task, i: nat)
    requires Run(cfg, w, evs).Some? && !FailureFree(evs)
    ensures Leaked(Run(cfg, w, evs).value, t, i)
    decreases |evs|
  {
    var w' := Next(cfg, w, evs[0]).value;
    if evs[0].SyncFails? {
      t, i := evs[0].t, w.tasks[evs[0].t].slot;
      assert Leaked(w', t, i);
      LeakRun(cfg, w', evs[1..], t, i);
    } else {
      assert !FailureFree(evs[1..]) by {
        var k :| 0 <= k < |evs| && evs[k].SyncFails?;
        assert evs[1..][k - 1] == evs[k];
      }
      t, i := SyncFailureLeaks(cfg, w', evs[1..]);
    }
  }

  /** A slot in use is accounted for by a lease or by an acquire in progress. */
  ghost predicate Accounted(w: World, i: nat)
    requires i < |w.slots|
  {
    w.slots[i] <==> exists t :: t in w.tasks && (w.tasks[t] == Leased(i) || w.tasks[t] == Syncing(i))
  }

  /** After any run the slots in use are those of leases and acquires in progress exactly when no sync has failed. */
  lemma {:induction false} NoSlotLeakedIff(cfg: Config, evs: seq<Event>)
    requires Run(cfg, NEW_WORLD, evs).Some?
    ensures var w := Run(cfg, NEW_WORLD, evs).value;
            (forall i: nat :: i < |w.slots| ==> Accounted(w, i)) <==> FailureFree(evs)
  {
    var w := Run(cfg, NEW_WORLD, evs).value;
    if FailureFree(evs) {
      forall i: nat | i < |w.slots| ensures Accounted(w, i) {
        InUseMeansLeasedOrInProgress(cfg, evs, i);
      }
    } else {
      var t, i := SyncFailureLeaks(cfg, NEW_WORLD, evs);
      RunHolder(cfg, NEW_WORLD, evs);
      assert Holds(w, t, i);
      forall u | u in w.tasks && (w.tasks[u] == Leased(i) || w.tasks[u] == Syncing(i)) ensures false {
        assert Holds(w, u, i);
      }
      assert !Accounted(w, i);
    }
  }
}
