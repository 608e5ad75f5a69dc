/** How many slots a connection pool gets: initialization, pool_max, and slots lost to failed syncs. */
module ConnectionPoolSizes {
  import opened Prelude
  import opened ConnectionPools

  function CreatingTasks(w: World): set<Task> {
    set t | t in w.tasks && w.tasks[t].Creating?
  }

  /** Slots, and creates that will add one. */
  function Count(w: World): nat {
    |w.slots| + |CreatingTasks(w)|
  }

  ghost predicate NoneInitializing(w: World) {
    w.initialized && forall t :: t in w.tasks ==> !w.tasks[t].Initializing?
  }

  /** The event makes an acquirer suspend in createSlot(). */
  predicate StartsCreate(cfg: Config, w: World, ev: Event)
    requires Next(cfg, w, ev).Some?
  {
    ev.t !in CreatingTasks(w) && ev.t in CreatingTasks(Next(cfg, w, ev).value)
  }

  /** At most `limit` creates are pending at a time. */
  ghost predicate AtMostPending(cfg: Config, w: World, evs: seq<Event>, limit: nat)
    decreases |evs|
  {
    && |CreatingTasks(w)| <= limit
    && (evs != [] && Next(cfg, w, evs[0]).Some? ==> AtMostPending(cfg, Next(cfg, w, evs[0]).value, evs[1..], limit))
  }

  /** At no point of the run are there more than `bound` slots and pending creates. */
  ghost predicate AlwaysWithin(cfg: Config, w: World, evs: seq<Event>, bound: nat)
    decreases |evs|
  {
    && Count(w) <= bound
    && (evs != [] && Next(cfg, w, evs[0]).Some? ==> AlwaysWithin(cfg, Next(cfg, w, evs[0]).value, evs[1..], bound))
  }

  /** Every create of the run starts while slots and pending creates are fewer than pool_max. */
  ghost predicate AllRoomy(cfg: Config, w: World, evs: seq<Event>)
    decreases |evs|
  {
    evs != [] && Next(cfg, w, evs[0]).Some? ==>
      && (StartsCreate(cfg, w, evs[0]) ==> Count(w) < cfg.poolMax)
      && AllRoomy(cfg, Next(cfg, w, evs[0]).value, evs[1..])
  }

  /** A create starts only at the beginning of an acquire, and ends in a slot or in nothing. */
  lemma {:induction false} CreatingStep(cfg: Config, w: World, ev: Event)
    requires NoneInitializing(w) && Next(cfg, w, ev).Some?
    ensures var c, w' := CreatingTasks(w), Next(cfg, w, ev).value;
            && (ev.Created? || ev.CreateFails? ==> ev.t in c && CreatingTasks(w') == c - {ev.t})
            && (StartsCreate(cfg, w, ev) ==> ev.Begin? && CreatingTasks(w') == c + {ev.t} && |w.slots| < cfg.poolMax)
            && (!ev.Created? && !ev.CreateFails? && !StartsCreate(cfg, w, ev) ==> CreatingTasks(w') == c)
  {
  }

  lemma {:induction false} SlotStep(cfg: Config, w: World, ev: Event)
    requires NoneInitializing(w) && Next(cfg, w, ev).Some?
    ensures NoneInitializing(Next(cfg, w, ev).value)
    ensures |Next(cfg, w, ev).value.slots| == |w.slots| + if ev.Created? then 1 else 0
  {
  }

  lemma {:induction false} CountStep(cfg: Config, w: World, ev: Event)
    requires NoneInitializing(w) && Next(cfg, w, ev).Some?
    ensures NoneInitializing(Next(cfg, w, ev).value)
    ensures Count(Next(cfg, w, ev).value) ==
            Count(w) + (if StartsCreate(cfg, w, ev) then 1 else 0) - (if ev.CreateFails? then 1 else 0)
    ensures StartsCreate(cfg, w, ev) ==> |w.slots| < cfg.poolMax && !ev.CreateFails?
    ensures StartsCreate(cfg, w, ev) ==> |CreatingTasks(Next(cfg, w, ev).value)| == |CreatingTasks(w)| + 1
  {
    CreatingStep(cfg, w, ev);
    SlotStep(cfg, w, ev);
    hide Next, NoneInitializing;
    assert StartsCreate(cfg, w, ev) ==> ev.t !in CreatingTasks(w);
    hide CreatingTasks;
  }

  /**
   * pool_max holds throughout a run exactly when every create starts while slots and pending creates are below it; in a
   * run without create failures that can be read off the final state.
   */
  lemma {:induction false} PoolMaxKeptIff(cfg: Config, w: World, evs: seq<Event>)
    requires NoneInitializing(w) && Run(cfg, w, evs).Some? && Count(w) <= cfg.poolMax
    ensures AlwaysWithin(cfg, w, evs, cfg.poolMax) <==> AllRoomy(cfg, w, evs)
    ensures (forall ev :: ev in evs ==> !ev.CreateFails?) ==>
              (Count(Run(cfg, w, evs).value) <= cfg.poolMax <==> AllRoomy(cfg, w, evs))
    decreases |evs|
  {
    if evs != [] {
      var w' := Next(cfg, w, evs[0]).value;
      CountStep(cfg, w, evs[0]);
      hide Next, StartsCreate, NoneInitializing;
      if Count(w') <= cfg.poolMax {
        PoolMaxKeptIff(cfg, w', evs[1..]);
      } else if forall ev :: ev in evs ==> !ev.CreateFails? {
        CountGrows(cfg, w', evs[1..]);
      }
    }
  }

  lemma {:induction false} CountGrows(cfg: Config, w: World, evs: seq<Event>)
    requires NoneInitializing(w) && Run(cfg, w, evs).Some? && forall ev :: ev in evs ==> !ev.CreateFails?
    ensures Count(w) <= Count(Run(cfg, w, evs).value)
    decreases |evs|
  {
    if evs != [] {
      CountStep(cfg, w, evs[0]);
      CountGrows(cfg, Next(cfg, w, evs[0]).value, evs[1..]);
    }
  }

  /** With at most P pending creates, slots and pending creates never exceed pool_max - 1 + P, nor what there was. */
  lemma {:induction false} SlotBound(cfg: Config, w: World, evs: seq<Event>, limit: nat, bound: nat)
    requires NoneInitializing(w) && Run(cfg, w, evs).Some? && AtMostPending(cfg, w, evs, limit)
    requires bound >= Count(w) && bound >= cfg.poolMax - 1 + limit
    ensures AlwaysWithin(cfg, w, evs, bound)
    decreases |evs|
  {
    if evs != [] {
      var w' := Next(cfg, w, evs[0]).value;
      CountStep(cfg, w, evs[0]);
      assert AtMostPending(cfg, w', evs[1..], limit);
      SlotBound(cfg, w', evs[1..], limit, bound);
    }
  }

  // ----- From the start, with one first user -----

  /** A first user: it finds the pool uninitialized and runs the initialization loop. */
  predicate IsFirstUser(w: World, ev: Event) {
    ev.Begin? && ev.t !in w.tasks && !w.initialized
  }

  function FirstUsers(cfg: Config, w: World, evs: seq<Event>): nat
    decreases |evs|
  {
    if evs == [] || Next(cfg, w, evs[0]).None? then 0
    else (if IsFirstUser(w, evs[0]) then 1 else 0) + FirstUsers(cfg, Next(cfg, w, evs[0]).value, evs[1..])
  }

  /** Not initialized yet, by at most one user. */
  ghost predicate Starting(cfg: Config, w: World, begun: bool) {
    && !w.initialized && |w.slots| <= cfg.poolMin
    && (forall t :: t in w.tasks ==> begun && w.tasks[t] == Initializing(|w.slots|) && |w.slots| < cfg.poolMin)
    && (forall t, u :: t in w.tasks && u in w.tasks ==> t == u)
    && (!begun ==> w.slots == [])
  }

  lemma {:induction false} StartingStep(cfg: Config, w: World, ev: Event, begun: bool)
    requires Starting(cfg, w, begun) && Next(cfg, w, ev).Some? && cfg.poolMin <= cfg.poolMax
    requires begun ==> !IsFirstUser(w, ev)
    ensures var w' := Next(cfg, w, ev).value;
            || (Starting(cfg, w', begun || IsFirstUser(w, ev)) && CreatingTasks(w') == {})
            || (NoneInitializing(w') && Count(w') <= cfg.poolMax)
    ensures StartsCreate(cfg, w, ev) ==> Count(w) < cfg.poolMax
    ensures CreatingTasks(w) == {}
  {
    var w' := Next(cfg, w, ev).value;
    assert CreatingTasks(w) == {};
    assert CreatingTasks(w') <= {ev.t};
    assert CreatingTasks(w') == {} || CreatingTasks(w') == {ev.t};
    if ev.InitCreated? && w'.initialized {
      assert !w'.slots[|w.slots|] || FirstFree(w.slots + [false]).Some?;
    }
  }

  ghost predicate Begun(cfg: Config, w: World, begun: bool) {
    || (Starting(cfg, w, begun) && CreatingTasks(w) == {})
    || NoneInitializing(w)
  }

  lemma {:induction false} InitializedHasNoFirstUsers(cfg: Config, w: World, evs: seq<Event>)
    requires NoneInitializing(w)
    ensures FirstUsers(cfg, w, evs) == 0
    decreases |evs|
  {
    if evs != [] && Next(cfg, w, evs[0]).Some? {
      CountStep(cfg, w, evs[0]);
      InitializedHasNoFirstUsers(cfg, Next(cfg, w, evs[0]).value, evs[1..]);
    }
  }

  lemma {:induction false} BoundOnceBegun(cfg: Config, w: World, evs: seq<Event>, limit: nat, bound: nat, begun: bool)
    requires Begun(cfg, w, begun) && Run(cfg, w, evs).Some? && AtMostPending(cfg, w, evs, limit)
    requires FirstUsers(cfg, w, evs) <= if begun then 0 else 1
    requires cfg.poolMin <= cfg.poolMax <= bound && Count(w) <= bound && cfg.poolMax - 1 + limit <= bound
    ensures AlwaysWithin(cfg, w, evs, bound)
    decreases |evs|
  {
    if NoneInitializing(w) {
      SlotBound(cfg, w, evs, limit, bound);
    } else if evs != [] {
      var w' := Next(cfg, w, evs[0]).value;
      StartingStep(cfg, w, evs[0], begun);
      if NoneInitializing(w') {
        InitializedHasNoFirstUsers(cfg, w', evs[1..]);
      }
      BoundOnceBegun(cfg, w', evs[1..], limit, bound, begun || IsFirstUser(w, evs[0]));
    }
  }

  lemma {:induction false} KeptOnceBegun(cfg: Config, w: World, evs: seq<Event>, begun: bool)
    requires Begun(cfg, w, begun) && Run(cfg, w, evs).Some?
    requires FirstUsers(cfg, w, evs) <= if begun then 0 else 1
    requires cfg.poolMin <= cfg.poolMax && Count(w) <= cfg.poolMax
    ensures AlwaysWithin(cfg, w, evs, cfg.poolMax) <==> AllRoomy(cfg, w, evs)
    decreases |evs|
  {
    if NoneInitializing(w) {
      PoolMaxKeptIff(cfg, w, evs);
    } else if evs != [] {
      var w' := Next(cfg, w, evs[0]).value;
      StartingStep(cfg, w, evs[0], begun);
      if NoneInitializing(w') {
        InitializedHasNoFirstUsers(cfg, w', evs[1..]);
      }
      KeptOnceBegun(cfg, w', evs[1..], begun || IsFirstUser(w, evs[0]));
    }
  }

  /**
   * Over every run of a new pool with one first user: the bound for P pending creates, and exactly when pool_max
   * holds.
   */
  lemma {:induction false} NewPoolBound(cfg: Config, evs: seq<Event>, limit: nat)
    requires Run(cfg, NEW_WORLD, evs).Some? && FirstUsers(cfg, NEW_WORLD, evs) <= 1
    requires 1 <= limit && cfg.poolMin <= cfg.poolMax
    ensures AtMostPending(cfg, NEW_WORLD, evs, limit) ==> AlwaysWithin(cfg, NEW_WORLD, evs, cfg.poolMax - 1 + limit)
    ensures AlwaysWithin(cfg, NEW_WORLD, evs, cfg.poolMax) <==> AllRoomy(cfg, NEW_WORLD, evs)
  {
    assert Starting(cfg, NEW_WORLD, false) && CreatingTasks(NEW_WORLD) == {};
    KeptOnceBegun(cfg, NEW_WORLD, evs, false);
    if AtMostPending(cfg, NEW_WORLD, evs, limit) {
      BoundOnceBegun(cfg, NEW_WORLD, evs, limit, cfg.poolMax - 1 + limit, false);
    }
  }

  // ----- Runs in pieces -----

  lemma {:induction false} RunSplit(cfg: Config, w: World, a: seq<Event>, b: seq<Event>)
    ensures Run(cfg, w, a + b) == match Run(cfg, w, a) case None => None case Some(w') => Run(cfg, w', b)
    decreases |a|
  {
    if a == [] {
      assert a + b == b;
    } else {
      assert (a + b)[1..] == a[1..] + b;
      match Next(cfg, w, a[0])
      case None =>
      case Some(w') => RunSplit(cfg, w', a[1..], b);
    }
  }

  /** Only an acquirer that begins can come to a create. */
  function Beginners(evs: seq<Event>): nat {
    if evs == [] then 0 else (if evs[0].Begin? then 1 else 0) + Beginners(evs[1..])
  }

  lemma {:induction false} PendingStep(cfg: Config, w: World, ev: Event)
    requires Next(cfg, w, ev).Some?
    ensures |CreatingTasks(Next(cfg, w, ev).value)| <= |CreatingTasks(w)| + if ev.Begin? then 1 else 0
  {
    var c, c' := CreatingTasks(w), CreatingTasks(Next(cfg, w, ev).value);
    if ev.Begin? {
      assert c' <= c + {ev.t};
      SubsetSize(c', c + {ev.t});
    } else {
      assert !(w.slots + [false])[|w.slots|];
      assert c' <= c;
      SubsetSize(c', c);
    }
  }

  lemma {:induction false} SubsetSize<T>(a: set<T>, b: set<T>)
    requires a <= b
    ensures |a| <= |b|
  {
    assert b == a + (b - a);
  }

  lemma {:induction false} PendingByBeginners(cfg: Config, w: World, evs: seq<Event>, limit: nat)
    requires |CreatingTasks(w)| + Beginners(evs) <= limit
    ensures AtMostPending(cfg, w, evs, limit)
    decreases |evs|
  {
    if evs != [] && Next(cfg, w, evs[0]).Some? {
      PendingStep(cfg, w, evs[0]);
      PendingByBeginners(cfg, Next(cfg, w, evs[0]).value, evs[1..], limit);
    }
  }

  lemma {:induction false} PendingInPieces(cfg: Config, w: World, a: seq<Event>, b: seq<Event>, limit: nat)
    requires Run(cfg, w, a).Some? && AtMostPending(cfg, w, a, limit)
    requires AtMostPending(cfg, Run(cfg, w, a).value, b, limit)
    ensures AtMostPending(cfg, w, a + b, limit)
    decreases |a|
  {
    if a == [] {
      assert a + b == b;
    } else {
      assert (a + b)[1..] == a[1..] + b;
      PendingInPieces(cfg, Next(cfg, w, a[0]).value, a[1..], b, limit);
    }
  }

  // ----- Acquirers one after the other -----

  function InitCreates(t: Task, n: nat): (r: seq<Event>)
    ensures |r| == n
    decreases n
  {
    if n == 0 then [] else [InitCreated(t)] + InitCreates(t, n - 1)
  }

  /** Task `t` acquires a slot of its own, and then its sync fails or not. */
  function AcquireOne(cfg: Config, t: Task, fails: bool): seq<Event> {
    [Begin(t)] + (if t == 0 then InitCreates(t, cfg.poolMin) else []) + (if t >= cfg.poolMin then [Created(t)] else [])
    + [if fails then SyncFails(t) else Synced(t)]
  }

  function AcquireAll(cfg: Config, k: nat, fails: bool): seq<Event> {
    if k == 0 then [] else AcquireAll(cfg, k - 1, fails) + AcquireOne(cfg, k - 1, fails)
  }

  /** A new pool after its first `k` acquirers, each with the slot of its number. */
  function Acquired(cfg: Config, k: nat, fails: bool): World {
    if k == 0 then NEW_WORLD
    else World(true, seq(if k < cfg.poolMin then cfg.poolMin else k, (i: nat) => i < k), Holders(k, fails))
  }

  function Holders(k: nat, fails: bool): map<Task, Phase> {
    map t: Task | 0 <= t < k :: if fails then Failed(t) else Leased(t)
  }

  lemma {:induction false} RunOne(cfg: Config, w: World, ev: Event)
    ensures Run(cfg, w, [ev]) == Next(cfg, w, ev)
  {
    assert [ev][1..] == [];
    assert Next(cfg, w, ev).Some? ==> Run(cfg, Next(cfg, w, ev).value, []) == Next(cfg, w, ev);
  }

  /** The initialization loop of the only task. */
  lemma {:induction false} Initializes(cfg: Config, w: World, n: nat)
    requires 0 < n <= cfg.poolMin && !w.initialized && w.tasks == map[0 := Initializing(cfg.poolMin - n)]
    requires w.slots == seq(cfg.poolMin - n, (i: nat) => false)
    ensures Run(cfg, w, InitCreates(0, n)) ==
            Some(World(true, seq(cfg.poolMin, (i: nat) => i < 1), map[0 := Syncing(0)]))
    decreases n
  {
    var w' := Next(cfg, w, InitCreated(0)).value;
    var more := seq(cfg.poolMin - n + 1, (i: nat) => false);
    assert InitCreates(0, n)[0] == InitCreated(0) && InitCreates(0, n)[1..] == InitCreates(0, n - 1);
    assert w.slots + [false] == more;
    if n == 1 {
      assert FirstFree(more) == Some(0);
      assert more[0 := true] == seq(cfg.poolMin, (i: nat) => i < 1);
      assert w'.tasks == map[0 := Syncing(0)];
      assert Run(cfg, w', InitCreates(0, 0)) == Some(w');
    } else {
      assert w'.tasks == map[0 := Initializing(cfg.poolMin - (n - 1))];
      Initializes(cfg, w', n - 1);
    }
  }

  /** Task `t` gets slot `t`. */
  lemma {:induction false} GetsOwnSlot(cfg: Config, t: Task, fails: bool)
    requires t < cfg.poolMax && cfg.poolMin <= cfg.poolMax
    ensures var evs := [Begin(t)] + (if t == 0 then InitCreates(t, cfg.poolMin) else [])
                       + (if t >= cfg.poolMin then [Created(t)] else []);
            Run(cfg, Acquired(cfg, t, fails), evs) ==
            Some(World(true, Acquired(cfg, t + 1, fails).slots, Holders(t, fails)[t := Syncing(t)]))
  {
    var w := Acquired(cfg, t, fails);
    var w1 := Next(cfg, w, Begin(t)).value;
    RunOne(cfg, w, Begin(t));
    var init := if t == 0 then InitCreates(t, cfg.poolMin) else [];
    var create := if t >= cfg.poolMin then [Created(t)] else [];
    RunSplit(cfg, w, [Begin(t)], init);
    RunSplit(cfg, w, [Begin(t)] + init, create);
    var slots := Acquired(cfg, t + 1, fails).slots;
    if t < cfg.poolMin {
      if t == 0 {
        assert w1.tasks == map[0 := Initializing(0)];
        Initializes(cfg, w1, cfg.poolMin);
        assert Holders(0, fails) == map[];
      } else {
        assert !w.slots[t] && forall i :: 0 <= i < t ==> w.slots[i];
        assert FirstFree(w.slots) == Some(t);
        assert w.slots[t := true] == slots;
        assert Run(cfg, w1, []) == Some(w1);
      }
      assert Run(cfg, Run(cfg, w, [Begin(t)] + init).value, []) == Run(cfg, w, [Begin(t)] + init);
    } else {
      assert FirstFree(w.slots) == None;
      assert w1.tasks == Holders(t, fails)[t := Creating];
      assert Run(cfg, w1, init) == Some(w1);
      assert w.slots + [true] == slots;
      RunOne(cfg, w1, Created(t));
      assert w1.tasks[t := Syncing(t)] == Holders(t, fails)[t := Syncing(t)];
    }
  }

  lemma {:induction false} AcquiresOne(cfg: Config, t: Task, fails: bool)
    requires t < cfg.poolMax && cfg.poolMin <= cfg.poolMax
    ensures Run(cfg, Acquired(cfg, t, fails), AcquireOne(cfg, t, fails)) == Some(Acquired(cfg, t + 1, fails))
  {
    GetsOwnSlot(cfg, t, fails);
    var w, one := Acquired(cfg, t, fails), AcquireOne(cfg, t, fails);
    var front, last := one[..|one| - 1], if fails then SyncFails(t) else Synced(t);
    assert one == front + [last];
    RunSplit(cfg, w, front, [last]);
    var w1 := Run(cfg, w, front).value;
    RunOne(cfg, w1, last);
    hide Run;
    assert Next(cfg, w1, last).value.tasks == Holders(t + 1, fails);
  }

  lemma {:induction false} AcquiredReached(cfg: Config, k: nat, fails: bool)
    requires k <= cfg.poolMax && cfg.poolMin <= cfg.poolMax
    ensures Run(cfg, NEW_WORLD, AcquireAll(cfg, k, fails)) == Some(Acquired(cfg, k, fails))
    ensures AtMostPending(cfg, NEW_WORLD, AcquireAll(cfg, k, fails), 1)
    decreases k
  {
    if k == 0 {
      assert CreatingTasks(NEW_WORLD) == {};
    } else {
      var t := k - 1;
      var w, one := Acquired(cfg, t, fails), AcquireOne(cfg, t, fails);
      AcquiredReached(cfg, t, fails);
      AcquiresOne(cfg, t, fails);
      RunSplit(cfg, NEW_WORLD, AcquireAll(cfg, t, fails), one);
      OneBeginner(cfg, t, fails);
      assert CreatingTasks(w) == {};
      hide Run, AcquireOne, AtMostPending, Acquired, InitCreates, Next;
      PendingByBeginners(cfg, w, one, 1);
      PendingInPieces(cfg, NEW_WORLD, AcquireAll(cfg, t, fails), one, 1);
    }
  }

  lemma {:induction false} BeginnersInPieces(a: seq<Event>, b: seq<Event>)
    ensures Beginners(a + b) == Beginners(a) + Beginners(b)
    decreases |a|
  {
    if a == [] {
      assert a + b == b;
    } else {
      assert (a + b)[1..] == a[1..] + b;
      BeginnersInPieces(a[1..], b);
    }
  }

  lemma {:induction false} NoBeginners(evs: seq<Event>)
    requires forall ev :: ev in evs ==> !ev.Begin?
    ensures Beginners(evs) == 0
    decreases |evs|
  {
    if evs != [] {
      NoBeginners(evs[1..]);
    }
  }

  lemma {:induction false} OneBeginner(cfg: Config, t: Task, fails: bool)
    ensures Beginners(AcquireOne(cfg, t, fails)) == 1
  {
    var evs := AcquireOne(cfg, t, fails);
    OnlyInitCreated(t, cfg.poolMin);
    var rest := (if t == 0 then InitCreates(t, cfg.poolMin) else []) + (if t >= cfg.poolMin then [Created(t)] else [])
                + [if fails then SyncFails(t) else Synced(t)];
    assert evs[1..] == rest;
    NoBeginners(rest);
  }

  lemma {:induction false} OnlyInitCreated(t: Task, n: nat)
    ensures forall ev :: ev in InitCreates(t, n) ==> ev == InitCreated(t)
    decreases n
  {
    if n > 0 {
      OnlyInitCreated(t, n - 1);
    }
  }

  // ----- A pool whose slots have all leaked -----

  ghost predicate LeakedSlot(w: World, i: nat) {
    i < |w.slots| && w.slots[i] && exists t :: Leaked(w, t, i)
  }

  /** Every slot has leaked, there is no room to create another, and nobody is about to. */
  ghost predicate Exhausted(cfg: Config, w: World) {
    && w.initialized && |w.slots| >= cfg.poolMax
    && (forall i :: 0 <= i < |w.slots| ==> LeakedSlot(w, i))
    && (forall t :: t in w.tasks ==> w.tasks[t].Failed? || w.tasks[t].Waiting?)
  }

  lemma {:induction false} ExhaustedStep(cfg: Config, w: World, ev: Event)
    requires Exhausted(cfg, w) && Next(cfg, w, ev).Some?
    ensures Exhausted(cfg, Next(cfg, w, ev).value)
  {
    var w' := Next(cfg, w, ev).value;
    assert FirstFree(w.slots).Some? ==> LeakedSlot(w, FirstFree(w.slots).value);
    forall i | 0 <= i < |w'.slots| ensures LeakedSlot(w', i) {
      assert LeakedSlot(w, i);
      var t :| Leaked(w, t, i);
      LeakStep(cfg, w, ev, t, i);
    }
  }

  /** Once all slots of a full pool have leaked, every acquirer waits for ever, in every continuation. */
  lemma {:induction false} ExhaustedForGood(cfg: Config, w: World, evs: seq<Event>)
    requires Exhausted(cfg, w) && Run(cfg, w, evs).Some?
    ensures Exhausted(cfg, Run(cfg, w, evs).value)
    decreases |evs|
  {
    if evs != [] {
      ExhaustedStep(cfg, w, evs[0]);
      ExhaustedForGood(cfg, Next(cfg, w, evs[0]).value, evs[1..]);
    }
  }

  /** It happens: pool_max acquirers of a new pool whose syncs all fail use it up. */
  lemma {:induction false} ExhaustedReached(cfg: Config, after: seq<Event>)
    requires 0 < cfg.poolMax && cfg.poolMin <= cfg.poolMax
    requires Run(cfg, NEW_WORLD, AcquireAll(cfg, cfg.poolMax, true) + after).Some?
    ensures Exhausted(cfg, Run(cfg, NEW_WORLD, AcquireAll(cfg, cfg.poolMax, true) + after).value)
  {
    AcquiredReached(cfg, cfg.poolMax, true);
    var w := Acquired(cfg, cfg.poolMax, true);
    forall i | 0 <= i < |w.slots| ensures LeakedSlot(w, i) {
      assert Leaked(w, i, i);
    }
    RunSplit(cfg, NEW_WORLD, AcquireAll(cfg, cfg.poolMax, true), after);
    ExhaustedForGood(cfg, w, after);
  }

  // ----- The bound is reached: pool_max is checked before the suspension, not after it -----

  /** `n` acquirers that all start before any of them goes on, then all create their slot. */
  function Begins(first: Task, n: nat): (r: seq<Event>)
    ensures |r| == n
    decreases n
  {
    if n == 0 then [] else [Begin(first)] + Begins(first + 1, n - 1)
  }

  function Creates(first: Task, n: nat): (r: seq<Event>)
    ensures |r| == n
    decreases n
  {
    if n == 0 then [] else [Created(first)] + Creates(first + 1, n - 1)
  }

  ghost predicate CreatingFrom(w: World, first: Task, n: nat) {
    forall t :: first <= t < first + n ==> t in w.tasks && w.tasks[t].Creating?
  }

  lemma {:induction false} AllBegin(cfg: Config, w: World, first: Task, n: nat)
    requires (w.initialized || cfg.poolMin == 0) && FirstFree(w.slots).None? && |w.slots| < cfg.poolMax
    requires forall t :: t >= first ==> t !in w.tasks
    ensures Run(cfg, w, Begins(first, n)).Some?
    ensures var w' := Run(cfg, w, Begins(first, n)).value;
            && w'.slots == w.slots && CreatingFrom(w', first, n)
            && (forall t :: t in w.tasks ==> t in w'.tasks && w'.tasks[t] == w.tasks[t])
    decreases n
  {
    if n > 0 {
      var evs := Begins(first, n);
      var w1 := Next(cfg, w, Begin(first)).value;
      assert w1.tasks == w.tasks[first := Creating];
      assert evs[0] == Begin(first) && evs[1..] == Begins(first + 1, n - 1);
      AllBegin(cfg, w1, first + 1, n - 1);
      assert first in w1.tasks && w1.tasks[first].Creating?;
    }
  }

  lemma {:induction false} AllCreate(cfg: Config, w: World, first: Task, n: nat)
    requires CreatingFrom(w, first, n)
    ensures Run(cfg, w, Creates(first, n)).Some?
    ensures |Run(cfg, w, Creates(first, n)).value.slots| == |w.slots| + n
    decreases n
  {
    if n > 0 {
      var evs := Creates(first, n);
      assert evs[0] == Created(first) && evs[1..] == Creates(first + 1, n - 1);
      var w1 := Next(cfg, w, Created(first)).value;
      assert CreatingFrom(w1, first + 1, n - 1);
      AllCreate(cfg, w1, first + 1, n - 1);
    }
  }

  lemma {:induction false} BeginnersOf(first: Task, n: nat)
    ensures Beginners(Begins(first, n)) == n && Beginners(Creates(first, n)) == 0
    decreases n
  {
    if n > 0 {
      BeginnersOf(first + 1, n - 1);
      assert Begins(first, n)[1..] == Begins(first + 1, n - 1);
      assert Creates(first, n)[1..] == Creates(first + 1, n - 1);
    }
  }

  /** pool_max - 1 acquirers that keep their slots, then P more that begin together. */
  function Overshooting(cfg: Config, p: nat): seq<Event>
    requires cfg.poolMax > 0
  {
    AcquireAll(cfg, cfg.poolMax - 1, false) + (Begins(cfg.poolMax - 1, p) + Creates(cfg.poolMax - 1, p))
  }

  lemma {:induction false} TogetherOvershoot(cfg: Config, w: World, first: Task, p: nat)
    requires (w.initialized || cfg.poolMin == 0) && |w.slots| == cfg.poolMax - 1 && FirstFree(w.slots).None?
    requires CreatingTasks(w) == {} && forall t :: t >= first ==> t !in w.tasks
    ensures var evs := Begins(first, p) + Creates(first, p);
            && Run(cfg, w, evs).Some? && |Run(cfg, w, evs).value.slots| == cfg.poolMax - 1 + p
            && AtMostPending(cfg, w, evs, p)
  {
    AllBegin(cfg, w, first, p);
    AllCreate(cfg, Run(cfg, w, Begins(first, p)).value, first, p);
    RunSplit(cfg, w, Begins(first, p), Creates(first, p));
    BeginnersOf(first, p);
    BeginnersInPieces(Begins(first, p), Creates(first, p));
    PendingByBeginners(cfg, w, Begins(first, p) + Creates(first, p), p);
  }

  lemma {:induction false} FirstUsersInPieces(cfg: Config, w: World, a: seq<Event>, b: seq<Event>)
    requires Run(cfg, w, a).Some?
    ensures FirstUsers(cfg, w, a + b) == FirstUsers(cfg, w, a) + FirstUsers(cfg, Run(cfg, w, a).value, b)
    decreases |a|
  {
    if a == [] {
      assert a + b == b;
    } else {
      assert (a + b)[1..] == a[1..] + b;
      FirstUsersInPieces(cfg, Next(cfg, w, a[0]).value, a[1..], b);
    }
  }

  lemma {:induction false} FirstUsersBegin(cfg: Config, w: World, evs: seq<Event>)
    ensures FirstUsers(cfg, w, evs) <= Beginners(evs)
    decreases |evs|
  {
    if evs != [] && Next(cfg, w, evs[0]).Some? {
      FirstUsersBegin(cfg, Next(cfg, w, evs[0]).value, evs[1..]);
    }
  }

  /** The first of the acquirers is the only first user. */
  lemma {:induction false} AcquirersAfterFirst(cfg: Config, k: nat, fails: bool, evs: seq<Event>)
    requires 0 < k <= cfg.poolMax && cfg.poolMin <= cfg.poolMax
    ensures FirstUsers(cfg, NEW_WORLD, AcquireAll(cfg, k, fails) + evs) <= 1
    decreases k
  {
    var t := k - 1;
    var a, one := AcquireAll(cfg, t, fails), AcquireOne(cfg, t, fails);
    AcquiredReached(cfg, k, fails);
    AcquiredReached(cfg, t, fails);
    assert NoneInitializing(Acquired(cfg, k, fails));
    InitializedHasNoFirstUsers(cfg, Acquired(cfg, k, fails), evs);
    FirstUsersInPieces(cfg, NEW_WORLD, AcquireAll(cfg, k, fails), evs);
    if t == 0 {
      OneBeginner(cfg, t, fails);
      FirstUsersBegin(cfg, NEW_WORLD, AcquireAll(cfg, k, fails));
      assert AcquireAll(cfg, k, fails) == one;
    } else {
      AcquirersAfterFirst(cfg, t, fails, one);
    }
  }

  lemma {:induction false} OvershootFirstUsers(cfg: Config, p: nat)
    requires 1 <= p && cfg.poolMin < cfg.poolMax
    ensures FirstUsers(cfg, NEW_WORLD, Overshooting(cfg, p)) <= 1
  {
    var b := Begins(cfg.poolMax - 1, p) + Creates(cfg.poolMax - 1, p);
    if cfg.poolMax > 1 {
      AcquirersAfterFirst(cfg, cfg.poolMax - 1, false, b);
    } else {
      assert Overshooting(cfg, p) == b;
      var w := Next(cfg, NEW_WORLD, Begin(0)).value;
      assert b[0] == Begin(0) && NoneInitializing(w);
      InitializedHasNoFirstUsers(cfg, w, b[1..]);
    }
  }

  /** In this run of a new pool at most P creates are pending at a time, and it ends with pool_max - 1 + P slots. */
  lemma {:induction false} OvershootReached(cfg: Config, p: nat)
    requires 1 <= p && cfg.poolMin < cfg.poolMax
    ensures Run(cfg, NEW_WORLD, Overshooting(cfg, p)).Some?
    ensures AtMostPending(cfg, NEW_WORLD, Overshooting(cfg, p), p)
    ensures |Run(cfg, NEW_WORLD, Overshooting(cfg, p)).value.slots| == cfg.poolMax - 1 + p
    ensures FirstUsers(cfg, NEW_WORLD, Overshooting(cfg, p)) <= 1
  {
    OvershootFirstUsers(cfg, p);
    var first := cfg.poolMax - 1;
    var w := Acquired(cfg, first, false);
    assert FirstFree(w.slots).None?;
    assert CreatingTasks(w) == {};
    hide Run, AtMostPending;
    AcquiredReached(cfg, first, false);
    var a, b := AcquireAll(cfg, first, false), Begins(first, p) + Creates(first, p);
    TogetherOvershoot(cfg, w, first, p);
    hide Acquired, AcquireAll, Begins, Creates;
    RunSplit(cfg, NEW_WORLD, a, b);
    MorePending(cfg, NEW_WORLD, a, 1, p);
    PendingInPieces(cfg, NEW_WORLD, a, b, p);
  }

  lemma {:induction false} MorePending(cfg: Config, w: World, evs: seq<Event>, limit: nat, more: nat)
    requires AtMostPending(cfg, w, evs, limit) && limit <= more
    ensures AtMostPending(cfg, w, evs, more)
    decreases |evs|
  {
    if evs != [] && Next(cfg, w, evs[0]).Some? {
      MorePending(cfg, Next(cfg, w, evs[0]).value, evs[1..], limit, more);
    }
  }

  // ----- Concurrent first users each run the initialization loop -----

  /** Slots the task has still to create in its initialization loop. */
  function Owed(cfg: Config, tasks: map<Task, Phase>, t: Task): int {
    if t in tasks && tasks[t].Initializing? then cfg.poolMin - tasks[t].created else 0
  }

  /** The slots that the tasks numbered below `n` have still to create. */
  function AllOwed(cfg: Config, tasks: map<Task, Phase>, n: nat): int {
    if n == 0 then 0 else AllOwed(cfg, tasks, n - 1) + Owed(cfg, tasks, n - 1)
  }

  lemma {:induction false} OneTaskMoves(cfg: Config, a: map<Task, Phase>, b: map<Task, Phase>, t: Task, n: nat)
    requires forall u :: u != t ==> Owed(cfg, a, u) == Owed(cfg, b, u)
    ensures AllOwed(cfg, b, n) - AllOwed(cfg, a, n) == if t < n then Owed(cfg, b, t) - Owed(cfg, a, t) else 0
    decreases n
  {
    if n > 0 {
      OneTaskMoves(cfg, a, b, t, n - 1);
    }
  }

  /** What an event adds to the slots there are and those still owed. */
  function Gain(cfg: Config, w: World, ev: Event): int {
    if IsFirstUser(w, ev) then cfg.poolMin
    else if ev.Created? then 1
    else if ev.CreateFails? then -Owed(cfg, w.tasks, ev.t)
    else 0
  }

  function Gains(cfg: Config, w: World, evs: seq<Event>): int
    decreases |evs|
  {
    if evs == [] || Next(cfg, w, evs[0]).None? then 0
    else Gain(cfg, w, evs[0]) + Gains(cfg, Next(cfg, w, evs[0]).value, evs[1..])
  }

  ghost predicate Looping(cfg: Config, w: World) {
    forall t :: t in w.tasks && w.tasks[t].Initializing? ==> w.tasks[t].created < cfg.poolMin
  }

  lemma {:induction false} GainStep(cfg: Config, w: World, ev: Event, n: nat)
    requires Looping(cfg, w) && Next(cfg, w, ev).Some? && ev.t < n
    ensures Looping(cfg, Next(cfg, w, ev).value)
    ensures var w' := Next(cfg, w, ev).value;
            |w'.slots| + AllOwed(cfg, w'.tasks, n) == |w.slots| + AllOwed(cfg, w.tasks, n) + Gain(cfg, w, ev)
  {
    var w' := Next(cfg, w, ev).value;
    OneTaskMoves(cfg, w.tasks, w'.tasks, ev.t, n);
  }

  /** Over every run: slots and slots still owed grow by what the events add. */
  lemma {:induction false} SlotLedger(cfg: Config, w: World, evs: seq<Event>, n: nat)
    requires Looping(cfg, w) && Run(cfg, w, evs).Some? && forall ev :: ev in evs ==> ev.t < n
    ensures var w' := Run(cfg, w, evs).value;
            |w'.slots| + AllOwed(cfg, w'.tasks, n) == |w.slots| + AllOwed(cfg, w.tasks, n) + Gains(cfg, w, evs)
    decreases |evs|
  {
    if evs != [] {
      GainStep(cfg, w, evs[0], n);
      SlotLedger(cfg, Next(cfg, w, evs[0]).value, evs[1..], n);
    }
  }

  /** The creates of the run outside initialization. */
  function Completed(evs: seq<Event>): nat {
    if evs == [] then 0 else (if evs[0].Created? then 1 else 0) + Completed(evs[1..])
  }

  lemma {:induction false} GainsWithoutFailures(cfg: Config, w: World, evs: seq<Event>)
    requires Run(cfg, w, evs).Some? && forall ev :: ev in evs ==> !ev.CreateFails?
    ensures Gains(cfg, w, evs) == cfg.poolMin * FirstUsers(cfg, w, evs) + Completed(evs)
    decreases |evs|
  {
    if evs != [] {
      var w' := Next(cfg, w, evs[0]).value;
      GainsWithoutFailures(cfg, w', evs[1..]);
      var more, one := FirstUsers(cfg, w', evs[1..]), if IsFirstUser(w, evs[0]) then 1 else 0;
      assert cfg.poolMin * (one + more) == cfg.poolMin * one + cfg.poolMin * more;
    }
  }

  lemma {:induction false} NothingOwed(cfg: Config, n: nat)
    ensures AllOwed(cfg, map[], n) == 0
    decreases n
  {
    if n > 0 {
      NothingOwed(cfg, n - 1);
    }
  }

  /**
   * In every interleaving without create failures each first user brings pool_min slots: initialization brings pool_min
   * exactly when no second user begins before the pool is initialized.
   */
  lemma {:induction false} InitializedOnceIff(cfg: Config, evs: seq<Event>, n: nat)
    requires Run(cfg, NEW_WORLD, evs).Some? && (forall ev :: ev in evs ==> ev.t < n && !ev.CreateFails?)
    ensures var w, k := Run(cfg, NEW_WORLD, evs).value, FirstUsers(cfg, NEW_WORLD, evs);
            && |w.slots| + AllOwed(cfg, w.tasks, n) - Completed(evs) == k * cfg.poolMin
            && (cfg.poolMin > 0 ==> (|w.slots| + AllOwed(cfg, w.tasks, n) - Completed(evs) == cfg.poolMin <==> k == 1))
  {
    SlotLedger(cfg, NEW_WORLD, evs, n);
    NothingOwed(cfg, n);
    GainsWithoutFailures(cfg, NEW_WORLD, evs);
    var k := FirstUsers(cfg, NEW_WORLD, evs);
    assert k > 1 && cfg.poolMin > 0 ==> k * cfg.poolMin > cfg.poolMin;
  }

  function EachInitializes(first: Task, k: nat, poolMin: nat): seq<Event>
    decreases k
  {
    if k == 0 then [] else InitCreates(first, poolMin) + EachInitializes(first + 1, k - 1, poolMin)
  }

  ghost predicate InitializingFrom(w: World, first: Task, k: nat) {
    forall t :: first <= t < first + k ==> t in w.tasks && w.tasks[t] == Initializing(0)
  }

  lemma {:induction false} AllStartInitializing(cfg: Config, w: World, first: Task, k: nat)
    requires !w.initialized && cfg.poolMin > 0
    requires forall t :: t >= first ==> t !in w.tasks
    ensures Run(cfg, w, Begins(first, k)).Some?
    ensures var w' := Run(cfg, w, Begins(first, k)).value;
            && w'.slots == w.slots && InitializingFrom(w', first, k)
            && (forall t :: t in w.tasks ==> t in w'.tasks && w'.tasks[t] == w.tasks[t])
    decreases k
  {
    if k > 0 {
      var w1 := Next(cfg, w, Begin(first)).value;
      assert w1.tasks == w.tasks[first := Initializing(0)];
      assert Begins(first, k)[0] == Begin(first) && Begins(first, k)[1..] == Begins(first + 1, k - 1);
      AllStartInitializing(cfg, w1, first + 1, k - 1);
      assert first in w1.tasks && w1.tasks[first] == Initializing(0);
    }
  }

  lemma {:induction false} OneInitializes(cfg: Config, w: World, t: Task, n: nat)
    requires t in w.tasks && w.tasks[t].Initializing? && w.tasks[t].created + n == cfg.poolMin
    ensures Run(cfg, w, InitCreates(t, n)).Some?
    ensures var w' := Run(cfg, w, InitCreates(t, n)).value;
            && |w'.slots| == |w.slots| + n
            && (n > 0 ==> w'.initialized)
            && forall u :: u != t && u in w.tasks ==> u in w'.tasks && w'.tasks[u] == w.tasks[u]
    decreases n
  {
    if n > 0 {
      var w1 := Next(cfg, w, InitCreated(t)).value;
      assert InitCreates(t, n)[0] == InitCreated(t) && InitCreates(t, n)[1..] == InitCreates(t, n - 1);
      if n == 1 {
        assert Run(cfg, w, InitCreates(t, n)) == Run(cfg, w1, InitCreates(t, 0)) == Some(w1);
      } else {
        OneInitializes(cfg, w1, t, n - 1);
      }
    }
  }

  lemma {:induction false} AllInitialize(cfg: Config, w: World, first: Task, k: nat)
    requires InitializingFrom(w, first, k)
    ensures Run(cfg, w, EachInitializes(first, k, cfg.poolMin)).Some?
    ensures |Run(cfg, w, EachInitializes(first, k, cfg.poolMin)).value.slots| == |w.slots| + k * cfg.poolMin
    decreases k
  {
    if k > 0 {
      OneInitializes(cfg, w, first, cfg.poolMin);
      var w1 := Run(cfg, w, InitCreates(first, cfg.poolMin)).value;
      AllInitialize(cfg, w1, first + 1, k - 1);
      RunSplit(cfg, w, InitCreates(first, cfg.poolMin), EachInitializes(first + 1, k - 1, cfg.poolMin));
      assert (k - 1) * cfg.poolMin + cfg.poolMin == k * cfg.poolMin;
    }
  }

  /** Any number of first users is possible: k that begin before the pool is initialized leave k * pool_min slots. */
  lemma {:induction false} EveryFirstUserInitializes(cfg: Config, k: nat)
    requires cfg.poolMin > 0
    ensures var evs := Begins(0, k) + EachInitializes(0, k, cfg.poolMin);
            Run(cfg, NEW_WORLD, evs).Some? && |Run(cfg, NEW_WORLD, evs).value.slots| == k * cfg.poolMin
  {
    AllStartInitializing(cfg, NEW_WORLD, 0, k);
    AllInitialize(cfg, Run(cfg, NEW_WORLD, Begins(0, k)).value, 0, k);
    RunSplit(cfg, NEW_WORLD, Begins(0, k), EachInitializes(0, k, cfg.poolMin));
  }

  // ----- Exactly when pool_max holds, with any number of first users -----

  /** Slots, those still owed by initializations, and creates that will add one. */
  function Total(cfg: Config, w: World, n: nat): int {
    Count(w) + AllOwed(cfg, w.tasks, n)
  }

  /** What an event adds to that: an initialization or a create that starts. */
  function Adds(cfg: Config, w: World, ev: Event): nat
    requires Next(cfg, w, ev).Some?
  {
    (if IsFirstUser(w, ev) then cfg.poolMin else 0) + if StartsCreate(cfg, w, ev) then 1 else 0
  }

  /** What a failing create takes away. */
  function Frees(cfg: Config, w: World, ev: Event): int {
    if !ev.CreateFails? then 0 else if ev.t in CreatingTasks(w) then 1 else Owed(cfg, w.tasks, ev.t)
  }

  /** The task leaves the pending creates. */
  predicate EndsCreate(w: World, ev: Event) {
    (ev.Created? || ev.CreateFails?) && ev.t in CreatingTasks(w)
  }

  lemma {:induction false} CreatingSets(cfg: Config, w: World, ev: Event, u: Task)
    requires Next(cfg, w, ev).Some?
    ensures u in CreatingTasks(Next(cfg, w, ev).value) <==>
            (u in CreatingTasks(w) && !(u == ev.t && EndsCreate(w, ev))) || (u == ev.t && StartsCreate(cfg, w, ev))
    ensures ev.Created? ==> EndsCreate(w, ev)
  {
    assert ev.InitCreated? ==> !(w.slots + [false])[|w.slots|];
  }

  lemma {:induction false} CreatingChange(cfg: Config, w: World, ev: Event)
    requires Next(cfg, w, ev).Some?
    ensures |CreatingTasks(Next(cfg, w, ev).value)| ==
            |CreatingTasks(w)| + (if StartsCreate(cfg, w, ev) then 1 else 0) - (if EndsCreate(w, ev) then 1 else 0)
    ensures ev.Created? ==> EndsCreate(w, ev)
  {
    var c, c' := CreatingTasks(w), CreatingTasks(Next(cfg, w, ev).value);
    forall u
      ensures u in c' <==> (u in c && !(u == ev.t && EndsCreate(w, ev))) || (u == ev.t && StartsCreate(cfg, w, ev))
      ensures ev.Created? ==> EndsCreate(w, ev)
    {
      CreatingSets(cfg, w, ev, u);
    }
    assert StartsCreate(cfg, w, ev) ==> ev.t !in c;
    hide Next, CreatingTasks;
    if EndsCreate(w, ev) {
      assert c == c' + {ev.t};
    } else if StartsCreate(cfg, w, ev) {
      assert c' == c + {ev.t};
    } else {
      assert c' == c;
    }
  }

  lemma {:induction false} TotalStep(cfg: Config, w: World, ev: Event, n: nat)
    requires Looping(cfg, w) && Next(cfg, w, ev).Some? && ev.t < n
    ensures Looping(cfg, Next(cfg, w, ev).value)
    ensures Total(cfg, Next(cfg, w, ev).value, n) == Total(cfg, w, n) + Adds(cfg, w, ev) - Frees(cfg, w, ev)
    ensures Adds(cfg, w, ev) > 0 ==> Frees(cfg, w, ev) == 0
    ensures Frees(cfg, w, ev) >= 0
  {
    GainStep(cfg, w, ev, n);
    CreatingChange(cfg, w, ev);
    hide AllOwed;
  }

  lemma {:induction false} OwedIsNatural(cfg: Config, w: World, n: nat)
    requires Looping(cfg, w)
    ensures AllOwed(cfg, w.tasks, n) >= 0
    decreases n
  {
    if n > 0 {
      OwedIsNatural(cfg, w, n - 1);
    }
  }

  ghost predicate TotalWithin(cfg: Config, w: World, evs: seq<Event>, n: nat)
    decreases |evs|
  {
    && Total(cfg, w, n) <= cfg.poolMax
    && (evs != [] && Next(cfg, w, evs[0]).Some? ==> TotalWithin(cfg, Next(cfg, w, evs[0]).value, evs[1..], n))
  }

  /** Every initialization and every create starts while there is room for all it will add. */
  ghost predicate AllHaveRoom(cfg: Config, w: World, evs: seq<Event>, n: nat)
    decreases |evs|
  {
    evs != [] && Next(cfg, w, evs[0]).Some? ==>
      && (Adds(cfg, w, evs[0]) > 0 ==> Total(cfg, w, n) + Adds(cfg, w, evs[0]) <= cfg.poolMax)
      && AllHaveRoom(cfg, Next(cfg, w, evs[0]).value, evs[1..], n)
  }

  /**
   * Over every interleaving, any number of first users included: slots, owed slots and pending creates stay within
   * pool_max throughout exactly when each initialization and each create starts while there is room for what it adds.
   */
  lemma {:induction false} TotalWithinIff(cfg: Config, w: World, evs: seq<Event>, n: nat)
    requires Looping(cfg, w) && Run(cfg, w, evs).Some? && Total(cfg, w, n) <= cfg.poolMax
    requires forall ev :: ev in evs ==> ev.t < n
    ensures TotalWithin(cfg, w, evs, n) <==> AllHaveRoom(cfg, w, evs, n)
    ensures TotalWithin(cfg, w, evs, n) ==> |Run(cfg, w, evs).value.slots| <= cfg.poolMax
    decreases |evs|
  {
    OwedIsNatural(cfg, w, n);
    if evs != [] {
      var w' := Next(cfg, w, evs[0]).value;
      TotalStep(cfg, w, evs[0], n);
      hide Next, Adds, Frees, Looping;
      if Total(cfg, w', n) <= cfg.poolMax {
        TotalWithinIff(cfg, w', evs[1..], n);
      }
    }
  }

  lemma {:induction false} TotalGrows(cfg: Config, w: World, evs: seq<Event>, n: nat)
    requires Looping(cfg, w) && Run(cfg, w, evs).Some?
    requires forall ev :: ev in evs ==> ev.t < n && !ev.CreateFails?
    ensures Total(cfg, w, n) <= Total(cfg, Run(cfg, w, evs).value, n)
    decreases |evs|
  {
    if evs != [] {
      TotalStep(cfg, w, evs[0], n);
      TotalGrows(cfg, Next(cfg, w, evs[0]).value, evs[1..], n);
    }
  }

  lemma {:induction false} EndTellsAll(cfg: Config, w: World, evs: seq<Event>, n: nat)
    requires Looping(cfg, w) && Run(cfg, w, evs).Some?
    requires forall ev :: ev in evs ==> ev.t < n && !ev.CreateFails?
    ensures Total(cfg, Run(cfg, w, evs).value, n) <= cfg.poolMax <==> TotalWithin(cfg, w, evs, n)
    decreases |evs|
  {
    TotalGrows(cfg, w, evs, n);
    if evs != [] {
      TotalStep(cfg, w, evs[0], n);
      EndTellsAll(cfg, Next(cfg, w, evs[0]).value, evs[1..], n);
    }
  }

  /** From a new pool; without create failures the final state tells. */
  lemma {:induction false} NewPoolMaxIff(cfg: Config, evs: seq<Event>, n: nat)
    requires Run(cfg, NEW_WORLD, evs).Some? && forall ev :: ev in evs ==> ev.t < n
    ensures TotalWithin(cfg, NEW_WORLD, evs, n) <==> AllHaveRoom(cfg, NEW_WORLD, evs, n)
    ensures (forall ev :: ev in evs ==> !ev.CreateFails?) ==>
              (Total(cfg, Run(cfg, NEW_WORLD, evs).value, n) <= cfg.poolMax <==> AllHaveRoom(cfg, NEW_WORLD, evs, n))
  {
    NothingOwed(cfg, n);
    assert CreatingTasks(NEW_WORLD) == {};
    TotalWithinIff(cfg, NEW_WORLD, evs, n);
    if forall ev :: ev in evs ==> !ev.CreateFails? {
      EndTellsAll(cfg, NEW_WORLD, evs, n);
    }
  }
}
