/** What each step of an acquire does to the pool, and that waiting ends when a slot becomes free. */
module ConnectionPoolSteps {
  import opened Prelude
  import opened ConnectionPools

  /** The least free slot. */
  predicate LeastFree(slots: seq<bool>, i: nat) {
    i < |slots| && !slots[i] && forall k :: 0 <= k < i ==> slots[k]
  }

  predicate AllInUse(slots: seq<bool>) {
    forall k :: 0 <= k < |slots| ==> slots[k]
  }

  lemma {:induction false} FirstFreeIs(slots: seq<bool>, i: nat)
    ensures LeastFree(slots, i) <==> FirstFree(slots) == Some(i)
    ensures AllInUse(slots) <==> FirstFree(slots).None?
  {
  }

  /** Task `t` took slot `i`, and nothing else changed. */
  predicate Takes(w: World, w': World, t: Task, i: nat) {
    i < |w.slots| && w' == w.(slots := w.slots[i := true], tasks := w.tasks[t := Syncing(i)])
  }

  /**
   * A waiting acquirer that polls takes the least free slot; with all slots in use it goes on waiting and nothing
   * changes.
   */
  lemma {:induction false} PollTakesFreeSlot(cfg: Config, w: World, t: Task, i: nat)
    requires t in w.tasks && w.tasks[t] == Waiting
    ensures Next(cfg, w, Poll(t)).Some?
    ensures LeastFree(w.slots, i) ==> Takes(w, Next(cfg, w, Poll(t)).value, t, i)
    ensures AllInUse(w.slots) ==> Next(cfg, w, Poll(t)).value == w
  {
    FirstFreeIs(w.slots, i);
  }

  /**
   * An acquire from an initialized pool takes the least free slot; with all in use it creates one while there are fewer
   * than pool_max, and waits otherwise.
   */
  lemma {:induction false} AcquireBegins(cfg: Config, w: World, t: Task, i: nat)
    requires w.initialized && t !in w.tasks
    ensures Next(cfg, w, Begin(t)).Some?
    ensures LeastFree(w.slots, i) ==> Takes(w, Next(cfg, w, Begin(t)).value, t, i)
    ensures AllInUse(w.slots) && |w.slots| < cfg.poolMax ==>
              Next(cfg, w, Begin(t)).value == w.(tasks := w.tasks[t := Creating])
    ensures AllInUse(w.slots) && |w.slots| >= cfg.poolMax ==>
              Next(cfg, w, Begin(t)).value == w.(tasks := w.tasks[t := Waiting])
  {
    FirstFreeIs(w.slots, i);
  }

  /** Before that it creates pool_min slots, one after the other, all free; with the last of them it takes one. */
  lemma {:induction false} InitializationCreates(cfg: Config, w: World, t: Task)
    requires !w.initialized
    ensures t !in w.tasks && cfg.poolMin > 0 ==>
              Next(cfg, w, Begin(t)) == Some(w.(tasks := w.tasks[t := Initializing(0)]))
    ensures t in w.tasks && w.tasks[t].Initializing? && w.tasks[t].created + 1 < cfg.poolMin ==>
              Next(cfg, w, InitCreated(t)) ==
              Some(World(false, w.slots + [false], w.tasks[t := Initializing(w.tasks[t].created + 1)]))
    ensures t in w.tasks && w.tasks[t].Initializing? && w.tasks[t].created + 1 == cfg.poolMin ==>
              exists i :: Next(cfg, w, InitCreated(t)).Some?
                && LeastFree(w.slots + [false], i)
                && Takes(World(true, w.slots + [false], w.tasks), Next(cfg, w, InitCreated(t)).value, t, i)
  {
    if t in w.tasks && w.tasks[t].Initializing? && w.tasks[t].created + 1 == cfg.poolMin {
      var slots := w.slots + [false];
      assert !slots[|w.slots|];
      var i := FirstFree(slots).value;
      FirstFreeIs(slots, i);
      assert Takes(World(true, slots, w.tasks), Next(cfg, w, InitCreated(t)).value, t, i);
    }
  }

  /** A completed create brings a slot that is in use by its creator; a failed one brings nothing. */
  lemma {:induction false} CreateEnds(cfg: Config, w: World, t: Task)
    requires t in w.tasks && w.tasks[t] == Creating
    ensures Next(cfg, w, Created(t)) == Some(w.(slots := w.slots + [true], tasks := w.tasks[t := Syncing(|w.slots|)]))
    ensures Next(cfg, w, CreateFails(t)) == Some(w.(tasks := w.tasks - {t}))
  {
  }

  /** A sync leads to the lease or to the leak of the slot it was given. */
  lemma {:induction false} SyncEnds(cfg: Config, w: World, t: Task, i: nat)
    requires t in w.tasks && w.tasks[t] == Syncing(i)
    ensures Next(cfg, w, Synced(t)) == Some(w.(tasks := w.tasks[t := Leased(i)]))
    ensures Next(cfg, w, SyncFails(t)) == Some(w.(tasks := w.tasks[t := Failed(i)]))
  {
  }

  /** In every reachable state a lease can be given back, and exactly its slot becomes free. */
  lemma {:induction false} ReleaseFrees(cfg: Config, evs: seq<Event>, t: Task, i: nat)
    requires Run(cfg, NEW_WORLD, evs).Some?
    requires var w := Run(cfg, NEW_WORLD, evs).value; t in w.tasks && w.tasks[t] == Leased(i)
    ensures var w := Run(cfg, NEW_WORLD, evs).value;
            && i < |w.slots| && w.slots[i]
            && Next(cfg, w, Release(t)) == Some(w.(slots := w.slots[i := false], tasks := w.tasks - {t}))
  {
    RunHolder(cfg, NEW_WORLD, evs);
    assert Holds(Run(cfg, NEW_WORLD, evs).value, t, i);
  }

  /** Slot `i` was freed and `t` has the lease of slot `j`. */
  predicate Leases(w: World, w': World, t: Task, i: nat, j: nat) {
    && i < |w.slots| && j < |w.slots| && t in w'.tasks && w'.tasks[t] == Leased(j)
    && w'.slots == w.slots[i := false][j := true]
  }

  /**
   * Waiting ends: in every reachable state, when a lease is given back, whichever waiter polls next takes a slot, and
   * the sync that follows makes it a lease.
   */
  lemma {:induction false} WaiterServedAfterRelease(cfg: Config, evs: seq<Event>, u: Task, t: Task, i: nat)
    requires Run(cfg, NEW_WORLD, evs).Some?
    requires var w := Run(cfg, NEW_WORLD, evs).value;
             u in w.tasks && w.tasks[u] == Leased(i) && t in w.tasks && w.tasks[t] == Waiting
    ensures var w := Run(cfg, NEW_WORLD, evs).value;
            var end := Run(cfg, w, [Release(u), Poll(t), Synced(t)]);
            && end.Some? && t in end.value.tasks && u !in end.value.tasks
            && exists j: nat :: j <= i && Leases(w, end.value, t, i, j)
  {
    var w := Run(cfg, NEW_WORLD, evs).value;
    ReleaseFrees(cfg, evs, u, i);
    var w1 := Next(cfg, w, Release(u)).value;
    assert !w1.slots[i];
    FirstFreeIs(w1.slots, 0);
    var j := FirstFree(w1.slots).value;
    FirstFreeIs(w1.slots, j);
    PollTakesFreeSlot(cfg, w1, t, j);
    var w2 := Next(cfg, w1, Poll(t)).value;
    SyncEnds(cfg, w2, t, j);
    var three := [Release(u), Poll(t), Synced(t)];
    assert three[1..] == [Poll(t), Synced(t)] && three[1..][1..] == [Synced(t)] && three[1..][1..][1..] == [];
    assert Run(cfg, w2, [Synced(t)]) == Next(cfg, w2, Synced(t));
    assert Run(cfg, w1, three[1..]) == Run(cfg, w2, [Synced(t)]);
    assert Leases(w, Next(cfg, w2, Synced(t)).value, t, i, j);
  }

  /** Exactly which steps can happen. */
  lemma {:induction false} EnabledIff(cfg: Config, w: World, t: Task)
    ensures Next(cfg, w, Begin(t)).Some? <==> t !in w.tasks
    ensures Next(cfg, w, InitCreated(t)).Some? <==> t in w.tasks && w.tasks[t].Initializing?
    ensures Next(cfg, w, Created(t)).Some? <==> t in w.tasks && w.tasks[t].Creating?
    ensures Next(cfg, w, CreateFails(t)).Some? <==> t in w.tasks && (w.tasks[t].Creating? || w.tasks[t].Initializing?)
    ensures Next(cfg, w, Poll(t)).Some? <==> t in w.tasks && w.tasks[t].Waiting?
    ensures Next(cfg, w, Synced(t)).Some? <==> t in w.tasks && w.tasks[t].Syncing?
    ensures Next(cfg, w, SyncFails(t)).Some? <==> t in w.tasks && w.tasks[t].Syncing?
    ensures Next(cfg, w, Release(t)).Some? <==> t in w.tasks && w.tasks[t].Leased? && w.tasks[t].slot < |w.slots|
  {
  }
}
