/** What deleting an account leaves behind, over interleaved runs. */
module AuthDeletions {
  import opened Prelude
  import opened AuthSessions
  import opened AuthTables
  import opened AuthRuns

  // ----- Where a live session is known -----

  predicate LiveOf(s: Stores, u: User, sid: SessionId) {
    Live(s.redis, s.now, sid) && s.redis.sessions[sid].user == u
  }

  predicate InIndex(r: Redis, now: int, u: User, sid: SessionId) {
    HasIndex(r, now, u) && sid in r.index[u].ids
  }

  /** A sign-in is still making the session known: before adding it to the index, or between that and the renewal. */
  predicate Making(s: Stores, p: Phase, u: User, sid: SessionId) {
    || (p.Indexing? && p.user == u && p.sid == sid)
    || (p.Expiring? && p.user == u && p.sid == sid && InIndex(s.redis, s.now, u, sid))
  }

  /** A logout is between removing the session from the index and deleting it. */
  ghost predicate BeingEnded(w: World, sid: SessionId) {
    exists id :: id in w.tasks && w.tasks[id].phase == Ending(sid)
  }

  ghost predicate BeingMade(w: World, u: User, sid: SessionId) {
    exists id :: id in w.tasks && Making(w.stores, w.tasks[id].phase, u, sid)
  }

  ghost predicate Known(w: World, u: User, sid: SessionId)
    requires sid in w.stores.redis.sessions
  {
    Listed(w.stores.redis, w.stores.now, sid) || BeingMade(w, u, sid) || BeingEnded(w, sid)
  }

  predicate Clearing(p: Phase, u: User) {
    (p.Dropping? || p.DroppingIndex?) && p.user == u
  }

  /** Every live session of `u` is in an index that outlives it, still being made or being ended by a logout. */
  ghost predicate Tracked(c: Config, w: World, u: User) {
    && Lifetimes(w.stores.redis, w.stores.now, c.sessionTtl)
    && (forall sid :: LiveOf(w.stores, u, sid) ==> Known(w, u, sid))
    && (forall id :: id in w.tasks ==> !Clearing(w.tasks[id].phase, u))
  }

  // ----- Interleaved sign-ins and logouts -----

  /** Only a sign-in that waits to renew the index makes the session known. */
  ghost predicate Exposed(w: World, u: User, sid: SessionId) {
    && LiveOf(w.stores, u, sid) && !Listed(w.stores.redis, w.stores.now, sid) && !BeingEnded(w, sid)
    && forall id :: id in w.tasks && w.tasks[id].phase.Indexing? ==>
         w.tasks[id].phase.user != u || w.tasks[id].phase.sid != sid
  }

  /**
   * No index of `u` runs out between a sign-in adding a session to it and renewing it, unless the session is over by
   * then too; and no deletion of `u` lists its sessions.
   */
  ghost predicate Calm(w: World, e: Event, u: User) {
    match e
    case Tick(delta) =>
      forall sid :: Exposed(w, u, sid) && Live(w.stores.redis, w.stores.now + delta, sid) ==>
        HasIndex(w.stores.redis, w.stores.now + delta, u)
    case Act(id, _) => id in w.tasks ==> w.tasks[id].phase != Listing(u)
    case Start(_, _) => true
  }

  ghost predicate AllCalm(c: Config, w: World, evs: seq<Event>, u: User) {
    forall i: nat :: i < |evs| ==> Calm(Run(c, w, evs[..i]), evs[i], u)
  }

  /** A session that the step itself concerns. */
  lemma {:induction false} ActKnowsOwn(c: Config, w: World, id: nat, made: Made, u: User, sid: SessionId)
    requires id in w.tasks && Lifetimes(w.stores.redis, w.stores.now, c.sessionTtl)
    requires LiveOf(Next(c, w, Act(id, made)).stores, u, sid)
    requires var p := w.tasks[id].phase;
             (p.Storing? && sid == made.sid) || Making(w.stores, p, u, sid) || p == Unlisting(u, sid)
    ensures Known(Next(c, w, Act(id, made)), u, sid)
  {
    var x, p := Next(c, w, Act(id, made)), w.tasks[id].phase;
    assert p.Indexing? ==> Making(x.stores, x.tasks[id].phase, u, sid);
    assert p.Storing? ==> Making(x.stores, x.tasks[id].phase, u, sid);
    assert p.Unlisting? ==> x.tasks[id].phase == Ending(sid);
  }

  /** Any other session keeps what it had. */
  lemma {:induction false} ActKnowsOther(c: Config, w: World, id: nat, made: Made, u: User, sid: SessionId)
    requires Tracked(c, w, u) && id in w.tasks && w.tasks[id].phase != Listing(u)
    requires LiveOf(Next(c, w, Act(id, made)).stores, u, sid)
    requires var p := w.tasks[id].phase;
             !(p.Storing? && sid == made.sid) && !Making(w.stores, p, u, sid) && p != Unlisting(u, sid)
    ensures Known(Next(c, w, Act(id, made)), u, sid)
  {
    var x, p := Next(c, w, Act(id, made)), w.tasks[id].phase;
    assert LiveOf(w.stores, u, sid) && Known(w, u, sid) && x.stores.redis.sessions[sid] == w.stores.redis.sessions[sid];
    if Listed(w.stores.redis, w.stores.now, sid) {
      ListedStays(c, w, id, made, u, sid);
    } else if BeingMade(w, u, sid) {
      var k :| k in w.tasks && Making(w.stores, w.tasks[k].phase, u, sid);
      assert x.tasks[k] == w.tasks[k];
      if w.tasks[k].phase.Expiring? {
        IndexStays(c, w, id, made, u, sid);
      }
    } else {
      var k :| k in w.tasks && w.tasks[k].phase == Ending(sid);
      assert x.tasks[k] == w.tasks[k];
    }
  }

  lemma {:induction false} IndexStays(c: Config, w: World, id: nat, made: Made, u: User, sid: SessionId)
    requires id in w.tasks && !Clearing(w.tasks[id].phase, u) && w.tasks[id].phase != Unlisting(u, sid)
    requires InIndex(w.stores.redis, w.stores.now, u, sid)
    ensures var x := Next(c, w, Act(id, made)); InIndex(x.stores.redis, x.stores.now, u, sid)
  {
  }

  lemma {:induction false} ListedStays(c: Config, w: World, id: nat, made: Made, u: User, sid: SessionId)
    requires Lifetimes(w.stores.redis, w.stores.now, c.sessionTtl)
    requires id in w.tasks && !Clearing(w.tasks[id].phase, u) && w.tasks[id].phase != Unlisting(u, sid)
    requires LiveOf(w.stores, u, sid) && Listed(w.stores.redis, w.stores.now, sid)
    requires var r := Next(c, w, Act(id, made)).stores.redis;
             sid in r.sessions && r.sessions[sid] == w.stores.redis.sessions[sid]
    ensures var x := Next(c, w, Act(id, made)); Listed(x.stores.redis, x.stores.now, sid)
  {
  }

  lemma {:induction false} ActTracks(c: Config, w: World, id: nat, made: Made, u: User)
    requires Tracked(c, w, u) && id in w.tasks && w.tasks[id].phase != Listing(u)
    ensures Tracked(c, Next(c, w, Act(id, made)), u)
  {
    var x, p := Next(c, w, Act(id, made)), w.tasks[id].phase;
    ActKeepsLifetimes(c, w, id, made);
    forall sid | LiveOf(x.stores, u, sid) ensures Known(x, u, sid) {
      if (p.Storing? && sid == made.sid) || Making(w.stores, p, u, sid) || p == Unlisting(u, sid) {
        ActKnowsOwn(c, w, id, made, u, sid);
      } else {
        ActKnowsOther(c, w, id, made, u, sid);
      }
    }
  }

  lemma {:induction false} ActKeepsLifetimes(c: Config, w: World, id: nat, made: Made)
    requires id in w.tasks && Lifetimes(w.stores.redis, w.stores.now, c.sessionTtl)
    ensures Lifetimes(Next(c, w, Act(id, made)).stores.redis, w.stores.now, c.sessionTtl)
  {
  }

  lemma {:induction false} TickKnowsIff(w: World, c: Config, delta: nat, u: User, sid: SessionId)
    requires Tracked(c, w, u) && LiveOf(Next(c, w, Tick(delta)).stores, u, sid)
    ensures Known(Next(c, w, Tick(delta)), u, sid) <==>
            Exposed(w, u, sid) ==> HasIndex(w.stores.redis, w.stores.now + delta, u)
  {
    var x := Next(c, w, Tick(delta));
    assert LiveOf(w.stores, u, sid) && Known(w, u, sid);
    assert Listed(w.stores.redis, w.stores.now, sid) <==> Listed(x.stores.redis, x.stores.now, sid);
    assert BeingEnded(w, sid) <==> BeingEnded(x, sid);
    if BeingMade(w, u, sid) {
      var k :| k in w.tasks && Making(w.stores, w.tasks[k].phase, u, sid);
      assert w.tasks[k].phase.Indexing? || HasIndex(x.stores.redis, x.stores.now, u) ==>
          Making(x.stores, x.tasks[k].phase, u, sid);
    }
    if k :| k in w.tasks && w.tasks[k].phase.Indexing? && w.tasks[k].phase.user == u && w.tasks[k].phase.sid == sid {
      assert Making(x.stores, x.tasks[k].phase, u, sid);
    }
  }

  lemma {:induction false} TickTracksIff(c: Config, w: World, delta: nat, u: User)
    requires Tracked(c, w, u)
    ensures Tracked(c, Next(c, w, Tick(delta)), u) <==> Calm(w, Tick(delta), u)
  {
    var x := Next(c, w, Tick(delta));
    forall sid | LiveOf(x.stores, u, sid)
      ensures Known(x, u, sid) <==> Exposed(w, u, sid) ==> HasIndex(w.stores.redis, w.stores.now + delta, u)
    {
      TickKnowsIff(w, c, delta, u, sid);
    }
    hide Known, Exposed, HasIndex;
  }

  lemma {:induction false} StartTracks(c: Config, w: World, id: nat, req: Request, u: User)
    requires Tracked(c, w, u)
    ensures Tracked(c, Next(c, w, Start(id, req)), u)
  {
    var x := Next(c, w, Start(id, req));
    forall sid | LiveOf(x.stores, u, sid) ensures Known(x, u, sid) {
      assert Known(w, u, sid);
      if k :| k in w.tasks && (Making(w.stores, w.tasks[k].phase, u, sid) || w.tasks[k].phase == Ending(sid)) {
        assert x.tasks[k] == w.tasks[k];
      }
    }
  }

  lemma {:induction false} StepTracksIff(c: Config, w: World, e: Event, u: User)
    requires Tracked(c, w, u)
    ensures Tracked(c, Next(c, w, e), u) <==> Calm(w, e, u)
  {
    match e
    case Tick(delta) => TickTracksIff(c, w, delta, u);
    case Act(id, made) =>
      if id in w.tasks {
        if w.tasks[id].phase == Listing(u) {
          assert Clearing(Next(c, w, e).tasks[id].phase, u);
        } else {
          ActTracks(c, w, id, made, u);
        }
      }
    case Start(id, req) => StartTracks(c, w, id, req, u);
  }

  /** No interleaving of sign-ins and logouts loses a session. */
  lemma {:induction false} SessionsAreTracked(c: Config, w: World, evs: seq<Event>, u: User)
    requires Tracked(c, w, u) && AllCalm(c, w, evs, u)
    ensures Tracked(c, Run(c, w, evs), u)
    decreases |evs|
  {
    if evs != [] {
      var n := |evs| - 1;
      var front := evs[..n];
      assert Calm(Run(c, w, evs[..n]), evs[n], u);
      forall i: nat | i < n ensures Calm(Run(c, w, front[..i]), front[i], u) {
        assert front[..i] == evs[..i];
      }
      SessionsAreTracked(c, w, front, u);
      StepTracksIff(c, Run(c, w, front), evs[n], u);
    }
  }

  /** Over every run: the sessions of `u` are tracked at every point exactly when every event is calm. */
  lemma {:induction false} TrackedThroughoutIff(c: Config, w: World, evs: seq<Event>, u: User)
    requires Tracked(c, w, u)
    ensures (forall i: nat :: i <= |evs| ==> Tracked(c, Run(c, w, evs[..i]), u)) <==> AllCalm(c, w, evs, u)
  {
    hide Tracked, Calm;
    if AllCalm(c, w, evs, u) {
      forall i: nat | i <= |evs| ensures Tracked(c, Run(c, w, evs[..i]), u) {
        forall j: nat | j < i ensures Calm(Run(c, w, evs[..i][..j]), evs[..i][j], u) {
          assert evs[..i][..j] == evs[..j];
        }
        SessionsAreTracked(c, w, evs[..i], u);
      }
    }
    if forall i: nat :: i <= |evs| ==> Tracked(c, Run(c, w, evs[..i]), u) {
      forall i: nat | i < |evs| ensures Calm(Run(c, w, evs[..i]), evs[i], u) {
        assert evs[..i + 1][..i] == evs[..i];
        assert Run(c, w, evs[..i + 1]) == Next(c, Run(c, w, evs[..i]), evs[i]);
        StepTracksIff(c, Run(c, w, evs[..i]), evs[i], u);
      }
    }
  }

  // ----- The deletion, step by step -----

  ghost predicate NoneInFlight(w: World, u: User) {
    forall id :: id in w.tasks ==> !InFlight(w.tasks[id].phase, u)
  }

  ghost predicate NoneValid(s: Stores, u: User) {
    forall h :: h in s.tokens && s.tokens[h].user == u ==> s.tokens[h].revoked
  }

  ghost predicate NoneLive(s: Stores, u: User) {
    forall sid :: !LiveOf(s, u, sid)
  }

  /** The only live sessions are those a logout has taken from the index and not yet deleted. */
  ghost predicate OnlyBeingEnded(w: World, u: User) {
    forall sid :: LiveOf(w.stores, u, sid) ==> BeingEnded(w, sid)
  }

  /** A deletion that has read the index has seen every live session that no logout is ending. */
  ghost predicate Seen(w: World, p: Phase, u: User) {
    && (p.Dropping? && p.user == u ==> forall sid :: LiveOf(w.stores, u, sid) ==> sid in p.ids || BeingEnded(w, sid))
    && (p == DroppingIndex(u) ==> OnlyBeingEnded(w, u))
  }

  ghost predicate Closing(w: World, u: User) {
    && (forall sid :: LiveOf(w.stores, u, sid) ==> Listed(w.stores.redis, w.stores.now, sid) || BeingEnded(w, sid))
    && (forall id :: id in w.tasks ==> Seen(w, w.tasks[id].phase, u))
  }

  /** What the deletion `d` of `u` has achieved when it gets to each of its phases. */
  ghost predicate Achieved(w: World, d: nat, u: User) {
    && d in w.tasks && w.tasks[d].req == DeleteAccount(u)
    && match w.tasks[d].phase
       case RevokingAll(v) => v == u
       case Listing(v) => v == u && NoneValid(w.stores, u)
       case Dropping(v, _) => v == u && NoneValid(w.stores, u)
       case DroppingIndex(v) => v == u && NoneValid(w.stores, u) && OnlyBeingEnded(w, u)
       case Succeeded(_) => NoneValid(w.stores, u) && OnlyBeingEnded(w, u)
       case _ => false
  }

  lemma {:induction false} NoNewByAct(c: Config, w: World, id: nat, made: Made, u: User, sid: SessionId)
    requires id in w.tasks && !InFlight(w.tasks[id].phase, u)
    requires LiveOf(Writes(c, w.stores, w.tasks[id], made), u, sid)
    ensures sid in w.stores.redis.sessions
    ensures w.stores.redis.sessions[sid] == Writes(c, w.stores, w.tasks[id], made).redis.sessions[sid]
    ensures w.stores.now == Writes(c, w.stores, w.tasks[id], made).now
  {
  }

  /** Without sign-ins in flight the account gets no new session. */
  lemma {:induction false} NoNewSessions(c: Config, w: World, e: Event, u: User, sid: SessionId)
    requires NoneInFlight(w, u) && LiveOf(Next(c, w, e).stores, u, sid)
    ensures LiveOf(w.stores, u, sid) && w.stores.redis.sessions[sid] == Next(c, w, e).stores.redis.sessions[sid]
  {
    if e.Act? && e.id in w.tasks {
      NoNewByAct(c, w, e.id, e.made, u, sid);
      hide Writes;
    }
  }

  /** A logout stays between its two steps until the session is gone. */
  lemma {:induction false} StaysBeingEnded(c: Config, w: World, e: Event, u: User, sid: SessionId)
    requires BeingEnded(w, sid) && LiveOf(Next(c, w, e).stores, u, sid) && NoneInFlight(w, u)
    ensures BeingEnded(Next(c, w, e), sid)
  {
    var k :| k in w.tasks && w.tasks[k].phase == Ending(sid);
    assert k in Next(c, w, e).tasks && Next(c, w, e).tasks[k].phase == Ending(sid);
  }

  lemma {:induction false} StepStaysOut(c: Config, w: World, e: Event, u: User)
    requires Barred(w, u) && NoneInFlight(w, u)
    ensures NoneInFlight(Next(c, w, e), u)
  {
  }

  lemma {:induction false} StepKeepsNoneValid(c: Config, w: World, e: Event, u: User)
    requires NoneInFlight(w, u) && NoneValid(w.stores, u)
    ensures NoneValid(Next(c, w, e).stores, u)
  {
  }

  lemma {:induction false} StepKeepsOnlyBeingEnded(c: Config, w: World, e: Event, u: User)
    requires NoneInFlight(w, u) && OnlyBeingEnded(w, u)
    ensures OnlyBeingEnded(Next(c, w, e), u)
  {
    hide Next;
    forall sid | LiveOf(Next(c, w, e).stores, u, sid) ensures BeingEnded(Next(c, w, e), sid) {
      NoNewSessions(c, w, e, u, sid);
      StaysBeingEnded(c, w, e, u, sid);
    }
  }

  /** A listed session stays listed, or a logout has just taken it from the index. */
  lemma {:induction false} ListedOrEnded(c: Config, w: World, e: Event, u: User, sid: SessionId)
    requires LiveOf(w.stores, u, sid) && Listed(w.stores.redis, w.stores.now, sid)
    requires NoneInFlight(w, u) && Closing(w, u) && LiveOf(Next(c, w, e).stores, u, sid)
    ensures Listed(Next(c, w, e).stores.redis, Next(c, w, e).stores.now, sid) || BeingEnded(Next(c, w, e), sid)
  {
    var x := Next(c, w, e);
    if e.Act? && e.id in w.tasks && w.tasks[e.id].phase == Unlisting(u, sid) {
      assert x.tasks[e.id].phase == Ending(sid);
    } else if e.Act? && e.id in w.tasks && w.tasks[e.id].phase == DroppingIndex(u) {
      assert Seen(w, w.tasks[e.id].phase, u);
      StaysBeingEnded(c, w, e, u, sid);
    }
  }

  lemma {:induction false} StepKeepsListed(c: Config, w: World, e: Event, u: User, sid: SessionId)
    requires NoneInFlight(w, u) && Closing(w, u) && LiveOf(Next(c, w, e).stores, u, sid)
    ensures Listed(Next(c, w, e).stores.redis, Next(c, w, e).stores.now, sid) || BeingEnded(Next(c, w, e), sid)
  {
    NoNewSessions(c, w, e, u, sid);
    if Listed(w.stores.redis, w.stores.now, sid) {
      ListedOrEnded(c, w, e, u, sid);
    } else {
      StaysBeingEnded(c, w, e, u, sid);
    }
  }

  lemma {:induction false} StepKeepsSeen(c: Config, w: World, e: Event, u: User, id: nat)
    requires NoneInFlight(w, u) && Closing(w, u) && id in Next(c, w, e).tasks
    ensures Seen(Next(c, w, e), Next(c, w, e).tasks[id].phase, u)
  {
    var x := Next(c, w, e);
    var q := x.tasks[id].phase;
    assert id in w.tasks ==> Seen(w, w.tasks[id].phase, u);
    if (q.Dropping? && q.user == u) || q == DroppingIndex(u) {
      forall sid | LiveOf(x.stores, u, sid) ensures (q.Dropping? && sid in q.ids) || BeingEnded(x, sid) {
        NoNewSessions(c, w, e, u, sid);
        if BeingEnded(w, sid) {
          StaysBeingEnded(c, w, e, u, sid);
        }
      }
    }
  }

  lemma {:induction false} StepCloses(c: Config, w: World, e: Event, u: User)
    requires NoneInFlight(w, u) && Closing(w, u)
    ensures Closing(Next(c, w, e), u)
  {
    hide Next, Seen;
    var x := Next(c, w, e);
    forall sid | LiveOf(x.stores, u, sid)
      ensures Listed(x.stores.redis, x.stores.now, sid) || BeingEnded(x, sid)
    {
      StepKeepsListed(c, w, e, u, sid);
    }
    forall id | id in x.tasks ensures Seen(x, x.tasks[id].phase, u) {
      StepKeepsSeen(c, w, e, u, id);
    }
  }

  lemma {:induction false} StepAchieves(c: Config, w: World, e: Event, d: nat, u: User)
    requires Barred(w, u) && NoneInFlight(w, u) && Closing(w, u) && Achieved(w, d, u)
    ensures Achieved(Next(c, w, e), d, u)
  {
    StepStaysOut(c, w, e, u);
    StepCloses(c, w, e, u);
    if OnlyBeingEnded(w, u) {
      StepKeepsOnlyBeingEnded(c, w, e, u);
    }
    if NoneValid(w.stores, u) {
      StepKeepsNoneValid(c, w, e, u);
    }
    assert Seen(w, w.tasks[d].phase, u);
    assert Seen(Next(c, w, e), Next(c, w, e).tasks[d].phase, u);
    hide Closing, OnlyBeingEnded, NoneInFlight, Barred, Seen;
  }

  /**
   * A deletion with no sign-in of the account past the role check: from its end on, the account has no valid token,
   * and no live session but one that a logout has taken from the index and is about to delete.
   */
  lemma {:induction false} DeletionIsFinal(c: Config, w: World, evs: seq<Event>, d: nat, u: User)
    requires Barred(w, u) && NoneInFlight(w, u) && Closing(w, u) && NoGrants(evs, u) && Achieved(w, d, u)
    ensures var x := Run(c, w, evs);
            && Barred(x, u) && NoneInFlight(x, u) && Closing(x, u) && Achieved(x, d, u)
    decreases |evs|
  {
    if evs != [] {
      var n := |evs| - 1;
      DeletionIsFinal(c, w, evs[..n], d, u);
      var y := Run(c, w, evs[..n]);
      StepStaysBarred(c, y, evs[n], u);
      StepStaysOut(c, y, evs[n], u);
      StepCloses(c, y, evs[n], u);
      StepAchieves(c, y, evs[n], d, u);
      hide Barred, NoneInFlight, Closing, Achieved, Next;
    }
  }

  lemma {:induction false} TrackedCloses(c: Config, w: World, u: User)
    requires Tracked(c, w, u) && NoneInFlight(w, u)
    ensures Closing(w, u)
  {
    forall sid | LiveOf(w.stores, u, sid)
      ensures Listed(w.stores.redis, w.stores.now, sid) || BeingEnded(w, sid)
    {
      assert Known(w, u, sid);
    }
  }

  // ----- What a sign-in past the role check leaves behind -----

  /** From the revoking of its tokens to its end, a deletion that nothing interrupts. */
  lemma {:induction false} DeletionCompletes(c: Config, w: World, d: nat, u: User, made: Made)
    requires d in w.tasks && w.tasks[d] == Task(DeleteAccount(u), RevokingAll(u))
    ensures var x := Run(c, w, Steps(d, made, 4));
            && x.tasks == w.tasks[d := Task(DeleteAccount(u), Succeeded(u))]
            && x.stores.now == w.stores.now && x.stores.users == w.stores.users
            && x.stores.tokens == AllRevoked(w.stores.tokens, u)
            && x.stores.redis == AllDeleted(w.stores.redis, u, w.stores.now)
  {
    StepsFirst(c, w, d, made, 4);
    var w1 := Next(c, w, Act(d, made));
    assert w1.tasks == w.tasks[d := Task(DeleteAccount(u), Listing(u))];
    ListingCompletes(c, w1, d, u, made);
  }

  lemma {:induction false} ListingCompletes(c: Config, w: World, d: nat, u: User, made: Made)
    requires d in w.tasks && w.tasks[d] == Task(DeleteAccount(u), Listing(u))
    ensures var x := Run(c, w, Steps(d, made, 3));
            && x.tasks == w.tasks[d := Task(DeleteAccount(u), Succeeded(u))]
            && x.stores == w.stores.(redis := AllDeleted(w.stores.redis, u, w.stores.now))
  {
    var ids := SMembers(w.stores.redis, w.stores.now, u);
    StepsFirst(c, w, d, made, 3);
    var w1 := Next(c, w, Act(d, made));
    assert w1 == World(w.stores, w.tasks[d := Task(DeleteAccount(u), Dropping(u, ids))]);
    StepsFirst(c, w1, d, made, 2);
    var w2 := Next(c, w1, Act(d, made));
    assert w2.tasks == w.tasks[d := Task(DeleteAccount(u), DroppingIndex(u))];
    StepsFirst(c, w2, d, made, 1);
    assert Run(c, Next(c, w2, Act(d, made)), Steps(d, made, 0)) == Next(c, w2, Act(d, made));
  }

  /**
   * Exactly what a sign-in `a` past the role check leaves behind when the deletion runs to its end before it: always
   * its token; its session if that was still to be written, or was written and not in the index when the deletion
   * read it.
   */
  lemma {:induction false} SignInOutlivesDeletion(c: Config, w: World, a: nat, d: nat, u: User, made: Made)
    requires d in w.tasks && w.tasks[d] == Task(DeleteAccount(u), RevokingAll(u))
    requires a in w.tasks && InFlight(w.tasks[a].phase, u) && Sound(w.tasks[a]) && made.token !in w.stores.tokens
    ensures var x := Run(c, w, Steps(d, made, 4) + Steps(a, made, Left(w.tasks[a].phase)));
            var p, members := w.tasks[a].phase, SMembers(w.stores.redis, w.stores.now, u);
            && x.tasks == w.tasks[d := Task(DeleteAccount(u), Succeeded(u))][a := w.tasks[a].(phase := Succeeded(u))]
            && x.stores.users == w.stores.users && x.stores.now == w.stores.now
            && made.token in x.stores.tokens
            && x.stores.tokens[made.token] == Token(u, Until(c, w.stores.now, p), false)
            && forall sid :: LiveOf(x.stores, u, sid) <==>
                 || (sid == made.sid && (p.RevokingToken? || p.Storing?))
                 || (LiveOf(w.stores, u, sid) && sid !in members)
  {
    hide Next, Run, Steps;
    DeletionCompletes(c, w, d, u, made);
    var y := Run(c, w, Steps(d, made, 4));
    SignInFinishes(c, y, a, u, made);
    RunMore(c, w, Steps(d, made, 4), Steps(a, made, Left(w.tasks[a].phase)));
  }

  /** There is always a token hash that no row has. */
  lemma {:induction false} FreshToken(hs: set<TokenHash>) returns (h: TokenHash)
    ensures h !in hs
  {
    var n := LongerThan(hs);
    h := TokenHash(seq(n, _ => 'a'));
    assert |h.text| == n;
  }

  lemma {:induction false} LongerThan(hs: set<TokenHash>) returns (n: nat)
    ensures forall h :: h in hs ==> |h.text| < n
    decreases |hs|
  {
    n := 0;
    if hs != {} {
      var h :| h in hs;
      var m := LongerThan(hs - {h});
      n := if |h.text| < m then m else |h.text| + 1;
      assert hs == (hs - {h}) + {h};
    }
  }

  // ----- When deletion is final -----

  /** Every continuation that gives the account no role again and in which `d` succeeds. */
  ghost predicate Ends(c: Config, w: World, evs: seq<Event>, d: nat, u: User) {
    NoGrants(evs, u) && d in Run(c, w, evs).tasks && Run(c, w, evs).tasks[d].phase == Succeeded(u)
  }

  ghost predicate LeavesNothing(w: World, u: User) {
    NoneValid(w.stores, u) && OnlyBeingEnded(w, u)
  }

  /**
   * Once an account is soft-deleted, with its sessions tracked: however the run goes on, the finished deletion leaves
   * no valid token and no live session but those that logouts are ending, exactly when no sign-in of the account is
   * past the role check.
   */
  lemma {:induction false} DeletionFinalIff(c: Config, w: World, d: nat, u: User)
    requires Barred(w, u) && Tracked(c, w, u)
    requires d in w.tasks && w.tasks[d] == Task(DeleteAccount(u), RevokingAll(u))
    ensures (forall evs :: Ends(c, w, evs, d, u) ==> LeavesNothing(Run(c, w, evs), u)) <==> NoneInFlight(w, u)
  {
    hide Next, Run, Steps, Barred, Tracked;
    if NoneInFlight(w, u) {
      TrackedCloses(c, w, u);
      forall evs | Ends(c, w, evs, d, u) ensures LeavesNothing(Run(c, w, evs), u) {
        DeletionIsFinal(c, w, evs, d, u);
      }
    } else {
      var evs := TokenLeft(c, w, d, u);
    }
  }

  lemma {:induction false} TokenLeft(c: Config, w: World, d: nat, u: User) returns (evs: seq<Event>)
    requires Barred(w, u) && !NoneInFlight(w, u)
    requires d in w.tasks && w.tasks[d] == Task(DeleteAccount(u), RevokingAll(u))
    ensures Ends(c, w, evs, d, u) && !LeavesNothing(Run(c, w, evs), u)
  {
    var a :| a in w.tasks && InFlight(w.tasks[a].phase, u);
    var h := FreshToken(w.stores.tokens.Keys);
    var made := Made(SessionId(""), h);
    evs := Steps(d, made, 4) + Steps(a, made, Left(w.tasks[a].phase));
    assert NoGrants(evs, u);
    SignInOutlivesDeletion(c, w, a, d, u, made);
    hide Run, Steps, Next;
    var x := Run(c, w, evs);
    assert x.stores.tokens[h].user == u && !x.stores.tokens[h].revoked;
  }

  /** No logout has taken a live session of `u` from the index without deleting it yet. */
  ghost predicate NoneBeingEnded(w: World, u: User) {
    forall sid :: LiveOf(w.stores, u, sid) && BeingEnded(w, sid) ==> InIndex(w.stores.redis, w.stores.now, u, sid)
  }

  /** A deletion that saw all live sessions leaves none at all. */
  ghost predicate SeenAll(w: World, d: nat, u: User) {
    && d in w.tasks && w.tasks[d].req == DeleteAccount(u)
    && match w.tasks[d].phase
       case Dropping(v, ids) => v == u && forall sid :: LiveOf(w.stores, u, sid) ==> sid in ids
       case DroppingIndex(v) => v == u && NoneLive(w.stores, u)
       case Succeeded(v) => NoneLive(w.stores, u)
       case _ => false
  }

  lemma {:induction false} StepKeepsSeenAll(c: Config, w: World, e: Event, d: nat, u: User)
    requires NoneInFlight(w, u) && SeenAll(w, d, u)
    ensures SeenAll(Next(c, w, e), d, u)
  {
    var x := Next(c, w, e);
    forall sid | LiveOf(x.stores, u, sid)
      ensures LiveOf(w.stores, u, sid) && w.tasks[d].phase.Dropping? && x.tasks[d].phase == w.tasks[d].phase
    {
      NoNewSessions(c, w, e, u, sid);
    }
  }

  lemma {:induction false} SeenAllStays(c: Config, w: World, evs: seq<Event>, d: nat, u: User)
    requires Barred(w, u) && NoneInFlight(w, u) && NoneValid(w.stores, u) && SeenAll(w, d, u) && NoGrants(evs, u)
    ensures var x := Run(c, w, evs);
            Barred(x, u) && NoneInFlight(x, u) && NoneValid(x.stores, u) && SeenAll(x, d, u)
    decreases |evs|
  {
    if evs != [] {
      var n := |evs| - 1;
      SeenAllStays(c, w, evs[..n], d, u);
      var y := Run(c, w, evs[..n]);
      StepStaysBarred(c, y, evs[n], u);
      StepStaysOut(c, y, evs[n], u);
      StepKeepsNoneValid(c, y, evs[n], u);
      StepKeepsSeenAll(c, y, evs[n], d, u);
      hide Barred, NoneInFlight, NoneValid, SeenAll, Next;
    }
  }

  /** The continuations in which the deletion reads the index now. */
  ghost predicate ListsNow(evs: seq<Event>, d: nat) {
    evs != [] && evs[0].Act? && evs[0].id == d
  }

  lemma {:induction false} RunFirst(c: Config, w: World, evs: seq<Event>)
    requires evs != []
    ensures Run(c, w, evs) == Run(c, Next(c, w, evs[0]), evs[1..])
  {
    assert evs == [evs[0]] + evs[1..];
    RunMore(c, w, [evs[0]], evs[1..]);
    RunOne(c, w, evs[0]);
  }

  /**
   * When the deletion reads the index, its tokens revoked: however the run goes on, it leaves no live session and no
   * valid token at all exactly when no sign-in of the account is past the role check and no logout is between taking a
   * live session of it from the index and deleting that.
   */
  lemma {:induction false} ListingFinalIff(c: Config, w: World, d: nat, u: User)
    requires Barred(w, u) && Tracked(c, w, u) && NoneValid(w.stores, u)
    requires d in w.tasks && w.tasks[d] == Task(DeleteAccount(u), Listing(u))
    ensures (forall evs :: ListsNow(evs, d) && Ends(c, w, evs, d, u) ==>
               NoneValid(Run(c, w, evs).stores, u) && NoneLive(Run(c, w, evs).stores, u))
            <==> NoneInFlight(w, u) && NoneBeingEnded(w, u)
  {
    if NoneInFlight(w, u) && NoneBeingEnded(w, u) {
      AllMembers(c, w, u);
      forall evs | ListsNow(evs, d) && Ends(c, w, evs, d, u)
        ensures NoneValid(Run(c, w, evs).stores, u) && NoneLive(Run(c, w, evs).stores, u)
      {
        var x := Next(c, w, evs[0]);
        assert SeenAll(x, d, u);
        StepStaysBarred(c, w, evs[0], u);
        RunFirst(c, w, evs);
        SeenAllStays(c, x, evs[1..], d, u);
        hide Run, Next;
      }
    } else {
      var evs := SomethingLeft(c, w, d, u);
    }
  }

  lemma {:induction false} AllMembers(c: Config, w: World, u: User)
    requires Tracked(c, w, u) && NoneInFlight(w, u) && NoneBeingEnded(w, u)
    ensures forall sid :: LiveOf(w.stores, u, sid) ==> sid in SMembers(w.stores.redis, w.stores.now, u)
  {
    TrackedCloses(c, w, u);
  }

  lemma {:induction false} SomethingLeft(c: Config, w: World, d: nat, u: User) returns (evs: seq<Event>)
    requires AllSound(w) && (!NoneInFlight(w, u) || !NoneBeingEnded(w, u))
    requires d in w.tasks && w.tasks[d] == Task(DeleteAccount(u), Listing(u))
    ensures ListsNow(evs, d) && Ends(c, w, evs, d, u)
    ensures !NoneValid(Run(c, w, evs).stores, u) || !NoneLive(Run(c, w, evs).stores, u)
  {
    hide Run, Next, AllSound, Ends, ListsNow, NoneValid, NoneLive;
    if a :| a in w.tasks && InFlight(w.tasks[a].phase, u) {
      evs := TokenLeftAfterListing(c, w, a, d, u);
    } else {
      var sid :| LiveOf(w.stores, u, sid) && BeingEnded(w, sid) && !InIndex(w.stores.redis, w.stores.now, u, sid);
      evs := SessionLeft(c, w, d, u, sid);
    }
  }

  lemma {:induction false} TokenLeftAfterListing(c: Config, w: World, a: nat, d: nat, u: User) returns (evs: seq<Event>)
    requires AllSound(w) && a in w.tasks && InFlight(w.tasks[a].phase, u)
    requires d in w.tasks && w.tasks[d] == Task(DeleteAccount(u), Listing(u))
    ensures ListsNow(evs, d) && Ends(c, w, evs, d, u) && !NoneValid(Run(c, w, evs).stores, u)
  {
    var h := FreshToken(w.stores.tokens.Keys);
    var made := Made(SessionId(""), h);
    assert Sound(w.tasks[a]);
    var first, second := Steps(d, made, 3), Steps(a, made, Left(w.tasks[a].phase));
    evs := first + second;
    assert evs[0] == Act(d, made);
    hide Run, Next, Steps;
    ListingCompletes(c, w, d, u, made);
    var x := Run(c, w, first);
    SignInFinishes(c, x, a, u, made);
    RunMore(c, w, first, second);
    var y := Run(c, x, second);
    assert h in y.stores.tokens && y.stores.tokens[h].user == u && !y.stores.tokens[h].revoked;
  }

  lemma {:induction false} SessionLeft(c: Config, w: World, d: nat, u: User, sid: SessionId) returns (evs: seq<Event>)
    requires LiveOf(w.stores, u, sid) && !InIndex(w.stores.redis, w.stores.now, u, sid)
    requires d in w.tasks && w.tasks[d] == Task(DeleteAccount(u), Listing(u))
    ensures ListsNow(evs, d) && Ends(c, w, evs, d, u) && !NoneLive(Run(c, w, evs).stores, u)
  {
    var made := Made(sid, TokenHash(""));
    evs := Steps(d, made, 3);
    assert evs[0] == Act(d, made);
    hide Run, Next, Steps;
    ListingCompletes(c, w, d, u, made);
    assert LiveOf(Run(c, w, evs).stores, u, sid);
  }

  // ----- From the start -----

  lemma {:induction false} SoundThroughout(c: Config, evs: seq<Event>)
    ensures AllSound(Run(c, START, evs))
    decreases |evs|
  {
    if evs != [] {
      SoundThroughout(c, evs[..|evs| - 1]);
      StepStaysSound(c, Run(c, START, evs[..|evs| - 1]), evs[|evs| - 1]);
    }
  }

  /** Nobody is about to give `u` a role. */
  ghost predicate NobodyGrants(w: World, u: User) {
    forall id :: id in w.tasks ==> !Grants(w.tasks[id].req, u)
  }

  /**
   * After any calm run from the start up to the soft delete of an account: the deletion leaves nothing behind, however
   * the run goes on, exactly when no sign-in of the account is past the role check at that moment.
   */
  lemma {:induction false} CleanDeletionIff(c: Config, before: seq<Event>, d: nat, u: User)
    requires AllCalm(c, START, before, u)
    requires var w := Run(c, START, before);
             && u in w.stores.users && !CanLogin(w.stores.users[u].role) && NobodyGrants(w, u)
             && d in w.tasks && w.tasks[d] == Task(DeleteAccount(u), RevokingAll(u))
    ensures var w := Run(c, START, before);
            (forall after :: Ends(c, w, after, d, u) ==> LeavesNothing(Run(c, w, after), u)) <==> NoneInFlight(w, u)
  {
    SoundThroughout(c, before);
    assert Tracked(c, START, u);
    SessionsAreTracked(c, START, before, u);
    DeletionFinalIff(c, Run(c, START, before), d, u);
  }

  /** It happens: a user registers, logs in and is deleted, and the login finishes last with a session and a token. */
  lemma {:induction false} DeletedUserSignedIn(c: Config, u: User, password: string, hash: string, made: Made)
    returns (evs: seq<Event>)
    requires c.verify(password, hash)
    ensures var x := Run(c, START, evs);
            && 1 in x.tasks && x.tasks[1].phase == Succeeded(u) && 2 in x.tasks && x.tasks[2].phase == Succeeded(u)
            && u in x.stores.users && x.stores.users[u].role == DELETED
            && LiveOf(x.stores, u, made.sid) && !NoneValid(x.stores, u)
  {
    hide Run, Steps;
    var e1, e2 := Registers(u, hash, made), [Start(1, Login(u, password)), Act(1, made)];
    var e3 := [Start(2, DeleteAccount(u)), Act(2, made), Act(2, made)];
    Registration(c, u, hash, made);
    var w1 := Run(c, START, e1);
    LoginStarts(c, w1, 1, u, password, made);
    RunMore(c, START, e1, e2);
    var w2 := Run(c, w1, e2);
    SoftDeletes(c, w2, 2, u, made);
    RunMore(c, START, e1 + e2, e3);
    var w3 := Run(c, w2, e3);
    SignInOutlivesDeletion(c, w3, 1, 2, u, made);
    var e4 := Steps(2, made, 4) + Steps(1, made, Left(w3.tasks[1].phase));
    RunMore(c, START, e1 + e2 + e3, e4);
    evs := e1 + e2 + e3 + e4;
    assert Run(c, START, evs).stores.tokens[made.token].user == u;
  }

  lemma {:induction false} SoftDeletes(c: Config, w: World, d: nat, u: User, made: Made)
    requires d !in w.tasks && u in w.stores.users
    ensures var x := Run(c, w, [Start(d, DeleteAccount(u)), Act(d, made), Act(d, made)]);
            && x.stores == w.stores.(users := WithRole(w.stores.users, u, DELETED))
            && x.tasks == w.tasks[d := Task(DeleteAccount(u), RevokingAll(u))]
  {
    RunThree(c, w, Start(d, DeleteAccount(u)), Act(d, made), Act(d, made));
    var w1 := Next(c, w, Start(d, DeleteAccount(u)));
    var w2 := Next(c, w1, Act(d, made));
    assert w2.tasks == w.tasks[d := Task(DeleteAccount(u), Updating(u, DELETED))];
  }

  /** And a logout that has taken the session from the index and goes no further leaves it live in a deleted account. */
  lemma {:induction false} LoggedOutSessionLives(c: Config, u: User, password: string, hash: string, made: Made)
    returns (evs: seq<Event>)
    requires c.verify(password, hash)
    ensures var x := Run(c, START, evs);
            && 2 in x.tasks && x.tasks[2].phase == Succeeded(u) && u in x.stores.users
            && x.stores.users[u].role == DELETED
            && 3 in x.tasks && x.tasks[3].phase == Ending(made.sid) && LiveOf(x.stores, u, made.sid)
  {
    hide Run, Steps;
    var e1 := SignUp(c, u, password, hash, made);
    var w1 := Run(c, START, e1);
    assert LiveOf(w1.stores, u, made.sid);
    var e2 := [Start(3, Logout(Some(made.sid), None)), Act(3, made), Act(3, made)];
    LogoutUnlists(c, w1, 3, u, made.sid, made);
    RunMore(c, START, e1, e2);
    var w2 := Run(c, w1, e2);
    UnlistedOutlives(c, w2, 2, u, made.sid, made);
    var e3, e4 := [Start(2, DeleteAccount(u)), Act(2, made), Act(2, made)], Steps(2, made, 4);
    RunMore(c, START, e1 + e2, e3 + e4);
    evs := e1 + e2 + (e3 + e4);
  }

  lemma {:induction false} UnlistedOutlives(c: Config, w: World, d: nat, u: User, sid: SessionId, made: Made)
    requires d !in w.tasks && u in w.stores.users
    requires LiveOf(w.stores, u, sid) && sid !in SMembers(w.stores.redis, w.stores.now, u)
    ensures var x := Run(c, w, [Start(d, DeleteAccount(u)), Act(d, made), Act(d, made)] + Steps(d, made, 4));
            && x.tasks == w.tasks[d := Task(DeleteAccount(u), Succeeded(u))]
            && u in x.stores.users && x.stores.users[u].role == DELETED && LiveOf(x.stores, u, sid)
  {
    hide Run, Steps, Next;
    var e := [Start(d, DeleteAccount(u)), Act(d, made), Act(d, made)];
    SoftDeletes(c, w, d, u, made);
    DeletionCompletes(c, Run(c, w, e), d, u, made);
    RunMore(c, w, e, Steps(d, made, 4));
  }

  lemma {:induction false} LogoutUnlists(c: Config, w: World, id: nat, u: User, sid: SessionId, made: Made)
    requires id !in w.tasks && LiveOf(w.stores, u, sid)
    ensures var x := Run(c, w, [Start(id, Logout(Some(sid), None)), Act(id, made), Act(id, made)]);
            && x.tasks == w.tasks[id := Task(Logout(Some(sid), None), Ending(sid))]
            && x.stores == w.stores.(redis := SRem(w.stores.redis, w.stores.now, u, sid))
            && LiveOf(x.stores, u, sid) && sid !in SMembers(x.stores.redis, x.stores.now, u)
  {
    RunThree(c, w, Start(id, Logout(Some(sid), None)), Act(id, made), Act(id, made));
    var w1 := Next(c, w, Start(id, Logout(Some(sid), None)));
    var w2 := Next(c, w1, Act(id, made));
    assert w2.tasks == w.tasks[id := Task(Logout(Some(sid), None), Unlisting(u, sid))];
  }
}
