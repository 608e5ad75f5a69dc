/** What each request to the auth service does when nothing interrupts it, and who is refused in any interleaving. */
module AuthRequests {
  import opened Prelude
  import opened AuthSessions
  import opened AuthTables
  import opened AuthRuns

  // ----- Refused in any interleaving -----

  lemma {:induction false} StepKeepsExpiry(c: Config, w: World, e: Event, h: TokenHash)
    requires h in w.stores.tokens
    ensures h in Next(c, w, e).stores.tokens
    ensures Next(c, w, e).stores.tokens[h].expires == w.stores.tokens[h].expires
    ensures Next(c, w, e).stores.now >= w.stores.now
  {
  }

  lemma {:induction false} StepRefusesExpired(c: Config, w: World, e: Event, h: TokenHash, id: nat)
    requires h in w.stores.tokens && w.stores.tokens[h].expires <= w.stores.now && NotValidated(w, id, h)
    ensures NotValidated(Next(c, w, e), id, h)
  {
  }

  /** A refresh that has not validated its token by the time the token expires never gets past that. */
  lemma {:induction false} ExpiredTokenStaysOut(c: Config, w: World, evs: seq<Event>, h: TokenHash, id: nat)
    requires h in w.stores.tokens && w.stores.tokens[h].expires <= w.stores.now && NotValidated(w, id, h)
    ensures var x := Run(c, w, evs);
            && h in x.stores.tokens && x.stores.tokens[h].expires == w.stores.tokens[h].expires
            && w.stores.now <= x.stores.now && NotValidated(x, id, h)
    decreases |evs|
  {
    if evs != [] {
      var n := |evs| - 1;
      ExpiredTokenStaysOut(c, w, evs[..n], h, id);
      StepKeepsExpiry(c, Run(c, w, evs[..n]), evs[n], h);
      StepRefusesExpired(c, Run(c, w, evs[..n]), evs[n], h, id);
      hide Next;
    }
  }

  /** The account exists with this password hash. */
  predicate HasHash(w: World, u: User, hash: string) {
    u in w.stores.users && w.stores.users[u].passwordHash == hash
  }

  predicate NotLoggedIn(w: World, id: nat, u: User, password: string) {
    id in w.tasks && w.tasks[id].req == Login(u, password) ==> w.tasks[id].phase in {Begin, Failed}
  }

  lemma {:induction false} StepRefusesPassword(c: Config, w: World, e: Event, u: User, password: string, hash: string,
                                               id: nat)
    requires HasHash(w, u, hash) && !c.verify(password, hash) && NotLoggedIn(w, id, u, password)
    ensures HasHash(Next(c, w, e), u, hash) && NotLoggedIn(Next(c, w, e), id, u, password)
  {
  }

  /** A login with a password that does not match never succeeds, and no request changes an account's password. */
  lemma {:induction false} WrongPasswordStaysOut(c: Config, w: World, evs: seq<Event>, u: User, password: string,
                                                 hash: string, id: nat)
    requires HasHash(w, u, hash) && !c.verify(password, hash) && NotLoggedIn(w, id, u, password)
    ensures HasHash(Run(c, w, evs), u, hash) && NotLoggedIn(Run(c, w, evs), id, u, password)
    decreases |evs|
  {
    if evs != [] {
      var n := |evs| - 1;
      WrongPasswordStaysOut(c, w, evs[..n], u, password, hash, id);
      StepRefusesPassword(c, Run(c, w, evs[..n]), evs[n], u, password, hash, id);
      hide Next;
    }
  }

  // ----- Uninterrupted requests -----

  /** The account exists and is neither banned nor deleted. */
  predicate Welcome(users: Users, u: User) {
    u in users && users[u].role != BANNED && users[u].role != DELETED
  }

  /** A login goes on exactly when the account may log in and the password matches; otherwise it fails. */
  lemma {:induction false} LoginDecides(c: Config, w: World, id: nat, u: User, password: string, made: Made)
    requires id !in w.tasks
    ensures var x := Run(c, w, [Start(id, Login(u, password)), Act(id, made)]);
            && x.stores == w.stores && id in x.tasks
            && x.tasks[id].phase == (if Welcome(w.stores.users, u) && c.verify(password, w.stores.users[u].passwordHash)
                                     then Storing(u, w.stores.users[u].role) else Failed)
  {
    RunTwo(c, w, Start(id, Login(u, password)), Act(id, made));
  }

  /** A whole login: a session for sessionTtl and a token for refreshTtl, both new; nothing else changes. */
  lemma {:induction false} LoginServed(c: Config, w: World, id: nat, u: User, password: string, made: Made)
    requires id !in w.tasks && Welcome(w.stores.users, u) && c.verify(password, w.stores.users[u].passwordHash)
    requires made.token !in w.stores.tokens
    ensures var x := Run(c, w, [Start(id, Login(u, password)), Act(id, made)] + Steps(id, made, 4));
            && id in x.tasks && x.tasks[id].phase == Succeeded(u)
            && x.stores.redis.sessions ==
               w.stores.redis.sessions[made.sid := Session(u, w.stores.users[u].role, w.stores.now + c.sessionTtl)]
            && made.token in x.stores.tokens
            && x.stores.tokens[made.token] == Token(u, w.stores.now + c.refreshTtl, false)
            && x.stores.users == w.stores.users
  {
    hide Run, Next, Steps;
    LoginDecides(c, w, id, u, password, made);
    var two := [Start(id, Login(u, password)), Act(id, made)];
    LoginStarts(c, w, id, u, password, made);
    SignInFinishes(c, Run(c, w, two), id, u, made);
    RunMore(c, w, two, Steps(id, made, 4));
  }

  /** A request with a session is served exactly while the session is live and its user welcome; nothing is written. */
  lemma {:induction false} ApiServedIff(c: Config, w: World, id: nat, sid: SessionId, made: Made)
    requires id !in w.tasks
    ensures var x := Run(c, w, [Start(id, Api(sid)), Act(id, made), Act(id, made)]);
            && x.stores == w.stores && id in x.tasks
            && (x.tasks[id].phase.Succeeded? <==>
                  && sid in w.stores.redis.sessions && w.stores.now <= w.stores.redis.sessions[sid].expires
                  && Welcome(w.stores.users, w.stores.redis.sessions[sid].user))
            && (x.tasks[id].phase.Succeeded? ==> x.tasks[id].phase.user == w.stores.redis.sessions[sid].user)
            && (!x.tasks[id].phase.Succeeded? ==> x.tasks[id].phase == Failed)
  {
    RunThree(c, w, Start(id, Api(sid)), Act(id, made), Act(id, made));
  }

  /** A refresh with a valid token of a welcome user: the old token is revoked, a new one and a session are there. */
  lemma {:induction false} RefreshServed(c: Config, w: World, id: nat, u: User, h: TokenHash, made: Made)
    requires id !in w.tasks && Welcome(w.stores.users, u) && made.token !in w.stores.tokens
    requires h in w.stores.tokens && w.stores.tokens[h].user == u
    requires !w.stores.tokens[h].revoked && w.stores.now < w.stores.tokens[h].expires
    requires AllSound(w)
    ensures var x := Run(c, w, [Start(id, Refresh(h)), Act(id, made)] + [Act(id, made)] + Steps(id, made, 5));
            && id in x.tasks && x.tasks[id].phase == Succeeded(u)
            && x.stores.redis.sessions ==
               w.stores.redis.sessions[made.sid := Session(u, w.stores.users[u].role, w.stores.now + c.sessionTtl)]
            && made.token in x.stores.tokens
            && x.stores.tokens[made.token] == Token(u, w.stores.now + c.refreshTtl, false)
            && h in x.stores.tokens && x.stores.tokens[h].revoked
  {
    hide Run, Next, Steps;
    var two, one, five := [Start(id, Refresh(h)), Act(id, made)], [Act(id, made)], Steps(id, made, 5);
    RefreshStarts(c, w, id, u, h, made);
    var w1 := Run(c, w, two);
    UseChecksRole(c, w1, id, u, h, made);
    RunMore(c, w, two, one);
    var w2 := Run(c, w1, one);
    SignInFinishes(c, w2, id, u, made);
    RunMore(c, w, two + one, five);
    RunRevokes(c, w, two + one + five, h, id);
    var x := Run(c, w2, five);
    assert Uses(x, id, h);
  }

  lemma {:induction false} UseChecksRole(c: Config, w: World, id: nat, u: User, h: TokenHash, made: Made)
    requires id in w.tasks && w.tasks[id] == Task(Refresh(h), ReadingUser(u)) && Welcome(w.stores.users, u)
    ensures Run(c, w, [Act(id, made)]) ==
            World(w.stores, w.tasks[id := Task(Refresh(h), RevokingToken(u, w.stores.users[u].role))])
  {
    RunOne(c, w, Act(id, made));
  }

  /** A refresh goes on exactly with a token that is neither revoked nor expired. */
  lemma {:induction false} RefreshDecides(c: Config, w: World, id: nat, h: TokenHash, made: Made)
    requires id !in w.tasks
    ensures var x := Run(c, w, [Start(id, Refresh(h)), Act(id, made)]);
            && x.stores == w.stores && id in x.tasks
            && x.tasks[id].phase == (if h in w.stores.tokens && !w.stores.tokens[h].revoked
                                        && w.stores.now < w.stores.tokens[h].expires
                                     then ReadingUser(w.stores.tokens[h].user) else Failed)
  {
    RunTwo(c, w, Start(id, Refresh(h)), Act(id, made));
  }

  /** A change of role reaches exactly that account, if it exists, and keeps its password. */
  lemma {:induction false} SetRoleServed(c: Config, w: World, id: nat, u: User, role: Role, made: Made)
    requires id !in w.tasks
    ensures var x := Run(c, w, [Start(id, SetRole(u, role)), Act(id, made), Act(id, made)]);
            && id in x.tasks && x.tasks[id].phase == (if u in w.stores.users then Succeeded(u) else Failed)
            && x.stores == (if u in w.stores.users
                            then w.stores.(users := w.stores.users[u := Account(w.stores.users[u].passwordHash, role)])
                            else w.stores)
  {
    RunThree(c, w, Start(id, SetRole(u, role)), Act(id, made), Act(id, made));
  }

  /** A registration creates a plain user under a free name, and fails on a taken one. */
  lemma {:induction false} RegisterServed(c: Config, w: World, id: nat, u: User, hash: string, made: Made)
    requires id !in w.tasks
    ensures var x := Run(c, w, [Start(id, Register(u, hash)), Act(id, made), Act(id, made)]);
            && id in x.tasks && x.tasks[id].phase == (if u in w.stores.users then Failed else Succeeded(u))
            && x.stores == (if u in w.stores.users then w.stores
                            else w.stores.(users := w.stores.users[u := Account(hash, USER)]))
  {
    RunThree(c, w, Start(id, Register(u, hash)), Act(id, made), Act(id, made));
  }

  /** Ends a logout that has yet to delete its session. */
  lemma {:induction false} LogoutEnds(c: Config, w: World, id: nat, sid: SessionId, dropped: Option<TokenHash>,
                                      made: Made)
    requires id in w.tasks && w.tasks[id] == Task(Logout(Some(sid), dropped), Ending(sid))
    ensures var x := Run(c, w, Steps(id, made, 2));
            && x.tasks == w.tasks[id := Task(Logout(Some(sid), dropped), Done)]
            && x.stores.redis == Redis(w.stores.redis.sessions - {sid}, w.stores.redis.index)
            && x.stores.users == w.stores.users && x.stores.now == w.stores.now
            && x.stores.tokens.Keys == w.stores.tokens.Keys
            && forall h :: h in w.stores.tokens ==>
                 x.stores.tokens[h] == if dropped == Some(h)
                   then w.stores.tokens[h].(revoked := true) else w.stores.tokens[h]
  {
    StepsFirst(c, w, id, made, 2);
    var w1 := Next(c, w, Act(id, made));
    StepsFirst(c, w1, id, made, 1);
    assert Run(c, Next(c, w1, Act(id, made)), Steps(id, made, 0)) == Next(c, w1, Act(id, made));
    hide Run, Steps;
    var after := if dropped.Some? then DroppingToken(dropped.value) else Done;
    assert w1.tasks == w.tasks[id := Task(Logout(Some(sid), dropped), after)];
  }

  /** A whole logout ends the session it presents and revokes the token it presents, and nothing else. */
  lemma {:induction false} LogoutServed(c: Config, w: World, id: nat, u: User, sid: SessionId,
                                        dropped: Option<TokenHash>,
                                        made: Made)
    requires id !in w.tasks && sid in w.stores.redis.sessions && w.stores.redis.sessions[sid].user == u
    requires w.stores.now <= w.stores.redis.sessions[sid].expires
    ensures var start := [Start(id, Logout(Some(sid), dropped)), Act(id, made), Act(id, made)];
            var x := Run(c, w, start + Steps(id, made, 2));
            && id in x.tasks && x.tasks[id].phase == Done
            && x.stores.redis.sessions == w.stores.redis.sessions - {sid}
            && sid !in SMembers(x.stores.redis, x.stores.now, u)
            && (forall q :: q in SMembers(w.stores.redis, w.stores.now, u) && q != sid ==>
                  q in SMembers(x.stores.redis, x.stores.now, u))
            && forall h :: h in w.stores.tokens ==>
                 && h in x.stores.tokens
                 && x.stores.tokens[h] == if dropped == Some(h)
                    then w.stores.tokens[h].(revoked := true) else w.stores.tokens[h]
  {
    var start := [Start(id, Logout(Some(sid), dropped)), Act(id, made), Act(id, made)];
    RunThree(c, w, start[0], start[1], start[2]);
    var w1 := Next(c, w, start[0]);
    var w2 := Next(c, w1, start[1]);
    assert w2.tasks == w.tasks[id := Task(Logout(Some(sid), dropped), Unlisting(u, sid))];
    var w3 := Next(c, w2, start[2]);
    assert w3 == World(w.stores.(redis := SRem(w.stores.redis, w.stores.now, u, sid)),
                       w.tasks[id := Task(Logout(Some(sid), dropped), Ending(sid))]);
    hide Run, Next, Steps;
    LogoutEnds(c, w3, id, sid, dropped, made);
    RunMore(c, w, start, Steps(id, made, 2));
  }
}
