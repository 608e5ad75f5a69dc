/** Requests to the auth service, interleaved at every store access. */
module AuthRuns {
  import opened Prelude
  import opened AuthSessions
  import opened AuthTables

  datatype Request =
    | Login(user: User, password: string)
    | Refresh(token: TokenHash)
    | Api(sid: SessionId)
    | Logout(ended: Option<SessionId>, dropped: Option<TokenHash>)
    | DeleteAccount(user: User)
    | SetRole(user: User, role: Role)
    | Register(user: User, passwordHash: string)

  /** What a request does next; each phase is one access to a store. */
  datatype Phase =
    | Begin
    | ReadingUser(user: User)
    | RevokingToken(user: User, role: Role)
    | Storing(user: User, role: Role)
    | Indexing(user: User, sid: SessionId, until: int)
    | Expiring(user: User, sid: SessionId, until: int)
    | Inserting(user: User, until: int)
    | Updating(user: User, role: Role)
    | RevokingAll(user: User)
    | Listing(user: User)
    | Dropping(user: User, ids: set<SessionId>)
    | DroppingIndex(user: User)
    | Registering(user: User)
    | Unlisting(user: User, sid: SessionId)
    | Ending(sid: SessionId)
    | DroppingToken(token: TokenHash)
    | Done
    | Succeeded(user: User)
    | Failed

  datatype Task = Task(req: Request, phase: Phase)

  datatype Stores = Stores(now: int, redis: Redis, users: Users, tokens: Tokens)

  datatype Config = Config(sessionTtl: nat, refreshTtl: nat, verify: (string, string) -> bool)

  /** The session id and the refresh token generated at a step, where one is. */
  datatype Made = Made(sid: SessionId, token: TokenHash)

  datatype World = World(stores: Stores, tasks: map<nat, Task>)

  datatype Event = Start(id: nat, req: Request) | Act(id: nat, made: Made) | Tick(delta: nat)

  predicate MayLogin(users: Users, u: User) {
    u in users && CanLogin(users[u].role)
  }

  function First(c: Config, s: Stores, req: Request): Phase {
    match req
    case Login(u, password) =>
      if MayLogin(s.users, u) && c.verify(password, s.users[u].passwordHash)
        then Storing(u, s.users[u].role) else Failed
    case Refresh(h) => (match Validates(s.tokens, h, s.now) case Some(u) => ReadingUser(u) case None => Failed)
    case Api(sid) => if Live(s.redis, s.now, sid) then ReadingUser(s.redis.sessions[sid].user) else Failed
    case Logout(Some(sid), _) =>
      if Live(s.redis, s.now, sid) then Unlisting(s.redis.sessions[sid].user, sid) else Ending(sid)
    case Logout(None, _) => SessionEnded(req)
    case DeleteAccount(u) => if u in s.users then Updating(u, DELETED) else Failed
    case SetRole(u, role) => if u in s.users then Updating(u, role) else Failed
    case Register(u, _) => if u in s.users then Failed else Registering(u)
  }

  function SessionEnded(req: Request): Phase {
    if req.Logout? && req.dropped.Some? then DroppingToken(req.dropped.value) else Done
  }

  /** The phase after a step. A generated token or a name that is taken meanwhile fails the insert. */
  function Then(c: Config, s: Stores, t: Task, made: Made): Phase {
    match t.phase
    case Begin => First(c, s, t.req)
    case ReadingUser(u) =>
      if !MayLogin(s.users, u) then Failed else if t.req.Refresh?
        then RevokingToken(u, s.users[u].role) else Succeeded(u)
    case RevokingToken(u, role) => Storing(u, role)
    case Storing(u, _) => Indexing(u, made.sid, s.now + c.refreshTtl)
    case Indexing(u, sid, until) => Expiring(u, sid, until)
    case Expiring(u, _, until) => Inserting(u, until)
    case Inserting(u, _) => if made.token in s.tokens then Failed else Succeeded(u)
    case Updating(u, _) => if t.req.DeleteAccount? then RevokingAll(u) else Succeeded(u)
    case RevokingAll(u) => Listing(u)
    case Listing(u) => Dropping(u, SMembers(s.redis, s.now, u))
    case Dropping(u, _) => DroppingIndex(u)
    case DroppingIndex(u) => Succeeded(u)
    case Registering(u) => if u in s.users then Failed else Succeeded(u)
    case Unlisting(_, sid) => Ending(sid)
    case Ending(_) => SessionEnded(t.req)
    case DroppingToken(_) => Done
    case Done => t.phase
    case Succeeded(_) => t.phase
    case Failed => t.phase
  }

  /** What the step writes. */
  function Writes(c: Config, s: Stores, t: Task, made: Made): Stores {
    match t.phase
    case RevokingToken(_, _) => if t.req.Refresh? then s.(tokens := Revoked(s.tokens, t.req.token)) else s
    case Storing(u, role) => s.(redis := Set(s.redis, made.sid, Session(u, role, s.now + c.sessionTtl)))
    case Indexing(u, sid, _) => s.(redis := SAdd(s.redis, s.now, u, sid))
    case Expiring(u, _, _) => s.(redis := Expire(s.redis, s.now, u, s.now + c.sessionTtl))
    case Inserting(u, until) =>
      if made.token in s.tokens then s else s.(tokens := s.tokens[made.token := Token(u, until, false)])
    case Updating(u, role) => s.(users := WithRole(s.users, u, role))
    case RevokingAll(u) => s.(tokens := AllRevoked(s.tokens, u))
    case Dropping(_, ids) => s.(redis := DelSessions(s.redis, ids))
    case DroppingIndex(u) => s.(redis := DelIndex(s.redis, u))
    case Registering(u) =>
      if u in s.users || !t.req.Register? then s else s.(users := s.users[u := Account(t.req.passwordHash, USER)])
    case Unlisting(u, sid) => s.(redis := SRem(s.redis, s.now, u, sid))
    case Ending(sid) => s.(redis := DelSessions(s.redis, {sid}))
    case DroppingToken(h) => s.(tokens := Revoked(s.tokens, h))
    case Begin => s
    case ReadingUser(_) => s
    case Listing(_) => s
    case Done => s
    case Succeeded(_) => s
    case Failed => s
  }

  function Next(c: Config, w: World, e: Event): World {
    match e
    case Start(id, req) => if id in w.tasks then w else w.(tasks := w.tasks[id := Task(req, Begin)])
    case Act(id, made) =>
      if id !in w.tasks then w
      else
        var t := w.tasks[id];
        World(Writes(c, w.stores, t, made), w.tasks[id := t.(phase := Then(c, w.stores, t, made))])
    case Tick(delta) => w.(stores := w.stores.(now := w.stores.now + delta))
  }

  function Run(c: Config, w: World, evs: seq<Event>): World
    decreases |evs|
  {
    if evs == [] then w else Next(c, Run(c, w, evs[..|evs| - 1]), evs[|evs| - 1])
  }

  // ----- A blocked account stays out -----

  /** A request that would let `u` log in again. */
  predicate Grants(req: Request, u: User) {
    req.SetRole? && req.user == u && CanLogin(req.role)
  }

  predicate SignsIn(req: Request) {
    req.Login? || req.Refresh? || req.Api?
  }

  /** Past the check of the user's role. */
  predicate InFlight(p: Phase, u: User) {
    (p.RevokingToken? || p.Storing? || p.Indexing? || p.Expiring? || p.Inserting?) && p.user == u
  }

  predicate LetIn(t: Task, u: User) {
    InFlight(t.phase, u) || (SignsIn(t.req) && t.phase == Succeeded(u))
  }

  /** A request is only ever in the phases of its own kind. */
  predicate Sound(t: Task) {
    match t.phase
    case Begin => true
    case ReadingUser(_) => t.req.Refresh? || t.req.Api?
    case RevokingToken(_, _) => t.req.Refresh?
    case Storing(_, _) => t.req.Login? || t.req.Refresh?
    case Indexing(_, _, _) => t.req.Login? || t.req.Refresh?
    case Expiring(_, _, _) => t.req.Login? || t.req.Refresh?
    case Inserting(_, _) => t.req.Login? || t.req.Refresh?
    case Updating(u, role) => t.req == SetRole(u, role) || (t.req == DeleteAccount(u) && role == DELETED)
    case RevokingAll(u) => t.req == DeleteAccount(u)
    case Listing(u) => t.req == DeleteAccount(u)
    case Dropping(u, _) => t.req == DeleteAccount(u)
    case DroppingIndex(u) => t.req == DeleteAccount(u)
    case Registering(u) => t.req.Register? && t.req.user == u
    case Unlisting(_, _) => t.req.Logout?
    case Ending(_) => t.req.Logout?
    case DroppingToken(_) => t.req.Logout?
    case Done => t.req.Logout?
    case Succeeded(u) => t.req.DeleteAccount? || t.req.SetRole? || t.req.Register? ==> t.req.user == u
    case Failed => true
  }

  ghost predicate AllSound(w: World) {
    forall id :: id in w.tasks ==> Sound(w.tasks[id])
  }

  lemma {:induction false} StepStaysSound(c: Config, w: World, e: Event)
    requires AllSound(w)
    ensures AllSound(Next(c, w, e))
  {
  }

  ghost predicate Barred(w: World, u: User) {
    && u in w.stores.users && !CanLogin(w.stores.users[u].role) && AllSound(w)
    && forall id :: id in w.tasks ==> !Grants(w.tasks[id].req, u)
  }

  ghost predicate NoGrants(evs: seq<Event>, u: User) {
    forall e :: e in evs && e.Start? ==> !Grants(e.req, u)
  }

  lemma {:induction false} StepStaysBarred(c: Config, w: World, e: Event, u: User)
    requires Barred(w, u) && (e.Start? ==> !Grants(e.req, u))
    ensures Barred(Next(c, w, e), u)
    ensures forall id :: id in Next(c, w, e).tasks && (id in w.tasks ==> !LetIn(w.tasks[id], u)) ==>
              !LetIn(Next(c, w, e).tasks[id], u)
  {
    StepStaysSound(c, w, e);
  }

  /**
   * Once an account is banned or deleted, no login, refresh or request that starts later succeeds for it, however
   * requests interleave, unless a request gives it a role again.
   */
  lemma {:induction false} BlockedAccountStaysOut(c: Config, w: World, evs: seq<Event>, u: User, id: nat)
    requires Barred(w, u) && NoGrants(evs, u) && id !in w.tasks
    ensures Barred(Run(c, w, evs), u)
    ensures id in Run(c, w, evs).tasks ==> !LetIn(Run(c, w, evs).tasks[id], u)
    decreases |evs|
  {
    if evs != [] {
      var front := evs[..|evs| - 1];
      BlockedAccountStaysOut(c, w, front, u, id);
      StepStaysBarred(c, Run(c, w, front), evs[|evs| - 1], u);
    }
  }

  // ----- A refresh token is used once, unless two uses overlap -----

  /** Validated but not yet revoked by this request. */
  predicate Mid(p: Phase) {
    p.ReadingUser? || p.RevokingToken?
  }

  /** Past its own revoke of the token. */
  predicate Past(p: Phase) {
    p.Storing? || p.Indexing? || p.Expiring? || p.Inserting? || p.Succeeded?
  }

  predicate Uses(w: World, id: nat, h: TokenHash) {
    id in w.tasks && w.tasks[id].req == Refresh(h)
  }

  ghost predicate UsesRevoke(w: World, h: TokenHash, id: nat) {
    Uses(w, id, h) ==>
      && (Mid(w.tasks[id].phase) ==> h in w.stores.tokens)
      && (Past(w.tasks[id].phase) ==> h in w.stores.tokens && w.stores.tokens[h].revoked)
  }

  lemma {:induction false} StepRevokes(c: Config, w: World, e: Event, h: TokenHash, id: nat)
    requires AllSound(w) && UsesRevoke(w, h, id)
    ensures UsesRevoke(Next(c, w, e), h, id)
    ensures h in w.stores.tokens ==> h in Next(c, w, e).stores.tokens
    ensures h in w.stores.tokens && w.stores.tokens[h].revoked ==> Next(c, w, e).stores.tokens[h].revoked
  {
  }

  predicate NotValidated(w: World, id: nat, h: TokenHash) {
    Uses(w, id, h) ==> w.tasks[id].phase in {Begin, Failed}
  }

  lemma {:induction false} StepStaysRevoked(c: Config, w: World, e: Event, h: TokenHash, id: nat)
    requires h in w.stores.tokens && w.stores.tokens[h].revoked && NotValidated(w, id, h)
    ensures NotValidated(Next(c, w, e), id, h)
    ensures h in Next(c, w, e).stores.tokens && Next(c, w, e).stores.tokens[h].revoked
  {
  }

  /** With the token revoked, a request that has not validated it yet never gets past that. */
  lemma {:induction false} RevokedTokenStaysOut(c: Config, w: World, evs: seq<Event>, h: TokenHash, id: nat)
    requires AllSound(w) && h in w.stores.tokens && w.stores.tokens[h].revoked
    requires NotValidated(w, id, h)
    ensures AllSound(Run(c, w, evs)) && NotValidated(Run(c, w, evs), id, h)
    ensures h in Run(c, w, evs).stores.tokens && Run(c, w, evs).stores.tokens[h].revoked
    decreases |evs|
  {
    if evs != [] {
      var front := evs[..|evs| - 1];
      RevokedTokenStaysOut(c, w, front, h, id);
      StepStaysSound(c, Run(c, w, front), evs[|evs| - 1]);
      StepStaysRevoked(c, Run(c, w, front), evs[|evs| - 1], h, id);
    }
  }

  ghost predicate BothMid(w: World, a: nat, b: nat) {
    a in w.tasks && b in w.tasks && Mid(w.tasks[a].phase) && Mid(w.tasks[b].phase)
  }

  lemma {:induction false} RunRevokes(c: Config, w: World, evs: seq<Event>, h: TokenHash, id: nat)
    requires AllSound(w) && id !in w.tasks
    ensures AllSound(Run(c, w, evs)) && UsesRevoke(Run(c, w, evs), h, id)
    decreases |evs|
  {
    if evs != [] {
      var front := evs[..|evs| - 1];
      RunRevokes(c, w, front, h, id);
      StepStaysSound(c, Run(c, w, front), evs[|evs| - 1]);
      StepRevokes(c, Run(c, w, front), evs[|evs| - 1], h, id);
    }
  }

  /** How one step can bring one use past its revoke while the other is under way. */
  lemma {:induction false} StepOverlaps(c: Config, w: World, e: Event, h: TokenHash, a: nat, b: nat)
    requires a != b && AllSound(w) && UsesRevoke(w, h, a) && UsesRevoke(w, h, b)
    requires var x := Next(c, w, e);
             Uses(x, a, h) && Uses(x, b, h) && Past(x.tasks[a].phase)
               && (Mid(x.tasks[b].phase) || Past(x.tasks[b].phase))
    ensures Uses(w, a, h) && Uses(w, b, h)
    ensures || BothMid(w, a, b)
            || (Past(w.tasks[a].phase) && (Mid(w.tasks[b].phase) || Past(w.tasks[b].phase)))
            || (Past(w.tasks[b].phase) && (Mid(w.tasks[a].phase) || Past(w.tasks[a].phase)))
  {
  }

  lemma {:induction false} UsesOverlap(c: Config, w: World, evs: seq<Event>, h: TokenHash, a: nat, b: nat)
    returns (i: nat)
    requires AllSound(w) && a != b && a !in w.tasks && b !in w.tasks
    requires var x := Run(c, w, evs);
             Uses(x, a, h) && Uses(x, b, h) && Past(x.tasks[a].phase)
               && (Mid(x.tasks[b].phase) || Past(x.tasks[b].phase))
    ensures i <= |evs| && BothMid(Run(c, w, evs[..i]), a, b)
    decreases |evs|
  {
    var n := |evs| - 1;
    var front := evs[..n];
    RunRevokes(c, w, front, h, a);
    RunRevokes(c, w, front, h, b);
    StepOverlaps(c, Run(c, w, front), evs[n], h, a, b);
    var y := Run(c, w, front);
    if BothMid(y, a, b) {
      i := n;
    } else {
      if Past(y.tasks[a].phase) {
        i := UsesOverlap(c, w, front, h, a, b);
      } else {
        i := UsesOverlap(c, w, front, h, b, a);
      }
      assert front[..i] == evs[..i];
    }
  }

  /** Two refreshes with one token both succeed only if at some point both had validated it and neither revoked it. */
  lemma {:induction false} TokenUsedTwiceOnlyOverlapping(c: Config, w: World, evs: seq<Event>, h: TokenHash, a: nat,
                                                         b: nat)
    returns (i: nat)
    requires AllSound(w) && a != b && a !in w.tasks && b !in w.tasks
    requires Uses(Run(c, w, evs), a, h) && Run(c, w, evs).tasks[a].phase.Succeeded?
    requires Uses(Run(c, w, evs), b, h) && Run(c, w, evs).tasks[b].phase.Succeeded?
    ensures i <= |evs| && BothMid(Run(c, w, evs[..i]), a, b)
  {
    i := UsesOverlap(c, w, evs, h, a, b);
  }

  // ----- Finishing a sign-in -----

  function Steps(id: nat, made: Made, n: nat): seq<Event> {
    seq(n, _ => Act(id, made))
  }

  lemma {:induction false} RunMore(c: Config, w: World, a: seq<Event>, b: seq<Event>)
    ensures Run(c, w, a + b) == Run(c, Run(c, w, a), b)
    decreases |b|
  {
    if b == [] {
      assert a + b == a;
    } else {
      var n := |b| - 1;
      assert (a + b)[..|a + b| - 1] == a + b[..n];
      RunMore(c, w, a, b[..n]);
    }
  }

  lemma {:induction false} StepsSplit(id: nat, made: Made, m: nat, n: nat)
    ensures Steps(id, made, m + n) == Steps(id, made, m) + Steps(id, made, n)
  {
  }

  lemma {:induction false} RunOne(c: Config, w: World, e: Event)
    ensures Run(c, w, [e]) == Next(c, w, e)
  {
    assert [e][..0] == [];
    assert Run(c, w, []) == w;
  }

  lemma {:induction false} StepsFirst(c: Config, w: World, id: nat, made: Made, n: nat)
    requires n > 0
    ensures Run(c, w, Steps(id, made, n)) == Run(c, Next(c, w, Act(id, made)), Steps(id, made, n - 1))
  {
    StepsSplit(id, made, 1, n - 1);
    assert Steps(id, made, 1) == [Act(id, made)];
    RunMore(c, w, Steps(id, made, 1), Steps(id, made, n - 1));
    RunOne(c, w, Act(id, made));
  }

  /** How many steps a sign-in past the role check has left. */
  function Left(p: Phase): nat {
    if p.RevokingToken? then 5
    else if p.Storing? then 4
    else if p.Indexing? then 3
    else if p.Expiring? then 2
    else if p.Inserting? then 1
    else 0
  }

  /** When the token it will insert expires. */
  function Until(c: Config, now: int, p: Phase): int {
    if p.Indexing? || p.Expiring? || p.Inserting? then p.until else now + c.refreshTtl
  }

  /** The session it has still to write. */
  function SessionsAfter(c: Config, s: Stores, p: Phase, made: Made): map<SessionId, Session> {
    if p.RevokingToken? || p.Storing?
    then s.redis.sessions[made.sid := Session(p.user, p.role, s.now + c.sessionTtl)]
    else s.redis.sessions
  }

  lemma {:induction false} SignInStep(c: Config, w: World, id: nat, u: User, made: Made)
    requires id in w.tasks && InFlight(w.tasks[id].phase, u) && Sound(w.tasks[id])
    requires made.token !in w.stores.tokens && !w.tasks[id].phase.Inserting?
    ensures var x, p := Next(c, w, Act(id, made)), w.tasks[id].phase;
            && id in x.tasks && x.tasks == w.tasks[id := x.tasks[id]] && Sound(x.tasks[id])
            && x.tasks[id].req == w.tasks[id].req
            && InFlight(x.tasks[id].phase, u) && Left(x.tasks[id].phase) == Left(p) - 1
            && Until(c, x.stores.now, x.tasks[id].phase) == Until(c, w.stores.now, p)
            && SessionsAfter(c, x.stores, x.tasks[id].phase, made) == SessionsAfter(c, w.stores, p, made)
            && x.stores.now == w.stores.now && x.stores.users == w.stores.users
            && x.stores.tokens.Keys == w.stores.tokens.Keys
  {
  }

  /**
   * Past the role check a sign-in cannot fail, unless the generated token is taken: it leaves a new valid token, and
   * the session it had still to write.
   */
  lemma {:induction false} SignInFinishes(c: Config, w: World, id: nat, u: User, made: Made)
    requires id in w.tasks && InFlight(w.tasks[id].phase, u) && Sound(w.tasks[id]) && made.token !in w.stores.tokens
    ensures var x, p := Run(c, w, Steps(id, made, Left(w.tasks[id].phase))), w.tasks[id].phase;
            && x.tasks == w.tasks[id := w.tasks[id].(phase := Succeeded(u))]
            && x.stores.now == w.stores.now && x.stores.users == w.stores.users
            && x.stores.tokens.Keys == w.stores.tokens.Keys + {made.token}
            && x.stores.tokens[made.token] == Token(u, Until(c, w.stores.now, p), false)
            && x.stores.redis.sessions == SessionsAfter(c, w.stores, p, made)
    decreases Left(w.tasks[id].phase)
  {
    var p := w.tasks[id].phase;
    StepsFirst(c, w, id, made, Left(p));
    var x := Next(c, w, Act(id, made));
    if p.Inserting? {
      assert Run(c, x, Steps(id, made, 0)) == x;
    } else {
      SignInStep(c, w, id, u, made);
      hide Next, Steps, Sound;
      SignInFinishes(c, x, id, u, made);
    }
  }

  // ----- Overlapping uses of one token -----

  /** The step that reads the user's role, if it is still to come. */
  function ToCheck(id: nat, p: Phase, made: Made): seq<Event> {
    if p.ReadingUser? then [Act(id, made)] else []
  }

  lemma {:induction false} UseChecks(c: Config, w: World, id: nat, u: User, h: TokenHash, made: Made)
    requires Uses(w, id, h) && Mid(w.tasks[id].phase) && w.tasks[id].phase.user == u && MayLogin(w.stores.users, u)
    ensures var x := Run(c, w, ToCheck(id, w.tasks[id].phase, made));
            && id in x.tasks && x.tasks == w.tasks[id := x.tasks[id]] && x.stores == w.stores
            && x.tasks[id].req == Refresh(h) && x.tasks[id].phase.RevokingToken? && x.tasks[id].phase.user == u
  {
    RunOne(c, w, Act(id, made));
    assert Run(c, w, []) == w;
  }

  /**
   * Whenever two uses of a token are both between validating and revoking it, both can succeed, the account still
   * allowed to log in.
   */
  lemma {:induction false} OverlappingUsesBothSucceed(c: Config, w: World, a: nat, b: nat, u: User, h: TokenHash,
                                                      m: Made, n: Made)
    returns (evs: seq<Event>)
    requires a != b && Uses(w, a, h) && Uses(w, b, h) && BothMid(w, a, b)
    requires w.tasks[a].phase.user == u && w.tasks[b].phase.user == u && MayLogin(w.stores.users, u)
    requires m.token !in w.stores.tokens && n.token !in w.stores.tokens && m.token != n.token
    ensures var x := Run(c, w, evs);
            a in x.tasks && b in x.tasks && x.tasks[a].phase == Succeeded(u) && x.tasks[b].phase == Succeeded(u)
  {
    hide Next, Steps, Run;
    var first, second := ToCheck(a, w.tasks[a].phase, m), ToCheck(b, w.tasks[b].phase, n);
    UseChecks(c, w, a, u, h, m);
    var w1 := Run(c, w, first);
    UseChecks(c, w1, b, u, h, n);
    RunMore(c, w, first, second);
    var w2 := Run(c, w1, second);
    SignInFinishes(c, w2, a, u, m);
    var third := Steps(a, m, Left(w2.tasks[a].phase));
    RunMore(c, w, first + second, third);
    var w3 := Run(c, w2, third);
    SignInFinishes(c, w3, b, u, n);
    var fourth := Steps(b, n, Left(w3.tasks[b].phase));
    RunMore(c, w, first + second + third, fourth);
    evs := first + second + third + fourth;
  }

  // ----- From the start -----

  const START := World(Stores(0, Redis(map[], map[]), map[], map[]), map[])

  /** A user registers: the account exists. */
  function Registers(u: User, hash: string, made: Made): seq<Event> {
    [Start(0, Register(u, hash)), Act(0, made), Act(0, made)]
  }

  lemma {:induction false} Registration(c: Config, u: User, hash: string, made: Made)
    ensures var x := Run(c, START, Registers(u, hash, made));
            && x.stores == START.stores.(users := map[u := Account(hash, USER)])
            && x.tasks == map[0 := Task(Register(u, hash), Succeeded(u))]
  {
    var w1 := Next(c, START, Start(0, Register(u, hash)));
    var w2 := Next(c, w1, Act(0, made));
    var w3 := Next(c, w2, Act(0, made));
    assert w2.tasks == map[0 := Task(Register(u, hash), Registering(u))];
    assert w3.tasks == map[0 := Task(Register(u, hash), Succeeded(u))];
    RunThree(c, START, Start(0, Register(u, hash)), Act(0, made), Act(0, made));
  }

  lemma {:induction false} RunTwo(c: Config, w: World, e: Event, f: Event)
    ensures Run(c, w, [e, f]) == Next(c, Next(c, w, e), f)
  {
    assert [e, f] == [e] + [f];
    RunMore(c, w, [e], [f]);
    RunOne(c, w, e);
    RunOne(c, Next(c, w, e), f);
  }

  lemma {:induction false} RunThree(c: Config, w: World, e: Event, f: Event, g: Event)
    ensures Run(c, w, [e, f, g]) == Next(c, Next(c, Next(c, w, e), f), g)
  {
    assert [e, f, g] == [e, f] + [g];
    RunMore(c, w, [e, f], [g]);
    RunTwo(c, w, e, f);
    RunOne(c, Next(c, Next(c, w, e), f), g);
  }

  /** The user, if there is one with this password, is about to get a session. */
  lemma {:induction false} LoginStarts(c: Config, w: World, id: nat, u: User, password: string, made: Made)
    requires id !in w.tasks && MayLogin(w.stores.users, u) && c.verify(password, w.stores.users[u].passwordHash)
    ensures var x := Run(c, w, [Start(id, Login(u, password)), Act(id, made)]);
            && x.stores == w.stores
            && x.tasks == w.tasks[id := Task(Login(u, password), Storing(u, w.stores.users[u].role))]
  {
    RunTwo(c, w, Start(id, Login(u, password)), Act(id, made));
  }

  lemma {:induction false} RefreshStarts(c: Config, w: World, id: nat, u: User, h: TokenHash, made: Made)
    requires id !in w.tasks && Validates(w.stores.tokens, h, w.stores.now) == Some(u)
    ensures var x := Run(c, w, [Start(id, Refresh(h)), Act(id, made)]);
            && x.stores == w.stores && x.tasks == w.tasks[id := Task(Refresh(h), ReadingUser(u))]
  {
    RunTwo(c, w, Start(id, Refresh(h)), Act(id, made));
  }

  /** A user registers and logs in, and nothing else happens. */
  lemma {:induction false} SignUp(c: Config, u: User, password: string, hash: string, made: Made)
    returns (evs: seq<Event>)
    requires c.verify(password, hash)
    ensures var x := Run(c, START, evs);
            && x.stores.now == 0 && x.stores.users == map[u := Account(hash, USER)]
            && x.stores.tokens == map[made.token := Token(u, c.refreshTtl, false)]
            && x.stores.redis.sessions == map[made.sid := Session(u, USER, c.sessionTtl)]
            && x.tasks == map[0 := Task(Register(u, hash), Succeeded(u)), 1 := Task(Login(u, password), Succeeded(u))]
  {
    hide Next, Run, Steps;
    var e1, e2, e3 := Registers(u, hash, made), [Start(1, Login(u, password)), Act(1, made)], Steps(1, made, 4);
    Registration(c, u, hash, made);
    var w1 := Run(c, START, e1);
    LoginStarts(c, w1, 1, u, password, made);
    RunMore(c, START, e1, e2);
    var w2 := Run(c, w1, e2);
    SignInFinishes(c, w2, 1, u, made);
    RunMore(c, START, e1 + e2, e3);
    evs := e1 + e2 + e3;
    var x := Run(c, w2, e3);
    assert x.stores.tokens.Keys == {made.token};
  }

  /** It happens: a user registers, logs in, and two requests with the one refresh token both succeed. */
  lemma {:induction false} TokenUsedTwice(c: Config, u: User, password: string, hash: string, l: Made, m: Made, n: Made)
    returns (evs: seq<Event>)
    requires c.verify(password, hash) && c.refreshTtl > 0
    requires l.token != m.token && l.token != n.token && m.token != n.token
    ensures var x := Run(c, START, evs);
            && Uses(x, 2, l.token) && Uses(x, 3, l.token)
            && x.tasks[2].phase == Succeeded(u) && x.tasks[3].phase == Succeeded(u)
  {
    hide Next, Run, Steps;
    var e1 := SignUp(c, u, password, hash, l);
    var e2, e3 := [Start(2, Refresh(l.token)), Act(2, m)], [Start(3, Refresh(l.token)), Act(3, n)];
    var w1 := Run(c, START, e1);
    RefreshStarts(c, w1, 2, u, l.token, m);
    RunMore(c, START, e1, e2);
    var w2 := Run(c, w1, e2);
    RefreshStarts(c, w2, 3, u, l.token, n);
    RunMore(c, START, e1 + e2, e3);
    var w3 := Run(c, w2, e3);
    var rest := OverlappingUsesBothSucceed(c, w3, 2, 3, u, l.token, m, n);
    RunMore(c, START, e1 + e2 + e3, rest);
    RequestsStay(c, w3, rest, 2);
    RequestsStay(c, w3, rest, 3);
    evs := e1 + e2 + e3 + rest;
  }

  lemma {:induction false} RequestsStay(c: Config, w: World, evs: seq<Event>, id: nat)
    requires id in w.tasks
    ensures id in Run(c, w, evs).tasks && Run(c, w, evs).tasks[id].req == w.tasks[id].req
    decreases |evs|
  {
    if evs != [] {
      RequestsStay(c, w, evs[..|evs| - 1], id);
    }
  }
}
