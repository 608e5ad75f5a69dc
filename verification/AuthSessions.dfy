/** The session store: sessions and an index of them per user, both with an expiry. */
module AuthSessions {
  import opened Prelude

  datatype User = User(name: string)

  datatype SessionId = SessionId(text: string)

  datatype Role = SUPERADMIN | ADMIN | USER | BANNED | DELETED

  datatype Session = Session(user: User, role: Role, expires: int)

  /** A user's set of session ids. It has no expiry between the commands that add to it and set one. */
  datatype Index = Index(ids: set<SessionId>, expires: Option<int>)

  datatype Redis = Redis(sessions: map<SessionId, Session>, index: map<User, Index>)

  predicate CanLogin(role: Role) {
    role !in {BANNED, DELETED}
  }

  // ----- Commands, each atomic, at time `now`; an expired key is as good as deleted -----

  predicate Alive(expires: Option<int>, now: int) {
    expires.Some? ==> now <= expires.value
  }

  predicate Live(r: Redis, now: int, sid: SessionId) {
    sid in r.sessions && now <= r.sessions[sid].expires
  }

  predicate HasIndex(r: Redis, now: int, u: User) {
    u in r.index && Alive(r.index[u].expires, now)
  }

  function Set(r: Redis, sid: SessionId, s: Session): Redis {
    r.(sessions := r.sessions[sid := s])
  }

  function SAdd(r: Redis, now: int, u: User, sid: SessionId): Redis {
    var entry := if HasIndex(r, now, u) then r.index[u].(ids := r.index[u].ids + {sid}) else Index({sid}, None);
    r.(index := r.index[u := entry])
  }

  function Expire(r: Redis, now: int, u: User, at: int): Redis {
    if HasIndex(r, now, u) then r.(index := r.index[u := r.index[u].(expires := Some(at))]) else r
  }

  function SMembers(r: Redis, now: int, u: User): set<SessionId> {
    if HasIndex(r, now, u) then r.index[u].ids else {}
  }

  /** A set that loses its last element is gone, and its expiry with it. */
  function SRem(r: Redis, now: int, u: User, sid: SessionId): Redis {
    if !HasIndex(r, now, u) then r
    else if r.index[u].ids <= {sid} then r.(index := r.index - {u})
    else r.(index := r.index[u := r.index[u].(ids := r.index[u].ids - {sid})])
  }

  function DelSessions(r: Redis, ids: set<SessionId>): Redis {
    r.(sessions := r.sessions - ids)
  }

  function DelIndex(r: Redis, u: User): Redis {
    r.(index := r.index - {u})
  }

  // ----- The store's operations, each uninterrupted, with the time each of its commands runs at -----

  function Created(r: Redis, sid: SessionId, u: User, role: Role, ttl: nat, t1: int, t2: int, t3: int): Redis {
    Expire(SAdd(Set(r, sid, Session(u, role, t1 + ttl)), t2, u, sid), t3, u, t3 + ttl)
  }

  function Deleted(r: Redis, sid: SessionId, t1: int, t2: int): Redis {
    DelSessions(if Live(r, t1, sid) then SRem(r, t2, r.sessions[sid].user, sid) else r, {sid})
  }

  function AllDeleted(r: Redis, u: User, now: int): Redis {
    DelIndex(DelSessions(r, SMembers(r, now, u)), u)
  }

  class SessionStore {
    var redis: Redis
    const ttl: nat

    constructor (ttl: nat)
      ensures redis == Redis(map[], map[]) && this.ttl == ttl
    {
      redis, this.ttl := Redis(map[], map[]), ttl;
    }

    method Create(sid: SessionId, u: User, role: Role, t1: int, t2: int, t3: int)
      modifies this
      ensures redis == Created(old(redis), sid, u, role, ttl, t1, t2, t3)
    {
      redis := Set(redis, sid, Session(u, role, t1 + ttl));
      redis := SAdd(redis, t2, u, sid);
      redis := Expire(redis, t3, u, t3 + ttl);
    }

    method Get(sid: SessionId, now: int) returns (r: Option<Session>)
      ensures r.Some? <==> Live(redis, now, sid)
      ensures r.Some? <==> sid in redis.sessions && now <= redis.sessions[sid].expires
      ensures r.Some? ==> r.value == redis.sessions[sid]
    {
      r := if sid in redis.sessions && now <= redis.sessions[sid].expires then Some(redis.sessions[sid]) else None;
    }

    method Delete(sid: SessionId, t1: int, t2: int)
      modifies this
      ensures redis == Deleted(old(redis), sid, t1, t2)
    {
      var session := Get(sid, t1);
      if session.Some? {
        redis := SRem(redis, t2, session.value.user, sid);
      }
      redis := DelSessions(redis, {sid});
    }

    method DeleteAllForUser(u: User, now: int)
      modifies this
      ensures redis == AllDeleted(old(redis), u, now)
    {
      var ids := SMembers(redis, now, u);
      if ids != {} {
        redis := DelSessions(redis, ids);
      }
      redis := DelIndex(redis, u);
      assert old(redis).sessions - {} == old(redis).sessions;
    }
  }

  // ----- Every live session is in its user's index, which outlives it -----

  predicate Listed(r: Redis, now: int, sid: SessionId)
    requires sid in r.sessions
  {
    var s := r.sessions[sid];
    && HasIndex(r, now, s.user) && sid in r.index[s.user].ids
    && (r.index[s.user].expires.Some? ==> s.expires <= r.index[s.user].expires.value)
  }

  ghost predicate Indexed(r: Redis, now: int) {
    forall sid :: Live(r, now, sid) ==> Listed(r, now, sid)
  }

  /** Every session was created with the one lifetime there is. */
  ghost predicate Lifetimes(r: Redis, now: int, ttl: nat) {
    forall sid :: sid in r.sessions ==> r.sessions[sid].expires <= now + ttl
  }

  /** An index names no other user's session. */
  ghost predicate Owned(r: Redis) {
    forall u, sid :: u in r.index && sid in r.index[u].ids && sid in r.sessions ==> r.sessions[sid].user == u
  }

  lemma {:induction false} OwnershipStays(r: Redis, sid: SessionId, u: User, role: Role, ttl: nat, t1: int, t2: int,
                                          t3: int)
    requires Owned(r) && forall v :: v in r.index && sid in r.index[v].ids ==> v == u
    ensures Owned(Created(r, sid, u, role, ttl, t1, t2, t3))
  {
  }

  lemma {:induction false} TimePasses(r: Redis, now: int, later: int, ttl: nat)
    requires Indexed(r, now) && Lifetimes(r, now, ttl) && now <= later
    ensures Indexed(r, later) && Lifetimes(r, later, ttl)
  {
    forall sid | Live(r, later, sid) ensures Listed(r, later, sid) {
      assert Listed(r, now, sid);
    }
  }

  /**
   * A new session ends up in the index exactly when the index does not run out between the command that adds the
   * session and the one that renews the index (or the session itself is over by then).
   */
  lemma {:induction false} CreateKeepsIndexIff(r: Redis, sid: SessionId, u: User, role: Role, ttl: nat, t1: int,
                                               t2: int, t3: int)
    requires Indexed(r, t1) && Lifetimes(r, t1, ttl) && t1 <= t2 <= t3
    ensures var after := Created(r, sid, u, role, ttl, t1, t2, t3);
            && Lifetimes(after, t3, ttl)
            && (Indexed(after, t3) <==> HasIndex(r, t2, u) ==> HasIndex(r, t3, u) || t1 + ttl < t3)
  {
    var after := Created(r, sid, u, role, ttl, t1, t2, t3);
    TimePasses(r, t1, t3, ttl);
    forall q | Live(after, t3, q) && q != sid ensures Listed(after, t3, q) {
      assert Listed(r, t3, q);
    }
    assert after.sessions[sid] == Session(u, role, t1 + ttl);
    assert Indexed(after, t3) <==> (Live(after, t3, sid) ==> Listed(after, t3, sid));
  }

  lemma {:induction false} DeleteKeepsIndex(r: Redis, sid: SessionId, ttl: nat, t1: int, t2: int)
    requires Indexed(r, t1) && Lifetimes(r, t1, ttl) && t1 <= t2
    ensures var after := Deleted(r, sid, t1, t2);
            && Indexed(after, t2) && Lifetimes(after, t2, ttl)
            && forall q :: Live(after, t2, q) <==> q != sid && Live(r, t2, q)
  {
    TimePasses(r, t1, t2, ttl);
    var after := Deleted(r, sid, t1, t2);
    forall q | Live(after, t2, q) ensures Listed(after, t2, q) {
      assert Live(r, t2, q) && Listed(r, t2, q);
    }
  }

  /** Deleting all of a user's sessions leaves none of them live and keeps the rest indexed. */
  lemma {:induction false} DeleteAllEndsUser(r: Redis, u: User, ttl: nat, now: int)
    requires Indexed(r, now) && Lifetimes(r, now, ttl)
    ensures var after := AllDeleted(r, u, now);
            && Indexed(after, now) && Lifetimes(after, now, ttl)
            && forall sid :: Live(after, now, sid) ==> Live(r, now, sid) && r.sessions[sid].user != u
  {
    var after := AllDeleted(r, u, now);
    forall sid | Live(after, now, sid) ensures Listed(after, now, sid) && r.sessions[sid].user != u {
      assert Listed(r, now, sid);
    }
  }

  /** And no other user's session is touched. */
  lemma {:induction false} DeleteAllLeavesNone(r: Redis, u: User, ttl: nat, now: int)
    requires Indexed(r, now) && Lifetimes(r, now, ttl) && Owned(r)
    ensures var after := AllDeleted(r, u, now);
            forall sid :: Live(after, now, sid) <==> Live(r, now, sid) && r.sessions[sid].user != u
  {
    DeleteAllEndsUser(r, u, ttl, now);
  }

  // ----- Runs of whole operations -----

  datatype Op =
    | CreateOp(sid: SessionId, user: User, role: Role, t1: int, t2: int, t3: int)
    | DeleteOp(sid: SessionId, t1: int, t2: int)
    | DeleteAllOp(user: User, t1: int)

  function StartOf(op: Op): int {
    op.t1
  }

  function EndOf(op: Op): int {
    match op
    case CreateOp(_, _, _, _, _, t3) => t3
    case DeleteOp(_, _, t2) => t2
    case DeleteAllOp(_, t1) => t1
  }

  function Perform(r: Redis, ttl: nat, op: Op): Redis {
    match op
    case CreateOp(sid, u, role, t1, t2, t3) => Created(r, sid, u, role, ttl, t1, t2, t3)
    case DeleteOp(sid, t1, t2) => Deleted(r, sid, t1, t2)
    case DeleteAllOp(u, t1) => AllDeleted(r, u, t1)
  }

  const NOTHING := Redis(map[], map[])

  function StoreAfter(ttl: nat, ops: seq<Op>): Redis {
    if ops == [] then NOTHING else Perform(StoreAfter(ttl, ops[..|ops| - 1]), ttl, ops[|ops| - 1])
  }

  predicate Ordered(op: Op) {
    match op
    case CreateOp(_, _, _, t1, t2, t3) => t1 <= t2 <= t3
    case DeleteOp(_, t1, t2) => t1 <= t2
    case DeleteAllOp(_, _) => true
  }

  /** The operations follow each other, on a clock that does not go back. */
  ghost predicate Timeline(ops: seq<Op>) {
    && (forall i :: 0 <= i < |ops| ==> Ordered(ops[i]))
    && (forall i :: 0 < i < |ops| ==> EndOf(ops[i - 1]) <= StartOf(ops[i]))
  }

  /** The index a create adds to does not run out before the create renews it, or the new session is over by then. */
  predicate Timely(r: Redis, ttl: nat, op: Op) {
    op.CreateOp? && HasIndex(r, op.t2, op.user) ==> HasIndex(r, op.t3, op.user) || op.t1 + ttl < op.t3
  }

  ghost predicate AllTimely(ttl: nat, ops: seq<Op>) {
    forall i: nat :: i < |ops| ==> Timely(StoreAfter(ttl, ops[..i]), ttl, ops[i])
  }

  ghost predicate IndexedAfter(ttl: nat, ops: seq<Op>, i: nat)
    requires i < |ops|
  {
    Indexed(StoreAfter(ttl, ops[..i + 1]), EndOf(ops[i]))
  }

  lemma {:induction false} DoKeepsIndexIff(r: Redis, ttl: nat, op: Op)
    requires Indexed(r, StartOf(op)) && Lifetimes(r, StartOf(op), ttl) && Ordered(op)
    ensures Lifetimes(Perform(r, ttl, op), EndOf(op), ttl)
    ensures Indexed(Perform(r, ttl, op), EndOf(op)) <==> Timely(r, ttl, op)
  {
    match op
    case CreateOp(sid, u, role, t1, t2, t3) => CreateKeepsIndexIff(r, sid, u, role, ttl, t1, t2, t3);
    case DeleteOp(sid, t1, t2) => DeleteKeepsIndex(r, sid, ttl, t1, t2);
    case DeleteAllOp(u, t1) => DeleteAllEndsUser(r, u, ttl, t1);
  }

  /** The state when operation `i` is about to start, all operations before it having kept the index. */
  lemma {:induction false} IndexedBefore(ttl: nat, ops: seq<Op>, i: nat)
    requires Timeline(ops) && i < |ops| && forall j: nat :: j < i ==> IndexedAfter(ttl, ops, j)
    ensures Indexed(StoreAfter(ttl, ops[..i]), StartOf(ops[i]))
            && Lifetimes(StoreAfter(ttl, ops[..i]), StartOf(ops[i]), ttl)
    decreases i
  {
    if i > 0 {
      var j := i - 1;
      IndexedBefore(ttl, ops, j);
      assert ops[..i][..j] == ops[..j];
      assert IndexedAfter(ttl, ops, j);
      DoKeepsIndexIff(StoreAfter(ttl, ops[..j]), ttl, ops[j]);
      TimePasses(StoreAfter(ttl, ops[..i]), EndOf(ops[j]), StartOf(ops[i]), ttl);
    }
  }

  lemma {:induction false} NextKeepsIndexIff(ttl: nat, ops: seq<Op>, i: nat)
    requires Timeline(ops) && i < |ops| && forall j: nat :: j < i ==> IndexedAfter(ttl, ops, j)
    ensures IndexedAfter(ttl, ops, i) <==> Timely(StoreAfter(ttl, ops[..i]), ttl, ops[i])
  {
    IndexedBefore(ttl, ops, i);
    assert ops[..i + 1][..i] == ops[..i];
    DoKeepsIndexIff(StoreAfter(ttl, ops[..i]), ttl, ops[i]);
  }

  /**
   * Over every run of creates, deletes and delete-alls: each live session is in its user's index, which outlives it,
   * after every operation, exactly when every create is timely.
   */
  lemma {:induction false} IndexedThroughoutIff(ttl: nat, ops: seq<Op>)
    requires Timeline(ops)
    ensures (forall i: nat :: i < |ops| ==> IndexedAfter(ttl, ops, i)) <==> AllTimely(ttl, ops)
  {
    if forall i: nat :: i < |ops| ==> IndexedAfter(ttl, ops, i) {
      forall i: nat | i < |ops| ensures Timely(StoreAfter(ttl, ops[..i]), ttl, ops[i]) {
        NextKeepsIndexIff(ttl, ops, i);
      }
    }
    if AllTimely(ttl, ops) {
      AllIndexed(ttl, ops, |ops|);
    }
  }

  lemma {:induction false} AllIndexed(ttl: nat, ops: seq<Op>, n: nat)
    requires Timeline(ops) && AllTimely(ttl, ops) && n <= |ops|
    ensures forall i: nat :: i < n ==> IndexedAfter(ttl, ops, i)
  {
    if n > 0 {
      AllIndexed(ttl, ops, n - 1);
      NextKeepsIndexIff(ttl, ops, n - 1);
    }
  }

  /** Session ids are generated at random: a new one is in nobody else's index. */
  ghost predicate FreshId(r: Redis, op: Op) {
    op.CreateOp? ==> forall v :: v in r.index && op.sid in r.index[v].ids ==> v == op.user
  }

  ghost predicate FreshIds(ttl: nat, ops: seq<Op>) {
    forall i: nat :: i < |ops| ==> FreshId(StoreAfter(ttl, ops[..i]), ops[i])
  }

  lemma {:induction false} OwnedThroughout(ttl: nat, ops: seq<Op>, n: nat)
    requires FreshIds(ttl, ops) && n <= |ops|
    ensures Owned(StoreAfter(ttl, ops[..n]))
  {
    if n > 0 {
      OwnedThroughout(ttl, ops, n - 1);
      assert FreshId(StoreAfter(ttl, ops[..n - 1]), ops[n - 1]);
      assert ops[..n][..n - 1] == ops[..n - 1];
      var r := StoreAfter(ttl, ops[..n - 1]);
      match ops[n - 1]
      case CreateOp(sid, u, role, t1, t2, t3) => OwnershipStays(r, sid, u, role, ttl, t1, t2, t3);
      case DeleteOp(sid, t1, t2) =>
      case DeleteAllOp(u, t1) =>
    }
  }

  /** After any timely run, deleting all of a user's sessions ends exactly the sessions of that user. */
  lemma {:induction false} DeleteAllInRun(ttl: nat, ops: seq<Op>, i: nat)
    requires Timeline(ops) && AllTimely(ttl, ops) && FreshIds(ttl, ops) && i < |ops| && ops[i].DeleteAllOp?
    ensures var before, after := StoreAfter(ttl, ops[..i]), StoreAfter(ttl, ops[..i + 1]);
            forall sid :: Live(after, ops[i].t1, sid) <==>
              Live(before, ops[i].t1, sid) && before.sessions[sid].user != ops[i].user
  {
    AllIndexed(ttl, ops, i);
    IndexedBefore(ttl, ops, i);
    OwnedThroughout(ttl, ops, i);
    assert ops[..i + 1][..i] == ops[..i];
    DeleteAllLeavesNone(StoreAfter(ttl, ops[..i]), ops[i].user, ttl, ops[i].t1);
  }

  // ----- Field by field -----

  /** A created session lives for `ttl`; its user's index gets it and keeps the rest, other users' indexes stay. */
  lemma {:induction false} CreateWrites(r: Redis, sid: SessionId, u: User, role: Role, ttl: nat, t1: int, t2: int,
                                        t3: int)
    requires t1 <= t2 <= t3
    ensures var after := Created(r, sid, u, role, ttl, t1, t2, t3);
            && after.sessions == r.sessions[sid := Session(u, role, t1 + ttl)]
            && (forall v :: v != u ==>
                 (v in after.index <==> v in r.index) && (v in r.index ==> after.index[v] == r.index[v]))
            && (HasIndex(r, t3, u) || !HasIndex(r, t2, u) ==>
                  u in after.index && after.index[u] == Index(SMembers(r, t2, u) + {sid}, Some(t3 + ttl)))
            && (forall now :: t3 <= now ==> (Live(after, now, sid) <==> now <= t1 + ttl))
  {
  }

  /** A delete takes a live session out of its user's index and ends it, and touches nothing else. */
  lemma {:induction false} DeleteWrites(r: Redis, sid: SessionId, t1: int, t2: int)
    requires t1 <= t2
    ensures var after := Deleted(r, sid, t1, t2);
            && after.sessions == r.sessions - {sid}
            && (!(sid in r.sessions && t1 <= r.sessions[sid].expires) ==> after.index == r.index)
            && (sid in r.sessions && t1 <= r.sessions[sid].expires ==>
                  var u := r.sessions[sid].user;
                  && SMembers(after, t2, u) == SMembers(r, t2, u) - {sid}
                  && (HasIndex(r, t2, u) && r.index[u].ids - {sid} == {} ==> u !in after.index)
                  && (HasIndex(r, t2, u) && r.index[u].ids - {sid} != {} ==>
                        u in after.index && after.index[u].expires == r.index[u].expires)
                  && forall v :: v != u ==>
                       (v in after.index <==> v in r.index) && (v in r.index ==> after.index[v] == r.index[v]))
  {
  }

  /** A delete-all ends what the index lists and drops the index. */
  lemma {:induction false} DeleteAllWrites(r: Redis, u: User, now: int)
    ensures var after := AllDeleted(r, u, now);
            && (HasIndex(r, now, u) ==> after.sessions == r.sessions - r.index[u].ids)
            && (!HasIndex(r, now, u) ==> after.sessions == r.sessions)
            && after.index == r.index - {u} && SMembers(after, now, u) == {}
  {
    assert r.sessions - {} == r.sessions;
  }

  /**
   * A run goes on with its next operation: a create leaves the session, a delete ends it, a delete-all drops the
   * index.
   */
  lemma {:induction false} RunGoesOn(ttl: nat, ops: seq<Op>, op: Op)
    ensures var before, after := StoreAfter(ttl, ops), StoreAfter(ttl, ops + [op]);
            match op
            case CreateOp(sid, u, role, t1, _, _) =>
              after.sessions == before.sessions[sid := Session(u, role, t1 + ttl)]
            case DeleteOp(sid, _, _) => after.sessions == before.sessions - {sid}
            case DeleteAllOp(u, t1) =>
              && after.index == before.index - {u}
              && after.sessions == before.sessions - SMembers(before, t1, u)
    ensures StoreAfter(ttl, []).sessions == map[] && StoreAfter(ttl, []).index == map[]
  {
    assert (ops + [op])[..|ops + [op]| - 1] == ops;
  }
}
