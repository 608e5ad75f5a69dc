/** The tables of users and of refresh tokens. */
module AuthTables {
  import opened Prelude
  import opened AuthSessions

  datatype Account = Account(passwordHash: string, role: Role)

  type Users = map<User, Account>

  datatype TokenHash = TokenHash(text: string)

  datatype Token = Token(user: User, expires: int, revoked: bool)

  type Tokens = map<TokenHash, Token>

  /** The token's user, while it is neither revoked nor expired. */
  function Validates(tokens: Tokens, h: TokenHash, now: int): (r: Option<User>)
    ensures r.Some? <==> h in tokens && !tokens[h].revoked && now < tokens[h].expires
    ensures r.Some? ==> r.value == tokens[h].user
  {
    if h in tokens && !tokens[h].revoked && now < tokens[h].expires then Some(tokens[h].user) else None
  }

  function Revoked(tokens: Tokens, h: TokenHash): Tokens {
    if h in tokens then tokens[h := tokens[h].(revoked := true)] else tokens
  }

  function AllRevoked(tokens: Tokens, u: User): Tokens {
    map h | h in tokens :: if tokens[h].user == u then tokens[h].(revoked := true) else tokens[h]
  }

  function WithRole(users: Users, u: User, role: Role): Users {
    if u in users then users[u := users[u].(role := role)] else users
  }

  class AuthRefreshTokensTable {
    var rows: Tokens

    constructor ()
      ensures rows == map[]
    {
      rows := map[];
    }

    /** False is the primary key's conflict. */
    method Create(h: TokenHash, u: User, expires: int) returns (ok: bool)
      modifies this
      ensures ok <==> h !in old(rows)
      ensures rows == if ok then old(rows)[h := Token(u, expires, false)] else old(rows)
    {
      ok := h !in rows;
      if ok {
        rows := rows[h := Token(u, expires, false)];
      }
    }

    method Validate(h: TokenHash, now: int) returns (r: Option<User>)
      ensures r == Validates(rows, h, now)
      ensures forall u :: r == Some(u) <==> h in rows && !rows[h].revoked && now < rows[h].expires && rows[h].user == u
    {
      if h !in rows {
        return None;
      }
      if rows[h].revoked {
        return None;
      }
      if now >= rows[h].expires {
        return None;
      }
      return Some(rows[h].user);
    }

    method Revoke(h: TokenHash)
      modifies this
      ensures rows == Revoked(old(rows), h)
      ensures rows.Keys == old(rows).Keys && forall k :: k in rows ==>
                rows[k] == if k == h then Token(old(rows)[k].user, old(rows)[k].expires, true) else old(rows)[k]
      ensures forall now :: Validates(rows, h, now) == None
    {
      if h in rows {
        rows := rows[h := rows[h].(revoked := true)];
      }
    }

    method RevokeAllForUser(u: User)
      modifies this
      ensures rows == AllRevoked(old(rows), u)
      ensures rows.Keys == old(rows).Keys && forall k :: k in rows ==>
                rows[k] == if old(rows)[k].user == u then Token(u, old(rows)[k].expires, true) else old(rows)[k]
      ensures forall h, now :: Validates(rows, h, now) != Some(u)
    {
      rows := map h | h in rows :: if rows[h].user == u && !rows[h].revoked then rows[h].(revoked := true) else rows[h];
    }
  }

  class AuthUsersTable {
    var rows: Users

    constructor ()
      ensures rows == map[]
    {
      rows := map[];
    }

    method UserExists(u: User) returns (r: bool)
      ensures r <==> u in rows
    {
      r := u in rows;
    }

    method RegisterUser(u: User, passwordHash: string, role: Role) returns (created: bool)
      modifies this
      ensures created <==> u !in old(rows)
      ensures rows == if created then old(rows)[u := Account(passwordHash, role)] else old(rows)
    {
      var exists_ := UserExists(u);
      if exists_ {
        return false;
      }
      rows := rows[u := Account(passwordHash, role)];
      return true;
    }

    method GetUser(u: User) returns (r: Option<Role>)
      ensures r == if u in rows then Some(rows[u].role) else None
    {
      r := if u in rows then Some(rows[u].role) else None;
    }

    method Authenticate(u: User, password: string, verify: (string, string) -> bool) returns (r: Option<Role>)
      ensures r == if u in rows && verify(password, rows[u].passwordHash) then Some(rows[u].role) else None
    {
      if u !in rows {
        return None;
      }
      if !verify(password, rows[u].passwordHash) {
        return None;
      }
      return Some(rows[u].role);
    }

    method SetRole(u: User, role: Role) returns (found: bool)
      modifies this
      ensures found <==> u in old(rows)
      ensures rows == WithRole(old(rows), u, role)
      ensures rows.Keys == old(rows).Keys && forall v :: v in rows ==>
                rows[v] == if v == u then Account(old(rows)[v].passwordHash, role) else old(rows)[v]
    {
      found := UserExists(u);
      if found {
        rows := rows[u := rows[u].(role := role)];
      }
    }

    method SoftDelete(u: User) returns (found: bool)
      modifies this
      ensures found <==> u in old(rows)
      ensures rows == WithRole(old(rows), u, DELETED)
      ensures rows.Keys == old(rows).Keys && forall v :: v in rows ==>
                rows[v] == if v == u then Account(old(rows)[v].passwordHash, DELETED) else old(rows)[v]
    {
      found := SetRole(u, DELETED);
    }
  }
}
