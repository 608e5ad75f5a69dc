/** Replaying the action log on a connection: cursor, prepared block set and the server's own statements. */
module StatementSync {
  import opened Prelude
  import opened StatementLogs

  /** `server` is what the PostgreSQL session has prepared: statement name to SQL text. */
  datatype Conn = Conn(cursor: nat, prepared: set<Name>, server: map<Name, Sql>)

  const FRESH := Conn(0, {}, map[])

  function StatementNames(a: Action): set<Name> {
    a.block.statements.Keys
  }

  /** The server refuses a name that is prepared already, and cannot deallocate one that is not. */
  predicate ServerAccepts(server: map<Name, Sql>, a: Action) {
    if a.Prepare? then StatementNames(a) !! server.Keys else StatementNames(a) <= server.Keys
  }

  function Apply(c: Conn, a: Action): Conn {
    match a
    case Prepare(b) => Conn(c.cursor + 1, c.prepared + {b.name}, c.server + b.statements)
    case Unprepare(b) => Conn(c.cursor + 1, c.prepared - {b.name}, c.server - b.statements.Keys)
  }

  /** syncStatements without network failures; None when the server refuses a statement. */
  function SyncAll(c: Conn, actions: seq<Action>): Option<Conn>
    ensures SyncAll(c, actions).Some? ==>
              SyncAll(c, actions).value.cursor == if c.cursor < |actions| then |actions| else c.cursor
  {
    if |actions| <= c.cursor then Some(c)
    else
      match SyncAll(c, Front(actions))
      case None => None
      case Some(d) => if ServerAccepts(d.server, Last(actions)) then Some(Apply(d, Last(actions))) else None
  }

  /**
   * A sync that stopped inside `a`: the statements in `done` went through, the cursor and the block set did not move.
   */
  ghost predicate PartWay(base: Conn, a: Action, done: set<Name>, c: Conn) {
    && done < StatementNames(a)
    && c.cursor == base.cursor && c.prepared == base.prepared
    && (a.Prepare? ==>
         done !! base.server.Keys && c.server == base.server + (map n | n in done :: a.block.statements[n]))
    && (a.Unprepare? ==> done <= base.server.Keys && c.server == base.server - done)
  }

  /** Where a failed sync from `c0` may leave the connection. */
  ghost predicate StoppedAt(c0: Conn, actions: seq<Action>, c: Conn) {
    && c0.cursor <= c.cursor < |actions|
    && SyncAll(c0, actions[..c.cursor]).Some?
    && exists done :: PartWay(SyncAll(c0, actions[..c.cursor]).value, actions[c.cursor], done, c)
  }

  class LibpqConnection {
    var statementCursor: nat
    var preparedBlocks: set<Name>
    var server: map<Name, Sql>

    function Abstract(): Conn
      reads this
    {
      Conn(statementCursor, preparedBlocks, server)
    }

    constructor ()
      ensures Abstract() == FRESH
    {
      statementCursor, preparedBlocks, server := 0, {}, map[];
    }

    /** A new session knows no statement; the block set is not cleared. */
    method Reconnect()
      modifies this
      ensures Abstract() == Reconnected(old(Abstract()))
    {
      statementCursor := 0;
      server := map[];
    }

    /**
     * syncStatements, holding the execution queue. `network` is how many statement calls succeed before the
     * connection fails; None is a connection that does not fail.
     */
    method SyncStatements(actions: seq<Action>, network: Option<nat>) returns (ok: bool)
      modifies this
      ensures ok ==> SyncAll(old(Abstract()), actions) == Some(Abstract())
      ensures network == None ==> (ok <==> SyncAll(old(Abstract()), actions).Some?)
      ensures !ok ==> StoppedAt(old(Abstract()), actions, Abstract())
    {
      ghost var start := Abstract();
      var left := network;
      while statementCursor < |actions|
        invariant start.cursor <= statementCursor
        invariant statementCursor <= |actions| || statementCursor == start.cursor
        invariant SyncAll(start, if statementCursor <= |actions| then actions[..statementCursor] else actions) ==
                  Some(Abstract())
        invariant network == None ==> left == None
        decreases |actions| - statementCursor
      {
        assert Front(actions[..statementCursor + 1]) == actions[..statementCursor];
        var action := actions[statementCursor];
        ok, left := RunStatements(action, left);
        if !ok {
          if network == None {
            RefusedForGood(start, actions, statementCursor);
          }
          return;
        }
        preparedBlocks := if action.Prepare?
          then preparedBlocks + {action.block.name} else preparedBlocks - {action.block.name};
        statementCursor := statementCursor + 1;
      }
      ok := true;
      assert statementCursor <= |actions| ==> actions[..statementCursor] == actions;
    }

    /** The loop over the statements of one action, which come in any order; stops at the first call that fails. */
    method RunStatements(action: Action, network: Option<nat>) returns (ok: bool, left: Option<nat>)
      modifies this`server
      ensures network == None ==> left == None && (ok <==> ServerAccepts(old(server), action))
      ensures ok ==> ServerAccepts(old(server), action)
      ensures ok ==> server == Apply(old(Abstract()), action).server
      ensures !ok ==> exists done :: PartWay(old(Abstract()), action, done, Abstract())
    {
      left := network;
      var todo := StatementNames(action);
      while todo != {}
        invariant todo <= StatementNames(action)
        invariant var done := StatementNames(action) - todo;
                  && (action.Prepare? ==> done !! old(server).Keys)
                  && (action.Prepare? ==> server == old(server) + (map n | n in done :: action.block.statements[n]))
                  && (action.Unprepare? ==> done <= old(server).Keys && server == old(server) - done)
        invariant network == None ==> left == None
        decreases todo
      {
        var n :| n in todo;
        ok := left != Some(0) && (if action.Prepare? then n !in server else n in server);
        if !ok {
          assert PartWay(old(Abstract()), action, StatementNames(action) - todo, Abstract());
          return;
        }
        left := if left == None then None else Some(left.value - 1);
        server := if action.Prepare? then server[n := action.block.statements[n]] else server - {n};
        todo := todo - {n};
        assert StatementNames(action) - todo == (StatementNames(action) - (todo + {n})) + {n};
      }
      ok := true;
      assert StatementNames(action) - todo == StatementNames(action);
      assert (map n | n in StatementNames(action) :: action.block.statements[n]) == action.block.statements;
    }
  }

  /** connectAsync/reconnectAsync: the cursor restarts on a session without statements; the block set stays. */
  function Reconnected(c: Conn): Conn {
    Conn(0, c.prepared, map[])
  }

  lemma {:induction false} RefusedForGood(c: Conn, actions: seq<Action>, k: nat)
    requires c.cursor <= k < |actions|
    requires SyncAll(c, actions[..k]).Some? && !ServerAccepts(SyncAll(c, actions[..k]).value.server, actions[k])
    ensures SyncAll(c, actions).None?
    decreases |actions|
  {
    if k == |actions| - 1 {
      assert Front(actions) == actions[..k];
    } else {
      assert Front(actions)[..k] == actions[..k];
      RefusedForGood(c, Front(actions), k);
    }
  }

  // ----- The meaning of a log on a fresh connection -----

  function Fold(actions: seq<Action>): Conn
    ensures Fold(actions).cursor == |actions|
  {
    if actions == [] then FRESH else Apply(Fold(Front(actions)), Last(actions))
  }

  /** No block is prepared while a live block has a statement of the same name. */
  predicate NonClashing(actions: seq<Action>) {
    actions == [] ||
    (&& NonClashing(Front(actions))
     && (Last(actions).Prepare? ==> NewNames(Last(actions), LiveAfter(Front(actions)))))
  }

  predicate NewNames(a: Action, live: map<Name, Block>) {
    forall b :: b in live ==> StatementNames(a) !! live[b].statements.Keys
  }

  /** The statements of the live blocks, each owned by one block. */
  ghost predicate ServerIsLive(server: map<Name, Sql>, live: map<Name, Block>) {
    && (forall b, n :: b in live && n in live[b].statements ==> n in server && server[n] == live[b].statements[n])
    && (forall n :: n in server ==> exists b :: b in live && n in live[b].statements)
    && (forall a, b :: a in live && b in live && a != b ==> live[a].statements.Keys !! live[b].statements.Keys)
  }

  /** After any legal log without name clashes the session holds exactly the statements of the live blocks. */
  lemma {:induction false} FoldIsLive(actions: seq<Action>)
    requires Legal(actions) && NonClashing(actions)
    ensures Fold(actions).prepared == LiveAfter(actions).Keys
    ensures ServerIsLive(Fold(actions).server, LiveAfter(actions))
  {
    if actions != [] {
      var before := Front(actions);
      FoldIsLive(before);
      if Last(actions).Prepare? {
        NewToServerIff(Last(actions), Fold(before).server, LiveAfter(before));
        AddBlock(Fold(before).server, LiveAfter(before), Last(actions).block);
      } else {
        RemoveBlock(Fold(before).server, LiveAfter(before), Last(actions).block);
      }
    }
  }

  /** The server has the statement names of the live blocks and no other. */
  lemma {:induction false} NewToServerIff(a: Action, server: map<Name, Sql>, live: map<Name, Block>)
    requires ServerIsLive(server, live)
    ensures StatementNames(a) !! server.Keys <==> NewNames(a, live)
  {
    if n :| n in StatementNames(a) && n in server {
      var b :| b in live && n in live[b].statements;
      assert n in live[b].statements.Keys;
    }
    if b :| b in live && !(StatementNames(a) !! live[b].statements.Keys) {
      var n :| n in StatementNames(a) && n in live[b].statements.Keys;
      assert n in server;
    }
  }

  lemma {:induction false} AddBlock(server: map<Name, Sql>, live: map<Name, Block>, b: Block)
    requires ServerIsLive(server, live) && b.name !in live && b.statements.Keys !! server.Keys
    ensures ServerIsLive(server + b.statements, live[b.name := b])
  {
    var after := live[b.name := b];
    forall n | n in server + b.statements
      ensures exists x :: x in after && n in after[x].statements
    {
      if n in b.statements {
        assert n in after[b.name].statements;
      } else {
        var x :| x in live && n in live[x].statements;
        assert n in after[x].statements;
      }
    }
  }

  lemma {:induction false} RemoveBlock(server: map<Name, Sql>, live: map<Name, Block>, b: Block)
    requires ServerIsLive(server, live) && b.name in live && live[b.name] == b
    ensures b.statements.Keys <= server.Keys
    ensures ServerIsLive(server - b.statements.Keys, live - {b.name})
  {
    var after := live - {b.name};
    forall n | n in server - b.statements.Keys
      ensures exists x :: x in after && n in after[x].statements
    {
      var x :| x in live && n in live[x].statements;
      assert x in after;
    }
  }

  lemma {:induction false} NonClashingPrefix(actions: seq<Action>, n: nat)
    requires NonClashing(actions) && n <= |actions|
    ensures NonClashing(actions[..n])
  {
    if n < |actions| {
      NonClashingPrefix(Front(actions), n);
      assert Front(actions)[..n] == actions[..n];
    } else {
      assert actions[..n] == actions;
    }
  }

  /** One more sync with the first n actions, on a connection that has had the first c. */
  lemma {:induction false} SyncFromFold(log: seq<Action>, c: nat, n: nat)
    requires Legal(log) && NonClashing(log) && c <= |log| && n <= |log|
    ensures SyncAll(Fold(log[..c]), log[..n]) == Some(Fold(log[..if c < n then n else c]))
    decreases n
  {
    if c < n {
      assert Front(log[..n]) == log[..n - 1];
      SyncFromFold(log, c, n - 1);
      LegalPrefix(log, n);
      NonClashingPrefix(log, n);
      FoldIsLive(log[..n - 1]);
      assert Last(log[..n]) == log[n - 1];
      NewToServerIff(log[n - 1], Fold(log[..n - 1]).server, LiveAfter(log[..n - 1]));
      if log[n - 1].Unprepare? {
        RemoveBlock(Fold(log[..n - 1]).server, LiveAfter(log[..n - 1]), log[n - 1].block);
      }
    }
  }

  function SyncEach(c: Conn, log: seq<Action>, lengths: seq<nat>): Option<Conn>
    requires forall k :: 0 <= k < |lengths| ==> lengths[k] <= |log|
    decreases |lengths|
  {
    if lengths == [] then Some(c)
    else
      match SyncAll(c, log[..lengths[0]])
      case None => None
      case Some(d) => SyncEach(d, log, lengths[1..])
  }

  function Longest(lengths: seq<nat>, least: nat): (r: nat)
    ensures r >= least && forall k :: 0 <= k < |lengths| ==> lengths[k] <= r
    ensures r == least || r in lengths
  {
    if lengths == [] then least
    else Longest(lengths[1..], if least < lengths[0] then lengths[0] else least)
  }

  lemma {:induction false} SyncEachFromFold(log: seq<Action>, c: nat, lengths: seq<nat>)
    requires Legal(log) && NonClashing(log) && c <= |log|
    requires forall k :: 0 <= k < |lengths| ==> lengths[k] <= |log|
    ensures SyncEach(Fold(log[..c]), log, lengths) == Some(Fold(log[..Longest(lengths, c)]))
    decreases |lengths|
  {
    if lengths != [] {
      SyncFromFold(log, c, lengths[0]);
      SyncEachFromFold(log, if c < lengths[0] then lengths[0] else c, lengths[1..]);
    }
  }

  // ----- Main results -----

  /** The order of snapshots does not matter: any sequence of them leaves the state of the longest one. */
  lemma {:induction false} SnapshotsInAnyOrder(log: seq<Action>, lengths: seq<nat>)
    requires Legal(log) && NonClashing(log)
    requires forall k :: 0 <= k < |lengths| ==> lengths[k] <= |log|
    ensures Longest(lengths, 0) <= |log|
    ensures SyncEach(FRESH, log, lengths) == Some(Fold(log[..Longest(lengths, 0)]))
  {
    assert log[..0] == [];
    SyncEachFromFold(log, 0, lengths);
  }

  /** A fresh connection can be brought up to a legal log exactly when no two live blocks share a statement name. */
  lemma {:induction false} FreshSyncSucceedsIff(log: seq<Action>)
    requires Legal(log)
    ensures SyncAll(FRESH, log).Some? <==> NonClashing(log)
    ensures NonClashing(log) ==> SyncAll(FRESH, log) == Some(Fold(log))
  {
    if log != [] {
      var before := Front(log);
      FreshSyncSucceedsIff(before);
      if NonClashing(before) {
        FoldIsLive(before);
        NewToServerIff(Last(log), Fold(before).server, LiveAfter(before));
        if Last(log).Unprepare? {
          RemoveBlock(Fold(before).server, LiveAfter(before), Last(log).block);
        }
      }
    }
  }

  /** Whether some action is about this block. */
  predicate ActedOn(actions: seq<Action>, n: Name) {
    exists k :: 0 <= k < |actions| && actions[k].block.name == n
  }

  lemma {:induction false} ActedOnLast(actions: seq<Action>, b: Name)
    requires actions != []
    ensures ActedOn(actions, b) <==> ActedOn(Front(actions), b) || Last(actions).block.name == b
  {
    if Last(actions).block.name == b {
      assert actions[|actions| - 1].block.name == b;
    }
    if ActedOn(Front(actions), b) {
      var k :| 0 <= k < |Front(actions)| && Front(actions)[k].block.name == b;
      assert actions[k].block.name == b;
    }
    if ActedOn(actions, b) && Last(actions).block.name != b {
      var k :| 0 <= k < |actions| && actions[k].block.name == b;
      assert Front(actions)[k].block.name == b;
    }
  }

  /** Replaying a whole log on a session that starts empty, whatever the block set was. */
  lemma {:induction false} SyncAfterReconnect(c: Conn, log: seq<Action>)
    requires Legal(log) && NonClashing(log)
    ensures var r := SyncAll(Reconnected(c), log);
            && r.Some?
            && r.value.cursor == |log| && r.value.server == Fold(log).server
            && forall b :: b in r.value.prepared <==> b in LiveAfter(log) || (b in c.prepared && !ActedOn(log, b))
  {
    if log != [] {
      var before, a := Front(log), Last(log);
      SyncAfterReconnect(c, before);
      FoldIsLive(before);
      if a.Unprepare? {
        RemoveBlock(Fold(before).server, LiveAfter(before), a.block);
      }
      forall b
        ensures ActedOn(log, b) <==> ActedOn(before, b) || a.block.name == b
      {
        ActedOnLast(log, b);
      }
      hide ActedOn, Legal, NonClashing, ServerIsLive;
    }
  }

  /**
   * A reconnect keeps the stale block set, yet one sync makes the connection equal to a fresh one exactly when the
   * snapshot has an action on every stale block: the last action on a block decides.
   */
  lemma {:induction false} ReconnectHealsIff(c: Conn, log: seq<Action>, n: nat)
    requires Legal(log) && NonClashing(log) && n <= |log|
    ensures SyncAll(Reconnected(c), log[..n]).Some?
    ensures SyncAll(Reconnected(c), log[..n]) == Some(Fold(log[..n])) <==>
            forall b :: b in c.prepared ==> ActedOn(log[..n], b)
  {
    LegalPrefix(log, n);
    NonClashingPrefix(log, n);
    SyncAfterReconnect(c, log[..n]);
    FoldIsLive(log[..n]);
    var r := SyncAll(Reconnected(c), log[..n]).value;
    if r == Fold(log[..n]) {
      forall b | b in c.prepared
        ensures ActedOn(log[..n], b)
      {
        if !ActedOn(log[..n], b) {
          assert b in r.prepared;
          LiveWasActedOn(log[..n], b);
        }
      }
    }
    if forall b :: b in c.prepared ==> ActedOn(log[..n], b) {
      assert r.prepared == Fold(log[..n]).prepared;
    }
  }

  lemma {:induction false} LiveWasActedOn(actions: seq<Action>, b: Name)
    requires b in LiveAfter(actions)
    ensures ActedOn(actions, b)
  {
    if Last(actions).block.name == b {
      assert actions[|actions| - 1].block.name == b;
    } else {
      LiveWasActedOn(Front(actions), b);
      var k :| 0 <= k < |Front(actions)| && Front(actions)[k].block.name == b;
      assert actions[k].block.name == b;
    }
  }

  /** In particular a snapshot at least as long as what the connection had seen heals it. */
  lemma {:induction false} ReconnectThenFullSync(log: seq<Action>, had: nat, n: nat)
    requires Legal(log) && NonClashing(log) && had <= n <= |log|
    ensures SyncAll(Reconnected(Fold(log[..had])), log[..n]) == Some(Fold(log[..n]))
  {
    var c := Fold(log[..had]);
    LegalPrefix(log, had);
    NonClashingPrefix(log, had);
    FoldIsLive(log[..had]);
    forall b | b in c.prepared
      ensures ActedOn(log[..n], b)
    {
      LiveWasActedOn(log[..had], b);
      var k :| 0 <= k < had && log[..had][k].block.name == b;
      assert log[..n][k].block.name == b;
    }
    ReconnectHealsIff(c, log, n);
  }

  /**
   * A sync that stopped inside an action can be retried exactly when none of the action's statements had gone
   * through.
   */
  lemma {:induction false} RetryWorksIff(base: Conn, actions: seq<Action>, done: set<Name>, c: Conn)
    requires base.cursor < |actions| && SyncAll(base, actions).Some?
    requires PartWay(base, actions[base.cursor], done, c)
    ensures SyncAll(c, actions).Some? <==> done == {}
  {
    var a := actions[base.cursor];
    if done == {} {
      assert c.server == base.server;
      assert c == base;
    } else {
      var n :| n in done;
      assert a.Prepare? ==> n in c.server && n in StatementNames(a);
      assert a.Unprepare? ==> n !in c.server && n in StatementNames(a);
      assert !ServerAccepts(c.server, a);
      assert SyncAll(c, actions[..c.cursor]) == Some(c);
      RefusedForGood(c, actions, c.cursor);
    }
  }
}
