/** The pool's append-only log of prepare/unprepare actions and what it means. */
module StatementLogs {
  import opened Prelude

  datatype Name = Name(text: string)
  datatype Sql = Sql(text: string)

  datatype Block = Block(name: Name, statements: map<Name, Sql>)

  datatype Action = Prepare(block: Block) | Unprepare(block: Block)

  datatype Log = Log(actions: seq<Action>, live: map<Name, Block>)

  datatype Error = AlreadyPrepared(block: Name) | NotPrepared(block: Name)

  const EMPTY_LOG := Log([], map[])

  function AppendPrepare(log: Log, block: Block): Result<Log, Error> {
    if block.name in log.live then Err(AlreadyPrepared(block.name))
    else Ok(Log(log.actions + [Prepare(block)], log.live[block.name := block]))
  }

  function AppendUnprepare(log: Log, name: Name): Result<Log, Error> {
    if name !in log.live then Err(NotPrepared(name))
    else Ok(Log(log.actions + [Unprepare(log.live[name])], log.live - {name}))
  }

  class StatementActionLog {
    var actions: seq<Action>
    var preparedBlocks: map<Name, Block>

    function Abstract(): Log
      reads this
    {
      Log(actions, preparedBlocks)
    }

    constructor ()
      ensures Abstract() == EMPTY_LOG
    {
      actions, preparedBlocks := [], map[];
    }

    method AppendPrepareAction(block: Block) returns (r: Result<nat, Error>)
      modifies this
      ensures match AppendPrepare(old(Abstract()), block)
              case Ok(log) => Abstract() == log && r == Ok(|log.actions|)
              case Err(e) => Abstract() == old(Abstract()) && r == Err(e)
    {
      if block.name in preparedBlocks {
        return Err(AlreadyPrepared(block.name));
      }
      preparedBlocks := preparedBlocks[block.name := block];
      actions := actions + [Prepare(preparedBlocks[block.name])];
      return Ok(|actions|);
    }

    method AppendUnprepareAction(name: Name) returns (r: Result<nat, Error>)
      modifies this
      ensures match AppendUnprepare(old(Abstract()), name)
              case Ok(log) => Abstract() == log && r == Ok(|log.actions|)
              case Err(e) => Abstract() == old(Abstract()) && r == Err(e)
    {
      if name !in preparedBlocks {
        return Err(NotPrepared(name));
      }
      var block := preparedBlocks[name];
      preparedBlocks := preparedBlocks - {name};
      actions := actions + [Unprepare(block)];
      return Ok(|actions|);
    }
  }

  /** The pool's side: its own set of block names is updated before the log gets to refuse the call. */
  class StatementRegistry {
    const log: StatementActionLog
    var preparedBlocks: set<Name>

    ghost predicate Valid()
      reads this, log
    {
      Consistent(log.Abstract()) && preparedBlocks == log.Abstract().live.Keys
    }

    constructor ()
      ensures Valid() && fresh(log) && log.Abstract() == EMPTY_LOG
    {
      log := new StatementActionLog();
      preparedBlocks := {};
    }

    method PrepareStatements(block: Block) returns (r: Result<nat, Error>)
      requires Valid()
      modifies this, log
      ensures Valid()
      ensures r.Ok? <==> block.name !in old(preparedBlocks)
      ensures preparedBlocks == old(preparedBlocks) + {block.name}
      ensures r.Ok? ==> log.actions == old(log.actions) + [Prepare(block)]
      ensures r.Err? ==> log.Abstract() == old(log.Abstract())
    {
      preparedBlocks := preparedBlocks + {block.name};
      r := log.AppendPrepareAction(block);
      AppendedPrepare(old(log.Abstract()), block);
    }

    method UnprepareStatements(name: Name) returns (r: Result<nat, Error>)
      requires Valid()
      modifies this, log
      ensures Valid()
      ensures r.Ok? <==> name in old(preparedBlocks)
      ensures preparedBlocks == old(preparedBlocks) - {name}
      ensures r.Ok? ==>
                name in old(log.preparedBlocks)
                  && log.actions == old(log.actions) + [Unprepare(old(log.preparedBlocks)[name])]
      ensures r.Err? ==> log.Abstract() == old(log.Abstract())
    {
      preparedBlocks := preparedBlocks - {name};
      r := log.AppendUnprepareAction(name);
      AppendedUnprepare(old(log.Abstract()), name);
    }
  }

  // ----- What the actions of a log mean -----

  function Front<T>(s: seq<T>): seq<T>
    requires s != []
  {
    s[..|s| - 1]
  }

  function Last<T>(s: seq<T>): T
    requires s != []
  {
    s[|s| - 1]
  }

  /** The blocks that the actions leave prepared. */
  function LiveAfter(actions: seq<Action>): map<Name, Block> {
    if actions == [] then map[]
    else
      match Last(actions)
      case Prepare(b) => LiveAfter(Front(actions))[b.name := b]
      case Unprepare(b) => LiveAfter(Front(actions)) - {b.name}
  }

  /** A block is prepared only while it is not, and unprepared only while it, and with the content it, was prepared. */
  predicate Legal(actions: seq<Action>) {
    actions == [] ||
    (&& Legal(Front(actions))
     && var live := LiveAfter(Front(actions));
        match Last(actions)
        case Prepare(b) => b.name !in live
        case Unprepare(b) => b.name in live && live[b.name] == b)
  }

  ghost predicate Consistent(log: Log) {
    Legal(log.actions) && log.live == LiveAfter(log.actions)
  }

  lemma {:induction false} AppendedPrepare(log: Log, block: Block)
    requires Consistent(log)
    ensures AppendPrepare(log, block).Ok? ==> Consistent(AppendPrepare(log, block).value)
  {
    assert Front(log.actions + [Prepare(block)]) == log.actions;
  }

  lemma {:induction false} AppendedUnprepare(log: Log, name: Name)
    requires Consistent(log)
    ensures AppendUnprepare(log, name).Ok? ==> Consistent(AppendUnprepare(log, name).value)
  {
    if name in log.live {
      assert Front(log.actions + [Unprepare(log.live[name])]) == log.actions;
      LiveByName(log.actions);
    }
  }

  lemma {:induction false} LiveByName(actions: seq<Action>)
    ensures forall n :: n in LiveAfter(actions) ==> LiveAfter(actions)[n].name == n
  {
    if actions != [] {
      LiveByName(Front(actions));
    }
  }

  datatype Call = PrepareCall(block: Block) | UnprepareCall(name: Name)

  /** Any history of calls on the log; a call that throws leaves it alone. */
  function LogAfter(calls: seq<Call>): Log {
    if calls == [] then EMPTY_LOG
    else
      var log := LogAfter(Front(calls));
      var r := match Last(calls)
               case PrepareCall(b) => AppendPrepare(log, b)
               case UnprepareCall(n) => AppendUnprepare(log, n);
      if r.Ok? then r.value else log
  }

  /** Every log the calls can build is legal, and its own map of live blocks is the meaning of its actions. */
  lemma {:induction false} LogIsItsActions(calls: seq<Call>)
    ensures Legal(LogAfter(calls).actions) && LogAfter(calls).live == LiveAfter(LogAfter(calls).actions)
  {
    if calls != [] {
      LogIsItsActions(Front(calls));
      match Last(calls)
      case PrepareCall(b) => AppendedPrepare(LogAfter(Front(calls)), b);
      case UnprepareCall(n) => AppendedUnprepare(LogAfter(Front(calls)), n);
    }
  }

  /** The kinds of the actions on one block, true for prepare, oldest first. */
  function KindsOn(actions: seq<Action>, n: Name): seq<bool> {
    if actions == [] then []
    else KindsOn(Front(actions), n) + (if Last(actions).block.name == n then [Last(actions).Prepare?] else [])
  }

  /**
   * In every reachable log the actions on a block alternate, starting with a prepare; the block is live after an odd
   * number.
   */
  lemma {:induction false} ActionsAlternate(actions: seq<Action>, n: Name)
    requires Legal(actions)
    ensures var kinds := KindsOn(actions, n);
            && (forall k :: 0 <= k < |kinds| ==> (kinds[k] <==> k % 2 == 0))
            && (n in LiveAfter(actions) <==> |kinds| % 2 == 1)
  {
    if actions != [] {
      ActionsAlternate(Front(actions), n);
    }
  }

  lemma {:induction false} LegalPrefix(actions: seq<Action>, n: nat)
    requires Legal(actions) && n <= |actions|
    ensures Legal(actions[..n])
  {
    if n < |actions| {
      LegalPrefix(Front(actions), n);
      assert Front(actions)[..n] == actions[..n];
    } else {
      assert actions[..n] == actions;
    }
  }

  /**
   * A run goes on with its next call: a prepare of a new name and an unprepare of a live one are appended, others
   * throw.
   */
  lemma {:induction false} LogGoesOn(calls: seq<Call>, call: Call)
    ensures var before, after := LogAfter(calls), LogAfter(calls + [call]);
            match call
            case PrepareCall(b) =>
              if b.name in before.live then after == before
              else after.actions == before.actions + [Prepare(b)] && after.live == before.live[b.name := b]
            case UnprepareCall(n) =>
              if n !in before.live then after == before
              else after.actions == before.actions + [Unprepare(before.live[n])] && after.live == before.live - {n}
    ensures LogAfter([]).actions == [] && LogAfter([]).live == map[]
  {
    assert Front(calls + [call]) == calls && Last(calls + [call]) == call;
  }
}
