/**
 * The dispatcher, its per-connection channel, the wire and the test node as one step system. A step is the
 * stretch between two suspension points of one coroutine.
 */
module QueueProtocol {
  import opened Prelude
  import opened TestingQueues
  import opened TestingQueueRuns

  const CHANNEL_CAPACITY := 2

  /**
   * One connection, from the dispatcher's send to the node and back. Each field lists the submissions at that
   * stage, oldest first; a response carries no id on the wire, the one it answers is recorded here.
   */
  datatype Conn = Conn(
    pending: seq<Id>,    // testSubmission coroutines that have not completed async_send
    channel: seq<Id>,
    writing: seq<Id>,    // taken by writeLoop, rpc.write not completed
    requests: seq<Id>,   // on the wire to the node
    testing: seq<Id>,    // read by the node
    responses: seq<Id>,  // on the wire to readLoop
    alive: bool,
    finished: seq<Id>,   // answered by the node on this connection
    acked: seq<Id>)      // answers read by the dispatcher on this connection

  const NEW_CONN := Conn([], [], [], [], [], [], true, [], [])

  datatype System = System(h: History, conns: map<Id, Conn>)

  const START := System(EMPTY, map[])

  datatype Move =
    | Submit(submission: Id)
    | Handshake(id: Id)
    | SendCompletes(id: Id)
    | WriterReceives(id: Id)
    | WriteCompletes(id: Id)
    | NodeReads(id: Id)
    | NodeResponds(id: Id)
    | DispatcherReads(id: Id)
    | ConnectionBreaks(id: Id)
    | HandlerEnds(id: Id)

  function Tokens(c: Conn): seq<Id> {
    c.responses + c.testing + c.requests + c.writing + c.channel + c.pending
  }

  /** A dispatch starts a testSubmission coroutine on the connection of the invoker. */
  function Deliver(conns: map<Id, Conn>, before: seq<Send>, after: seq<Send>): map<Id, Conn> {
    if |after| <= |before| then conns
    else
      var send := after[|before|];
      if send.invokerId in conns
      then conns[send.invokerId := conns[send.invokerId].(pending := conns[send.invokerId].pending + [send.submission])]
      else conns
  }

  function Dispatcher(sys: System, ev: Event, conns: map<Id, Conn>): System {
    var h := Step(sys.h, ev);
    System(h, Deliver(conns, sys.h.st.sent, h.st.sent))
  }

  /** What a step on one connection does to that connection; None when the step cannot happen. */
  function ConnMove(c: Conn, m: Move): Option<Conn> {
    match m
    case SendCompletes(_) =>
      if c.pending != [] && |c.channel| < CHANNEL_CAPACITY
      then Some(c.(pending := c.pending[1..], channel := c.channel + [c.pending[0]])) else None
    case WriterReceives(_) =>
      if c.channel != [] && c.writing == []
      then Some(c.(channel := c.channel[1..], writing := [c.channel[0]])) else None
    case WriteCompletes(_) =>
      if c.writing != []
      then
        var requests := if c.alive then c.requests + [c.writing[0]] else c.requests;
        Some(c.(writing := c.writing[1..], requests := requests))
      else None
    case NodeReads(_) =>
      if c.requests != [] && c.testing == []
      then Some(c.(requests := c.requests[1..], testing := [c.requests[0]])) else None
    case NodeResponds(_) =>
      if c.testing != []
      then Some(c.(testing := c.testing[1..], responses := c.responses + [c.testing[0]],
        finished := c.finished + [c.testing[0]]))
      else None
    case DispatcherReads(_) =>
      if c.responses != []
      then Some(c.(responses := c.responses[1..], acked := c.acked + [c.responses[0]])) else None
    case ConnectionBreaks(_) =>
      if c.alive then Some(c.(alive := false, requests := [], testing := [], responses := [])) else None
    case HandlerEnds(_) => if c.alive then None else Some(c)
    case _ => None
  }

  function Next(sys: System, m: Move): Option<System> {
    match m
    case Submit(s) =>
      if s == IDLE then None else Some(Dispatcher(sys, PushEvent(s), sys.conns))
    case Handshake(id) =>
      if id in sys.conns then None
      else Some(Dispatcher(sys, ConnectEvent(DefaultInvoker(id)), sys.conns[id := NEW_CONN]))
    case _ =>
      if m.id !in sys.conns || ConnMove(sys.conns[m.id], m).None? then None
      else
        var c := ConnMove(sys.conns[m.id], m).value;
        match m
        case DispatcherReads(id) => Some(Dispatcher(sys, FreeEvent(id), sys.conns[id := c]))
        case HandlerEnds(id) => Some(System(Step(sys.h, DisconnectEvent(id)), sys.conns - {id}))
        case _ => Some(sys.(conns := sys.conns[m.id := c]))
  }

  /** A run of enabled steps. */
  function Reach(sys: System, moves: seq<Move>): Option<System>
    decreases |moves|
  {
    if moves == [] then Some(sys)
    else
      match Next(sys, moves[0])
      case None => None
      case Some(sys') => Reach(sys', moves[1..])
  }

  // ----- The invariant -----

  /** The connection of an invoker holds one token for the submission it is busy with, and none when it is idle. */
  ghost predicate Matches(c: Conn, busyWith: Id) {
    && (c.alive ==> Tokens(c) == (if busyWith == IDLE then [] else [busyWith]))
    && (!c.alive ==> Tokens(c) == [] || (busyWith != IDLE && Tokens(c) == [busyWith]))
    && (c.alive ==> c.acked + c.responses == c.finished)
    && c.acked <= c.finished
  }

  ghost predicate Linked(entries: seq<Entry>, conns: map<Id, Conn>) {
    && (forall id :: id in conns <==> IndexOf(entries, id).Some?)
    && forall i :: 0 <= i < |entries| ==>
         entries[i].invoker.id in conns && Matches(conns[entries[i].invoker.id], entries[i].busyWith)
  }

  ghost predicate SysInv(sys: System) {
    Inv(sys.h) && Linked(sys.h.st.entries, sys.conns)
  }

  /** Sending `s` on a connection that holds no token. */
  lemma {:induction false} SendMatches(c: Conn, s: Id)
    requires Matches(c, IDLE) && s != IDLE
    ensures Matches(c.(pending := c.pending + [s]), s)
  {
    assert Tokens(c.(pending := c.pending + [s])) == Tokens(c) + [s];
  }

  lemma {:induction false} SameIds(entries: seq<Entry>, i: nat, busyWith: Id)
    requires i < |entries|
    ensures forall id :: IndexOf(SetBusy(entries, i, busyWith), id) == IndexOf(entries, id)
  {
    var after := SetBusy(entries, i, busyWith);
    assert forall j :: 0 <= j < |entries| ==> after[j].invoker.id == entries[j].invoker.id;
  }

  lemma {:induction false} LinkedSet(entries: seq<Entry>, conns: map<Id, Conn>, i: nat, busyWith: Id, c: Conn)
    requires DistinctIds(entries) && i < |entries|
    requires forall id :: id in conns <==> IndexOf(entries, id).Some?
    requires forall j :: 0 <= j < |entries| && j != i ==>
               entries[j].invoker.id in conns && Matches(conns[entries[j].invoker.id], entries[j].busyWith)
    requires Matches(c, busyWith)
    ensures Linked(SetBusy(entries, i, busyWith), conns[entries[i].invoker.id := c])
  {
    hide Matches, IndexOf;
    SameIds(entries, i, busyWith);
    assert IndexOf(entries, entries[i].invoker.id).Some?;
  }

  lemma {:induction false} SubmitKeeps(sys: System, s: Id)
    requires SysInv(sys) && s != IDLE
    ensures SysInv(Dispatcher(sys, PushEvent(s), sys.conns))
  {
    hide Matches;
    var st := sys.h.st;
    StepKeeps(sys.h, PushEvent(s));
    PushForm(st, s);
    if FirstIdle(st.entries, s).Some? {
      var i := FirstIdle(st.entries, s).value;
      var id := st.entries[i].invoker.id;
      assert Push(st, s).sent[|st.sent|] == Send(id, s);
      SendMatches(sys.conns[id], s);
      LinkedSet(st.entries, sys.conns, i, s, sys.conns[id].(pending := sys.conns[id].pending + [s]));
    }
  }

  lemma {:induction false} LinkedJoin(entries: seq<Entry>, conns: map<Id, Conn>, invoker: Invoker, busyWith: Id,
                                      c: Conn)
    requires Linked(entries, conns) && invoker.id !in conns && Matches(c, busyWith)
    ensures Linked(entries + [Entry(invoker, busyWith)], conns[invoker.id := c])
  {
    hide Matches;
    var after := entries + [Entry(invoker, busyWith)];
    assert after[|entries|].invoker.id == invoker.id;
    assert forall j :: 0 <= j < |entries| ==> after[j] == entries[j];
    forall id
      ensures id in conns[invoker.id := c] <==> IndexOf(after, id).Some?
    {
    }
  }

  lemma {:induction false} NewConnMatches()
    ensures Matches(NEW_CONN, IDLE)
  {
  }

  lemma {:induction false} HandshakeLinked(st: State, conns: map<Id, Conn>, id: Id)
    requires Linked(st.entries, conns) && id !in conns && IDLE !in st.queue
    ensures var st' := Connect(st, DefaultInvoker(id));
            Linked(st'.entries, Deliver(conns[id := NEW_CONN], st.sent, st'.sent))
  {
    hide Matches;
    var invoker := DefaultInvoker(id);
    ConnectForm(st, invoker);
    NewConnMatches();
    match FirstAccepted(st.queue, invoker)
    case None =>
      LinkedJoin(st.entries, conns, invoker, IDLE, NEW_CONN);
    case Some(k) =>
      var s := st.queue[k];
      var c := NEW_CONN.(pending := NEW_CONN.pending + [s]);
      assert Connect(st, invoker).sent[|st.sent|] == Send(id, s);
      SendMatches(NEW_CONN, s);
      LinkedJoin(st.entries, conns, invoker, s, c);
      assert conns[id := NEW_CONN][id := c] == conns[id := c];
  }

  lemma {:induction false} HandshakeKeeps(sys: System, id: Id)
    requires SysInv(sys) && id !in sys.conns
    ensures SysInv(Dispatcher(sys, ConnectEvent(DefaultInvoker(id)), sys.conns[id := NEW_CONN]))
  {
    hide Matches, Conserved, OnlyRequeuedWait, AfterTry, Deliver;
    StepKeeps(sys.h, ConnectEvent(DefaultInvoker(id)));
    HandshakeLinked(sys.h.st, sys.conns, id);
  }

  /** The head of one stage moves to the tail of the next. */
  lemma {:induction false} MovedOn(a: seq<Id>, b: seq<Id>)
    requires b != []
    ensures (a + [b[0]]) + b[1..] == a + b
  {
  }

  lemma {:induction false} StageMoveTokens(c: Conn, m: Move)
    requires ConnMove(c, m).Some?
    requires m.SendCompletes? || m.WriterReceives? || m.NodeReads? || m.NodeResponds? || (m.WriteCompletes? && c.alive)
    ensures Tokens(ConnMove(c, m).value) == Tokens(c)
  {
    match m
    case SendCompletes(_) => MovedOn(c.channel, c.pending);
    case WriterReceives(_) => MovedOn(c.writing, c.channel);
    case WriteCompletes(_) => MovedOn(c.requests, c.writing);
    case NodeReads(_) => MovedOn(c.testing, c.requests);
    case NodeResponds(_) => MovedOn(c.responses, c.testing);
  }

  /** A connection step that does not involve the queue moves the token along or, on a dead wire, drops it. */
  lemma {:induction false} ConnMoveMatches(c: Conn, m: Move, busyWith: Id)
    requires Matches(c, busyWith) && ConnMove(c, m).Some?
    requires !m.DispatcherReads?
    ensures Matches(ConnMove(c, m).value, busyWith)
  {
    if m.ConnectionBreaks? {
      BreakMatches(c, m, busyWith);
    } else if m.WriteCompletes? && !c.alive {
      DroppedWriteMatches(c, m, busyWith);
    } else if !m.HandlerEnds? {
      hide Tokens;
      StageMoveTokens(c, m);
      if m.NodeResponds? {
        assert c.acked + (c.responses + [c.testing[0]]) == (c.acked + c.responses) + [c.testing[0]];
      }
    }
  }

  lemma {:induction false} BreakMatches(c: Conn, m: Move, busyWith: Id)
    requires Matches(c, busyWith) && ConnMove(c, m).Some? && m.ConnectionBreaks?
    ensures Matches(ConnMove(c, m).value, busyWith)
  {
    var c' := ConnMove(c, m).value;
    assert Tokens(c') == c.writing + c.channel + c.pending;
    assert Tokens(c) == (c.responses + c.testing + c.requests) + Tokens(c');
  }

  lemma {:induction false} DroppedWriteMatches(c: Conn, m: Move, busyWith: Id)
    requires Matches(c, busyWith) && ConnMove(c, m).Some? && m.WriteCompletes? && !c.alive
    ensures Matches(ConnMove(c, m).value, busyWith)
  {
    var c' := ConnMove(c, m).value;
    assert |Tokens(c')| == |Tokens(c)| - 1;
    assert Tokens(c') == [];
  }

  /**
   * The answer the dispatcher reads is for the submission its invoker is busy with; reading it empties the
   * connection.
   */
  lemma {:induction false} ReadMatches(c: Conn, id: Id, busyWith: Id)
    requires Matches(c, busyWith) && ConnMove(c, DispatcherReads(id)).Some? && c.alive
    ensures busyWith != IDLE && c.responses == [busyWith]
    ensures Matches(ConnMove(c, DispatcherReads(id)).value, IDLE)
  {
    var c' := ConnMove(c, DispatcherReads(id)).value;
    assert c.responses == [c.responses[0]] + c.responses[1..];
    assert Tokens(c) == [c.responses[0]] + Tokens(c');
    assert Tokens(c)[0] == c.responses[0];
    assert |Tokens(c')| == 0;
    assert c.acked + c.responses == c'.acked + c'.responses;
  }

  /** Nothing reaches the dispatcher over a dead connection. */
  ghost predicate DeadSilent(conns: map<Id, Conn>) {
    forall id :: id in conns && !conns[id].alive ==>
      conns[id].responses == [] && conns[id].testing == [] && conns[id].requests == []
  }

  lemma {:induction false} ReadLinked(st: State, conns: map<Id, Conn>, id: Id, i: nat, c: Conn)
    requires DistinctIds(st.entries) && Linked(st.entries, conns) && IDLE !in st.queue
    requires IndexOf(st.entries, id) == Some(i) && Matches(c, IDLE)
    ensures Free(st, id).Ok?
    ensures var st' := Free(st, id).value;
            Linked(st'.entries, Deliver(conns[id := c], st.sent, st'.sent))
  {
    hide Matches;
    FreeForm(st, id, i);
    match FirstAccepted(st.queue, st.entries[i].invoker)
    case None =>
      LinkedSet(st.entries, conns, i, IDLE, c);
    case Some(k) =>
      var s := st.queue[k];
      assert Free(st, id).value.sent[|st.sent|] == Send(id, s);
      SendMatches(c, s);
      var c' := c.(pending := c.pending + [s]);
      LinkedSet(st.entries, conns, i, s, c');
      assert conns[id := c][id := c'] == conns[id := c'];
  }

  /** Reading the answer leaves a connection without tokens. */
  lemma {:induction false} ReadEmpties(entries: seq<Entry>, conns: map<Id, Conn>, id: Id)
    requires Linked(entries, conns) && id in conns && DeadSilent(conns)
    requires ConnMove(conns[id], DispatcherReads(id)).Some?
    ensures Matches(ConnMove(conns[id], DispatcherReads(id)).value, IDLE)
  {
    hide Matches;
    var i := IndexOf(entries, id).value;
    assert conns[id].alive;
    ReadMatches(conns[id], id, entries[i].busyWith);
  }

  lemma {:induction false} ReadKeeps(sys: System, id: Id)
    requires SysInv(sys) && id in sys.conns && DeadSilent(sys.conns)
    requires ConnMove(sys.conns[id], DispatcherReads(id)).Some?
    ensures SysInv(Dispatcher(sys, FreeEvent(id), sys.conns[id := ConnMove(sys.conns[id], DispatcherReads(id)).value]))
  {
    ReadEmpties(sys.h.st.entries, sys.conns, id);
    StepKeeps(sys.h, FreeEvent(id));
    hide Matches, Conserved, OnlyRequeuedWait, AfterTry, Deliver, ConnMove, DeadSilent;
    var i := IndexOf(sys.h.st.entries, id).value;
    ReadLinked(sys.h.st, sys.conns, id, i, ConnMove(sys.conns[id], DispatcherReads(id)).value);
    hide Linked;
  }

  lemma {:induction false} LinkedRemove(entries: seq<Entry>, conns: map<Id, Conn>, i: nat)
    requires DistinctIds(entries) && Linked(entries, conns) && i < |entries|
    ensures Linked(RemoveAt(entries, i), conns - {entries[i].invoker.id})
  {
    hide Matches;
    var id := entries[i].invoker.id;
    var after := RemoveAt(entries, i);
    assert forall j :: 0 <= j < |after| ==> after[j] == entries[if j < i then j else j + 1];
    forall x
      ensures x in conns - {id} <==> IndexOf(after, x).Some?
    {
      if x in conns && x != id {
        var j := IndexOf(entries, x).value;
        assert after[if j < i then j else j - 1] == entries[j];
      }
    }
  }

  lemma {:induction false} EndKeeps(sys: System, id: Id)
    requires SysInv(sys) && id in sys.conns
    ensures SysInv(System(Step(sys.h, DisconnectEvent(id)), sys.conns - {id}))
  {
    StepKeeps(sys.h, DisconnectEvent(id));
    hide Matches, Conserved, OnlyRequeuedWait;
    LinkedRemove(sys.h.st.entries, sys.conns, IndexOf(sys.h.st.entries, id).value);
  }

  lemma {:induction false} ConnStepLinked(entries: seq<Entry>, conns: map<Id, Conn>, id: Id, m: Move)
    requires DistinctIds(entries) && Linked(entries, conns)
    requires id in conns && ConnMove(conns[id], m).Some? && !m.DispatcherReads?
    ensures Linked(entries, conns[id := ConnMove(conns[id], m).value])
  {
    hide Matches, ConnMove;
    var i := IndexOf(entries, id).value;
    ConnMoveMatches(conns[id], m, entries[i].busyWith);
    LinkedSet(entries, conns, i, entries[i].busyWith, ConnMove(conns[id], m).value);
    assert SetBusy(entries, i, entries[i].busyWith) == entries;
  }

  lemma {:induction false} ConnStepKeeps(sys: System, m: Move)
    requires SysInv(sys) && !m.Submit? && m.id in sys.conns && ConnMove(sys.conns[m.id], m).Some? && !m.DispatcherReads?
    ensures SysInv(sys.(conns := sys.conns[m.id := ConnMove(sys.conns[m.id], m).value]))
  {
    ConnStepLinked(sys.h.st.entries, sys.conns, m.id, m);
  }

  lemma {:induction false} NextInv(sys: System, m: Move)
    requires SysInv(sys) && DeadSilent(sys.conns) && Next(sys, m).Some?
    ensures SysInv(Next(sys, m).value)
  {
    hide SysInv, Step, ConnMove, Deliver;
    match m
    case Submit(s) => SubmitKeeps(sys, s);
    case Handshake(id) => HandshakeKeeps(sys, id);
    case DispatcherReads(id) => ReadKeeps(sys, id);
    case HandlerEnds(id) => EndKeeps(sys, id);
    case _ => ConnStepKeeps(sys, m);
  }

  lemma {:induction false} NextDeadSilent(sys: System, m: Move)
    requires DeadSilent(sys.conns) && Next(sys, m).Some?
    ensures DeadSilent(Next(sys, m).value.conns)
  {
    hide Step;
  }

  lemma {:induction false} NextKeeps(sys: System, m: Move)
    requires SysInv(sys) && DeadSilent(sys.conns) && Next(sys, m).Some?
    ensures SysInv(Next(sys, m).value) && DeadSilent(Next(sys, m).value.conns)
  {
    NextInv(sys, m);
    NextDeadSilent(sys, m);
  }

  lemma {:induction false} ReachKeeps(sys: System, moves: seq<Move>)
    requires SysInv(sys) && DeadSilent(sys.conns) && Reach(sys, moves).Some?
    ensures SysInv(Reach(sys, moves).value) && DeadSilent(Reach(sys, moves).value.conns)
    decreases |moves|
  {
    hide Next, SysInv, DeadSilent;
    if moves != [] {
      NextKeeps(sys, moves[0]);
      ReachKeeps(Next(sys, moves[0]).value, moves[1..]);
    }
  }

  // ----- Main results -----

  /**
   * In every reachable state a connected invoker on a live connection is busy with s exactly when its connection
   * holds one token, for s; a broken connection holds at most that one.
   */
  lemma {:induction false} BusyMeansOneToken(moves: seq<Move>, i: nat)
    requires Reach(START, moves).Some? && i < |Reach(START, moves).value.h.st.entries|
    ensures var sys := Reach(START, moves).value;
            var e := sys.h.st.entries[i];
            && e.invoker.id in sys.conns
            && var c := sys.conns[e.invoker.id];
               && (c.alive ==> Tokens(c) == (if e.busyWith == IDLE then [] else [e.busyWith]))
               && (!c.alive ==> Tokens(c) == [] || (e.busyWith != IDLE && Tokens(c) == [e.busyWith]))
  {
    ReachKeeps(START, moves);
  }

  /** A connection in a reachable state, with what its invoker is busy with. */
  lemma {:induction false} ReachableConn(moves: seq<Move>, id: Id) returns (busyWith: Id)
    requires Reach(START, moves).Some? && id in Reach(START, moves).value.conns
    ensures var sys := Reach(START, moves).value;
            && SysInv(sys) && DeadSilent(sys.conns)
            && Matches(sys.conns[id], busyWith)
            && IndexOf(sys.h.st.entries, id).Some?
            && busyWith == sys.h.st.entries[IndexOf(sys.h.st.entries, id).value].busyWith
  {
    ReachKeeps(START, moves);
    hide Matches, Reach;
    var entries := Reach(START, moves).value.h.st.entries;
    busyWith := entries[IndexOf(entries, id).value].busyWith;
  }

  /** No channel ever holds more than one submission, so a pending send always finds room and is never blocked. */
  lemma {:induction false} SendNeverBlocks(moves: seq<Move>, id: Id)
    requires Reach(START, moves).Some? && id in Reach(START, moves).value.conns
    ensures var sys := Reach(START, moves).value;
            && |sys.conns[id].channel| <= 1
            && (sys.conns[id].pending != [] ==> sys.conns[id].channel == [] && Next(sys, SendCompletes(id)).Some?)
  {
    hide Reach, SysInv, DeadSilent;
    var busyWith := ReachableConn(moves, id);
    var c := Reach(START, moves).value.conns[id];
    assert |Tokens(c)| <= 1;
    assert |c.channel| + |c.pending| <= |Tokens(c)|;
  }

  lemma {:induction false} FreeAcks(h: History, id: Id, i: nat)
    requires IndexOf(h.st.entries, id) == Some(i) && h.st.entries[i].busyWith != IDLE
    ensures Step(h, FreeEvent(id)).acked == h.acked + [h.st.entries[i].busyWith]
  {
  }

  /**
   * Each answer read frees the very submission the node answered, and answers are read in the order they were given.
   */
  lemma {:induction false} AcksAreAnswers(moves: seq<Move>, id: Id)
    requires Reach(START, moves).Some? && Next(Reach(START, moves).value, DispatcherReads(id)).Some?
    ensures var sys := Reach(START, moves).value;
            var sys' := Next(sys, DispatcherReads(id)).value;
            && id in sys.conns && sys.conns[id].responses != []
            && sys'.h.acked == sys.h.acked + [sys.conns[id].responses[0]]
            && sys.conns[id].acked + [sys.conns[id].responses[0]] <= sys.conns[id].finished
  {
    hide Reach, Deliver, Step;
    var sys := Reach(START, moves).value;
    var busyWith := ReachableConn(moves, id);
    assert sys.conns[id].alive;
    ReadMatches(sys.conns[id], id, busyWith);
    assert sys.conns[id].acked + [busyWith] <= sys.conns[id].finished;
    hide SysInv, DeadSilent, Matches, Tokens;
    FreeAcks(sys.h, id, IndexOf(sys.h.st.entries, id).value);
  }

  /** End to end: every submitted id is queued, with one connected invoker, or acknowledged, whatever breaks. */
  lemma {:induction false} NothingSubmittedIsLost(moves: seq<Move>)
    requires Reach(START, moves).Some?
    ensures var h := Reach(START, moves).value.h;
            multiset(h.pushed) == multiset(h.st.queue) + Busy(h.st.entries) + multiset(h.acked)
  {
    ReachKeeps(START, moves);
  }

  predicate IsTokenMove(m: Move) {
    m.SendCompletes? || m.WriterReceives? || m.WriteCompletes? || m.NodeReads? || m.NodeResponds? || m.DispatcherReads?
  }

  /** How many steps the token of a busy live connection is from its acknowledgement. */
  function StepsToAck(c: Conn): nat {
    if c.pending != [] then 6
    else if c.channel != [] then 5
    else if c.writing != [] then 4
    else if c.requests != [] then 3
    else if c.testing != [] then 2
    else if c.responses != [] then 1
    else 0
  }

  /** The one token step a busy live connection can make. */
  function TokenMove(c: Conn, id: Id): Move {
    if c.pending != [] then SendCompletes(id)
    else if c.channel != [] then WriterReceives(id)
    else if c.writing != [] then WriteCompletes(id)
    else if c.requests != [] then NodeReads(id)
    else if c.testing != [] then NodeResponds(id)
    else DispatcherReads(id)
  }

  /**
   * A busy invoker on a live connection is never stuck: exactly one token step is enabled, and it is one step nearer
   * its ack.
   */
  lemma {:induction false} BusyAdvances(moves: seq<Move>, i: nat, m: Move)
    requires Reach(START, moves).Some? && i < |Reach(START, moves).value.h.st.entries|
    requires var sys := Reach(START, moves).value;
             var e := sys.h.st.entries[i];
             e.busyWith != IDLE && e.invoker.id in sys.conns && sys.conns[e.invoker.id].alive && IsTokenMove(m)
               && m.id == e.invoker.id
    ensures var sys := Reach(START, moves).value;
            var c := sys.conns[m.id];
            && (Next(sys, m).Some? <==> m == TokenMove(c, m.id))
            && StepsToAck(c) >= 1
            && (Next(sys, m).Some? && !m.DispatcherReads? ==>
                  m.id in Next(sys, m).value.conns && StepsToAck(Next(sys, m).value.conns[m.id]) == StepsToAck(c) - 1)
  {
    hide Reach, SysInv, DeadSilent, Deliver, Step, IndexOf;
    var sys := Reach(START, moves).value;
    var e := sys.h.st.entries[i];
    var c := sys.conns[m.id];
    BusyMeansOneToken(moves, i);
    OneStage(c, e.busyWith);
    hide Tokens;
  }

  /** A single token sits at a single stage. */
  lemma {:induction false} OneStage(c: Conn, t: Id)
    requires Tokens(c) == [t]
    ensures |c.pending| + |c.channel| + |c.writing| + |c.requests| + |c.testing| + |c.responses| == 1
  {
    assert |Tokens(c)| == 1;
  }
}
