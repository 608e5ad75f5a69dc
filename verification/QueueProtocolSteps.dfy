/** What each step of the protocol does, field by field, and that a broken connection gives its submission back. */
module QueueProtocolSteps {
  import opened Prelude
  import opened TestingQueues
  import opened TestingQueueRuns
  import opened QueueProtocol

  lemma {:induction false} ReachMore(sys: System, moves: seq<Move>, m: Move)
    requires Reach(sys, moves).Some?
    ensures Reach(sys, moves + [m]) == Next(Reach(sys, moves).value, m)
    decreases |moves|
  {
    if moves == [] {
      assert moves + [m] == [m] && [m][1..] == [];
      assert Next(sys, m).Some? ==> Reach(Next(sys, m).value, []) == Next(sys, m);
    } else {
      assert (moves + [m])[1..] == moves[1..] + [m];
      ReachMore(Next(sys, moves[0]).value, moves[1..], m);
    }
  }

  /** Exactly which steps can happen. */
  lemma {:induction false} EnabledIff(sys: System, id: Id, s: Id)
    ensures Next(sys, Submit(s)).Some? <==> s != IDLE
    ensures Next(sys, Handshake(id)).Some? <==> id !in sys.conns
    ensures id !in sys.conns ==>
              && Next(sys, SendCompletes(id)).None? && Next(sys, WriterReceives(id)).None?
              && Next(sys, WriteCompletes(id)).None? && Next(sys, NodeReads(id)).None?
              && Next(sys, NodeResponds(id)).None? && Next(sys, DispatcherReads(id)).None?
              && Next(sys, ConnectionBreaks(id)).None? && Next(sys, HandlerEnds(id)).None?
    ensures id in sys.conns ==>
              var c := sys.conns[id];
              && (Next(sys, SendCompletes(id)).Some? <==> c.pending != [] && |c.channel| < 2)
              && (Next(sys, WriterReceives(id)).Some? <==> c.channel != [] && c.writing == [])
              && (Next(sys, WriteCompletes(id)).Some? <==> c.writing != [])
              && (Next(sys, NodeReads(id)).Some? <==> c.requests != [] && c.testing == [])
              && (Next(sys, NodeResponds(id)).Some? <==> c.testing != [])
              && (Next(sys, DispatcherReads(id)).Some? <==> c.responses != [])
              && (Next(sys, ConnectionBreaks(id)).Some? <==> c.alive)
              && (Next(sys, HandlerEnds(id)).Some? <==> !c.alive)
  {
  }

  /** The steps inside a connection touch nothing else. */
  lemma {:induction false} StageMoves(sys: System, id: Id)
    requires id in sys.conns
    ensures var c := sys.conns[id];
            && (c.pending != [] && |c.channel| < 2 ==>
                  Next(sys, SendCompletes(id)) == Some(sys.(conns := sys.conns[id :=
                    c.(pending := c.pending[1..], channel := c.channel + [c.pending[0]])])))
            && (c.channel != [] && c.writing == [] ==>
                  Next(sys, WriterReceives(id)) == Some(sys.(conns := sys.conns[id :=
                    c.(channel := c.channel[1..], writing := [c.channel[0]])])))
            && (c.writing != [] && c.alive ==>
                  Next(sys, WriteCompletes(id)) == Some(sys.(conns := sys.conns[id :=
                    c.(writing := c.writing[1..], requests := c.requests + [c.writing[0]])])))
            && (c.writing != [] && !c.alive ==>
                  Next(sys, WriteCompletes(id)) == Some(sys.(conns := sys.conns[id := c.(writing := c.writing[1..])])))
            && (c.requests != [] && c.testing == [] ==>
                  Next(sys, NodeReads(id)) == Some(sys.(conns := sys.conns[id :=
                    c.(requests := c.requests[1..], testing := [c.requests[0]])])))
            && (c.testing != [] ==>
                  Next(sys, NodeResponds(id)) == Some(sys.(conns := sys.conns[id :=
                    c.(testing := c.testing[1..], responses := c.responses + [c.testing[0]],
                       finished := c.finished + [c.testing[0]])])))
  {
  }

  /** A break loses what is on the wire and in the node, and keeps what the dispatcher has not written yet. */
  lemma {:induction false} BreakLosesWire(sys: System, id: Id)
    requires id in sys.conns && sys.conns[id].alive
    ensures var c := sys.conns[id];
            Next(sys, ConnectionBreaks(id)) == Some(sys.(conns := sys.conns[id :=
              c.(alive := false, requests := [], testing := [], responses := [])]))
  {
  }

  lemma {:induction false} WithoutId(entries: seq<Entry>, id: Id, i: nat)
    requires DistinctIds(entries) && IndexOf(entries, id) == Some(i)
    ensures forall e :: e in RemoveAt(entries, i) ==> e.invoker.id != id
  {
    var after := RemoveAt(entries, i);
    forall e | e in after ensures e.invoker.id != id {
      var k :| 0 <= k < |after| && after[k] == e;
      assert e == entries[if k < i then k else k + 1];
    }
  }

  /** What ending the handler of a broken connection leaves. */
  ghost predicate GivesBack(sys: System, sys': System, id: Id, i: nat)
    requires i < |sys.h.st.entries|
  {
    var s := sys.h.st.entries[i].busyWith;
    && sys'.conns == sys.conns - {id}
    && sys'.h.st.entries == sys.h.st.entries[..i] + sys.h.st.entries[i + 1..]
    && (forall e :: e in sys'.h.st.entries ==> e.invoker.id != id)
    && sys'.h.st.queue == (if s == IDLE then [] else [s]) + sys.h.st.queue
    && sys'.h.pushed == sys.h.pushed && sys'.h.acked == sys.h.acked
  }

  lemma {:induction false} EndGivesBack(sys: System, id: Id, i: nat)
    requires DistinctIds(sys.h.st.entries) && IndexOf(sys.h.st.entries, id) == Some(i)
    requires id in sys.conns && !sys.conns[id].alive
    ensures Next(sys, HandlerEnds(id)).Some? && GivesBack(sys, Next(sys, HandlerEnds(id)).value, id, i)
  {
    WithoutId(sys.h.st.entries, id, i);
    var sys' := Next(sys, HandlerEnds(id)).value;
    assert sys'.h == Step(sys.h, DisconnectEvent(id));
    assert sys'.h.st == Disconnect(sys.h.st, id).value;
  }

  /**
   * In every reachable state the handler of a connection can end exactly when the connection is broken. It takes the
   * invoker away and returns the submission it was busy with to the head of the queue.
   */
  lemma {:induction false} HandlerReturnsWork(moves: seq<Move>, id: Id)
    requires Reach(START, moves).Some? && id in Reach(START, moves).value.conns
    ensures var sys := Reach(START, moves).value;
            && (Next(sys, HandlerEnds(id)).Some? <==> !sys.conns[id].alive)
            && IndexOf(sys.h.st.entries, id).Some?
            && (!sys.conns[id].alive ==>
                  GivesBack(sys, Next(sys, HandlerEnds(id)).value, id, IndexOf(sys.h.st.entries, id).value))
  {
    var busyWith := ReachableConn(moves, id);
    var sys := Reach(START, moves).value;
    EnabledIff(sys, id, IDLE);
    assert DistinctIds(sys.h.st.entries);
    hide Matches, Reach, SysInv, Next, GivesBack;
    if !sys.conns[id].alive {
      EndGivesBack(sys, id, IndexOf(sys.h.st.entries, id).value);
    }
  }

  /** So a crash at any moment puts the submission back within two steps that nothing can prevent. */
  lemma {:induction false} CrashReturnsWork(moves: seq<Move>, id: Id)
    requires Reach(START, moves).Some? && id in Reach(START, moves).value.conns
    requires Reach(START, moves).value.conns[id].alive
    ensures var sys := Reach(START, moves).value;
            var end := Reach(START, moves + [ConnectionBreaks(id)] + [HandlerEnds(id)]);
            && IndexOf(sys.h.st.entries, id).Some? && end.Some? && id !in end.value.conns
            && var s := sys.h.st.entries[IndexOf(sys.h.st.entries, id).value].busyWith;
               end.value.h.st.queue == (if s == IDLE then [] else [s]) + sys.h.st.queue
  {
    var sys := Reach(START, moves).value;
    ReachMore(START, moves, ConnectionBreaks(id));
    BreakLosesWire(sys, id);
    var broken := moves + [ConnectionBreaks(id)];
    HandlerReturnsWork(broken, id);
    ReachMore(START, broken, HandlerEnds(id));
  }

  /** Delivery happens on the connection of the invoker that got the submission, and only there. */
  lemma {:induction false} DeliversOne(conns: map<Id, Conn>, before: seq<Send>, send: Send)
    requires send.invokerId in conns
    ensures var c := conns[send.invokerId];
            Deliver(conns, before, before + [send]) ==
            conns[send.invokerId := c.(pending := c.pending + [send.submission])]
  {
  }

  /** A submission went to invoker `i`, on its own connection. */
  ghost predicate Dispatched(sys: System, sys': System, i: nat, s: Id)
    requires i < |sys.h.st.entries|
  {
    var e := sys.h.st.entries[i];
    && e.invoker.id in sys.conns
    && sys'.h.st.queue == sys.h.st.queue
    && sys'.h.st.entries == sys.h.st.entries[i := Entry(e.invoker, s)]
    && sys'.conns == sys.conns[e.invoker.id := sys.conns[e.invoker.id].(pending := [s])]
  }

  lemma {:induction false} SubmitToIdle(sys: System, s: Id, i: nat)
    requires DistinctIds(sys.h.st.entries) && Linked(sys.h.st.entries, sys.conns)
    requires s != IDLE && FirstIdle(sys.h.st.entries, s) == Some(i)
    ensures Next(sys, Submit(s)).Some? && Dispatched(sys, Next(sys, Submit(s)).value, i, s)
  {
    PushForm(sys.h.st, s);
    var e := sys.h.st.entries[i];
    var c := sys.conns[e.invoker.id];
    assert Matches(c, IDLE);
    assert c.pending == [];
    hide Matches, Linked, DistinctIds;
    DeliversOne(sys.conns, sys.h.st.sent, Send(e.invoker.id, s));
    assert c.pending + [s] == [s];
  }

  lemma {:induction false} SubmitQueues(sys: System, s: Id)
    requires DistinctIds(sys.h.st.entries) && s != IDLE && FirstIdle(sys.h.st.entries, s).None?
    ensures Next(sys, Submit(s)).Some?
    ensures var sys' := Next(sys, Submit(s)).value;
            && sys'.h.st.queue == sys.h.st.queue + [s] && sys'.h.st.entries == sys.h.st.entries
               && sys'.conns == sys.conns
  {
    PushForm(sys.h.st, s);
  }

  /**
   * In every reachable state a non-empty submission can be pushed: the first idle invoker that accepts it gets it on
   * its own connection, and without one it is queued.
   */
  lemma {:induction false} SubmitDispatches(moves: seq<Move>, s: Id)
    requires Reach(START, moves).Some?
    ensures var sys := Reach(START, moves).value;
            && (Next(sys, Submit(s)).Some? <==> s != IDLE)
            && (s != IDLE ==>
                  var sys' := Next(sys, Submit(s)).value;
                  && sys'.h.pushed == sys.h.pushed + [s] && sys'.h.acked == sys.h.acked
                  && match FirstIdle(sys.h.st.entries, s)
                     case None =>
                       && sys'.h.st.queue == sys.h.st.queue + [s] && sys'.h.st.entries == sys.h.st.entries
                       && sys'.conns == sys.conns
                     case Some(i) => Dispatched(sys, sys', i, s))
  {
    ReachKeeps(START, moves);
    var sys := Reach(START, moves).value;
    EnabledIff(sys, IDLE, s);
    if s != IDLE {
      assert Next(sys, Submit(s)).value.h == Step(sys.h, PushEvent(s));
      assert Step(sys.h, PushEvent(s)).pushed == sys.h.pushed + [s] && Step(sys.h, PushEvent(s)).acked == sys.h.acked;
      hide Reach, Next, Step, Dispatched, Matches;
      match FirstIdle(sys.h.st.entries, s)
      case None => SubmitQueues(sys, s);
      case Some(i) => SubmitToIdle(sys, s, i);
    }
  }

  /** The invoker of `id` joined last, with an empty connection and the head of the queue, if any, on its way. */
  ghost predicate Joins(sys: System, sys': System, id: Id) {
    && (sys.h.st.queue == [] ==>
          && sys'.h.st.queue == []
          && sys'.h.st.entries == sys.h.st.entries + [Entry(DefaultInvoker(id), IDLE)]
          && sys'.conns == sys.conns[id := Conn([], [], [], [], [], [], true, [], [])])
    && (sys.h.st.queue != [] ==>
          var s := sys.h.st.queue[0];
          && sys'.h.st.queue == sys.h.st.queue[1..]
          && sys'.h.st.entries == sys.h.st.entries + [Entry(DefaultInvoker(id), s)]
          && sys'.conns == sys.conns[id := Conn([s], [], [], [], [], [], true, [], [])])
  }

  lemma {:induction false} ConnectJoins(sys: System, id: Id)
    requires IndexOf(sys.h.st.entries, id).None? && id !in sys.conns
    ensures Next(sys, Handshake(id)).Some? && Joins(sys, Next(sys, Handshake(id)).value, id)
    ensures Next(sys, Handshake(id)).value.h == Step(sys.h, ConnectEvent(DefaultInvoker(id)))
  {
    AcceptsFirst(sys.h.st.queue, id);
    ConnectForm(sys.h.st, DefaultInvoker(id));
    var sys' := Next(sys, Handshake(id)).value;
    var conns := sys.conns[id := NEW_CONN];
    assert sys' == Dispatcher(sys, ConnectEvent(DefaultInvoker(id)), conns);
    assert sys'.h.st == Connect(sys.h.st, DefaultInvoker(id));
    hide Connect, Step, Next;
    if sys.h.st.queue != [] {
      var s := sys.h.st.queue[0];
      DeliversOne(conns, sys.h.st.sent, Send(id, s));
      assert NEW_CONN.pending + [s] == [s];
      assert conns[id := NEW_CONN.(pending := [s])] == sys.conns[id := NEW_CONN.(pending := [s])];
    }
  }

  lemma {:induction false} ConnectLogs(h: History, invoker: Invoker)
    ensures Step(h, ConnectEvent(invoker)).pushed == h.pushed && Step(h, ConnectEvent(invoker)).acked == h.acked
  {
  }

  /**
   * In every reachable state a node can connect under an id that is not connected: it joins with an empty connection,
   * and with the first queued submission, if any, on its way.
   */
  lemma {:induction false} HandshakeJoins(moves: seq<Move>, id: Id)
    requires Reach(START, moves).Some?
    ensures var sys := Reach(START, moves).value;
            && (Next(sys, Handshake(id)).Some? <==> id !in sys.conns)
            && (id !in sys.conns ==>
                  var sys' := Next(sys, Handshake(id)).value;
                  && sys'.h.pushed == sys.h.pushed && sys'.h.acked == sys.h.acked && Joins(sys, sys', id))
  {
    ReachKeeps(START, moves);
    var sys := Reach(START, moves).value;
    EnabledIff(sys, id, IDLE);
    if id !in sys.conns {
      NotConnected(sys, id);
      hide Reach, SysInv, Next, Step, Joins;
      ConnectJoins(sys, id);
      ConnectLogs(sys.h, DefaultInvoker(id));
    }
  }

  /** A node's invoker accepts whatever comes first. */
  lemma {:induction false} AcceptsFirst(queue: seq<Id>, id: Id)
    ensures FirstAccepted(queue, DefaultInvoker(id)) == if queue == [] then None else Some(0)
    ensures forall s :: DefaultInvoker(id).accepts(s)
  {
  }

  /** Every connected invoker is that of a node, so it accepts everything. */
  lemma {:induction false} InvokersAreNodes(moves: seq<Move>, i: nat)
    requires Reach(START, moves).Some? && i < |Reach(START, moves).value.h.st.entries|
    ensures forall s :: Reach(START, moves).value.h.st.entries[i].invoker.accepts(s)
  {
    NodesFrom(START, moves);
    var entries := Reach(START, moves).value.h.st.entries;
    assert entries[i] in entries;
  }

  lemma {:induction false} NodesFrom(sys: System, moves: seq<Move>)
    requires SysInv(sys) && DeadSilent(sys.conns) && EntriesAccept(sys.h) && Reach(sys, moves).Some?
    ensures EntriesAccept(Reach(sys, moves).value.h)
    decreases |moves|
  {
    if moves != [] {
      NodesStep(sys, moves[0]);
      NextKeeps(sys, moves[0]);
      hide SysInv, DeadSilent, EntriesAccept, Next;
      NodesFrom(Next(sys, moves[0]).value, moves[1..]);
    }
  }

  lemma {:induction false} NodesStep(sys: System, m: Move)
    requires SysInv(sys) && EntriesAccept(sys.h) && Next(sys, m).Some?
    ensures EntriesAccept(Next(sys, m).value.h)
  {
    hide Linked;
    match m
    case Submit(s) => AcceptStep(sys.h, PushEvent(s));
    case Handshake(id) =>
      assert IndexOf(sys.h.st.entries, id).None? by {
        NotConnected(sys, id);
      }
      AcceptStep(sys.h, ConnectEvent(DefaultInvoker(id)));
    case DispatcherReads(id) => AcceptStep(sys.h, FreeEvent(id));
    case HandlerEnds(id) => AcceptStep(sys.h, DisconnectEvent(id));
    case _ =>
  }

  lemma {:induction false} NotConnected(sys: System, id: Id)
    requires SysInv(sys) && id !in sys.conns
    ensures IndexOf(sys.h.st.entries, id).None?
  {
  }

  /** The invoker of `id` answered `s` and goes on with the head of the queue on its own connection, or is idle. */
  ghost predicate GoesOn(sys: System, sys': System, id: Id, i: nat)
    requires i < |sys.h.st.entries| && id in sys.conns && sys.conns[id].responses != []
  {
    var c, invoker := sys.conns[id], sys.h.st.entries[i].invoker;
    var read := c.(responses := c.responses[1..], acked := c.acked + [c.responses[0]]);
    && (sys.h.st.queue == [] ==>
          && sys'.h.st.queue == [] && sys'.h.st.entries == sys.h.st.entries[i := Entry(invoker, IDLE)]
          && sys'.conns == sys.conns[id := read])
    && (sys.h.st.queue != [] ==>
          var s := sys.h.st.queue[0];
          && sys'.h.st.queue == sys.h.st.queue[1..] && sys'.h.st.entries == sys.h.st.entries[i := Entry(invoker, s)]
          && sys'.conns == sys.conns[id := read.(pending := [s])])
  }

  lemma {:induction false} ReadGoesOn(sys: System, id: Id, i: nat)
    requires IndexOf(sys.h.st.entries, id) == Some(i) && forall s :: sys.h.st.entries[i].invoker.accepts(s)
    requires id in sys.conns && sys.conns[id].responses != [] && sys.conns[id].pending == []
    ensures Next(sys, DispatcherReads(id)).Some? && GoesOn(sys, Next(sys, DispatcherReads(id)).value, id, i)
  {
    var c := sys.conns[id];
    var read := c.(responses := c.responses[1..], acked := c.acked + [c.responses[0]]);
    var conns := sys.conns[id := read];
    FreeForm(sys.h.st, id, i);
    TakesFirst(sys.h.st.queue, sys.h.st.entries[i].invoker);
    var sys' := Next(sys, DispatcherReads(id)).value;
    assert sys' == Dispatcher(sys, FreeEvent(id), conns);
    assert sys'.h.st == Free(sys.h.st, id).value;
    hide Free, Step, Next;
    if sys.h.st.queue != [] {
      var s := sys.h.st.queue[0];
      DeliversOne(conns, sys.h.st.sent, Send(id, s));
      assert read.pending + [s] == [s];
      assert conns[id := read.(pending := [s])] == sys.conns[id := read.(pending := [s])];
    }
  }

  /**
   * In every reachable state an answer can be read: its submission is acknowledged, and the invoker goes on with the
   * first queued submission on its own connection, or is idle when there is none.
   */
  lemma {:induction false} AnswerFreesInvoker(moves: seq<Move>, id: Id)
    requires Reach(START, moves).Some? && id in Reach(START, moves).value.conns
    requires Reach(START, moves).value.conns[id].responses != []
    ensures var sys := Reach(START, moves).value;
            && Next(sys, DispatcherReads(id)).Some? && IndexOf(sys.h.st.entries, id).Some?
            && Next(sys, DispatcherReads(id)).value.h.acked == sys.h.acked + [sys.conns[id].responses[0]]
            && GoesOn(sys, Next(sys, DispatcherReads(id)).value, id, IndexOf(sys.h.st.entries, id).value)
  {
    var busyWith := ReachableConn(moves, id);
    var sys := Reach(START, moves).value;
    EnabledIff(sys, id, IDLE);
    AcksAreAnswers(moves, id);
    var i := IndexOf(sys.h.st.entries, id).value;
    InvokersAreNodes(moves, i);
    assert sys.conns[id].alive;
    ReadMatches(sys.conns[id], id, busyWith);
    PendingApart(sys.conns[id], busyWith);
    hide Reach, SysInv, DeadSilent, Matches, Next, GoesOn, Tokens;
    ReadGoesOn(sys, id, i);
  }

  /** With an answer under way nothing waits to be sent. */
  lemma {:induction false} PendingApart(c: Conn, busyWith: Id)
    requires Matches(c, busyWith) && c.alive && c.responses == [busyWith]
    ensures c.pending == []
  {
    assert |Tokens(c)| <= 1;
  }

  lemma {:induction false} TakesFirst(queue: seq<Id>, invoker: Invoker)
    requires forall s :: invoker.accepts(s)
    ensures FirstAccepted(queue, invoker) == if queue == [] then None else Some(0)
  {
    if queue != [] {
      assert invoker.accepts(queue[0]);
    }
  }
}
