/** What every run of the scheduler keeps: conservation, arrival order and work conservation. */
module TestingQueueRuns {
  import opened Prelude
  import opened TestingQueues

  datatype Event =
    | PushEvent(submission: Id)
    | FreeEvent(id: Id)
    | ConnectEvent(invoker: Invoker)
    | DisconnectEvent(id: Id)

  /**
   * A scheduler state with the logs of the run that led to it. The first `requeued` queued submissions are those
   * that were sent once and came back by a disconnect; `firstSends` lists the submissions in the order of their
   * first send.
   */
  datatype History = History(st: State, pushed: seq<Id>, acked: seq<Id>, requeued: nat, firstSends: seq<Id>)

  const EMPTY: History := History(State([], [], []), [], [], 0, [])

  /** The submissions in the hands of invokers. */
  function Busy(entries: seq<Entry>): multiset<Id> {
    if entries == [] then multiset{} else Held(entries[0].busyWith) + Busy(entries[1..])
  }

  /** What an invoker with this busy_with value holds. */
  function Held(busyWith: Id): multiset<Id> {
    if busyWith == IDLE then multiset{} else multiset{busyWith}
  }

  /** Every submission the scheduler still answers for. */
  function Load(st: State): multiset<Id> {
    multiset(st.queue) + Busy(st.entries)
  }

  ghost predicate DistinctIds(entries: seq<Entry>) {
    forall i, j :: 0 <= i < j < |entries| ==> entries[i].invoker.id != entries[j].invoker.id
  }

  /** Moves the two send logs over a dispatch of the queued submission at position `i`. */
  function TakeFromQueue(h: History, i: nat): History
    requires i < |h.st.queue|
  {
    if i < h.requeued then h.(requeued := h.requeued - 1)
    else h.(firstSends := h.firstSends + [h.st.queue[i]])
  }

  function AfterTry(h: History, invoker: Invoker): History {
    match FirstAccepted(h.st.queue, invoker)
    case None => h
    case Some(i) => TakeFromQueue(h, i)
  }

  /** One event; a call with an unknown id throws and changes nothing. */
  function Step(h: History, ev: Event): History {
    match ev
    case PushEvent(s) =>
      var h' := h.(st := Push(h.st, s), pushed := h.pushed + [s]);
      if FirstIdle(h.st.entries, s).None? then h' else h'.(firstSends := h.firstSends + [s])
    case FreeEvent(id) =>
      (match Free(h.st, id)
       case Err(_) => h
       case Ok(st) =>
         var e := h.st.entries[IndexOf(h.st.entries, id).value];
         AfterTry(h, e.invoker).(st := st, acked := if e.busyWith == IDLE then h.acked else h.acked + [e.busyWith]))
    case ConnectEvent(invoker) =>
      AfterTry(h, invoker).(st := Connect(h.st, invoker))
    case DisconnectEvent(id) =>
      (match Disconnect(h.st, id)
       case Err(_) => h
       case Ok(st) => h.(st := st, requeued := h.requeued + |st.queue| - |h.st.queue|))
  }

  function Run(h: History, evs: seq<Event>): History
    decreases |evs|
  {
    if evs == [] then h else Run(Step(h, evs[0]), evs[1..])
  }

  lemma {:induction false} RunFour(h: History, a: Event, b: Event, c: Event, d: Event)
    ensures Run(h, [a, b, c, d]) == Step(Step(Step(Step(h, a), b), c), d)
    ensures AllowedRun(h, [a, b, c, d]) <==>
            && Allowed(h, a) && Allowed(Step(h, a), b) && Allowed(Step(Step(h, a), b), c)
            && Allowed(Step(Step(Step(h, a), b), c), d)
  {
    assert [a, b, c, d][1..] == [b, c, d];
    assert [b, c, d][1..] == [c, d];
    var h2 := Step(Step(h, a), b);
    assert Run(h, [a, b, c, d]) == Run(Step(h, a), [b, c, d]) == Run(h2, [c, d]);
    assert AllowedRun(Step(h, a), [b, c, d]) <==> Allowed(Step(h, a), b) && AllowedRun(h2, [c, d]);
    RunTwo(h2, c, d);
  }

  lemma {:induction false} RunTwo(h: History, c: Event, d: Event)
    ensures Run(h, [c, d]) == Step(Step(h, c), d)
    ensures AllowedRun(h, [c, d]) <==> Allowed(h, c) && Allowed(Step(h, c), d)
  {
    assert [c, d][1..] == [d];
    assert [d][1..] == [];
    assert Run(Step(h, c), [d]) == Step(Step(h, c), d);
    assert AllowedRun(Step(h, c), [d]) <==> Allowed(Step(h, c), d);
  }

  /** What the callers owe: submission ids are not empty, and a connecting id is not connected already. */
  predicate Allowed(h: History, ev: Event) {
    match ev
    case PushEvent(s) => s != IDLE
    case ConnectEvent(invoker) => IndexOf(h.st.entries, invoker.id).None?
    case _ => true
  }

  predicate AllowedRun(h: History, evs: seq<Event>)
    decreases |evs|
  {
    evs == [] || (Allowed(h, evs[0]) && AllowedRun(Step(h, evs[0]), evs[1..]))
  }

  ghost predicate Conserved(h: History) {
    multiset(h.pushed) == Load(h.st) + multiset(h.acked)
  }

  /** No idle invoker coexists with a queued submission it can test, requeued submissions apart. */
  ghost predicate OnlyRequeuedWait(h: History) {
    && h.requeued <= |h.st.queue|
    && forall e, k :: e in h.st.entries && e.busyWith == IDLE && h.requeued <= k < |h.st.queue| ==>
         !e.invoker.accepts(h.st.queue[k])
  }

  ghost predicate Inv(h: History) {
    && DistinctIds(h.st.entries)
    && IDLE !in h.st.queue
    && Conserved(h)
    && OnlyRequeuedWait(h)
  }

  // ----- Multiset facts about the invokers -----

  lemma {:induction false} BusyAppend(a: seq<Entry>, b: seq<Entry>)
    ensures Busy(a + b) == Busy(a) + Busy(b)
  {
    if a == [] {
      assert a + b == b;
    } else {
      assert (a + b)[1..] == a[1..] + b;
      BusyAppend(a[1..], b);
    }
  }

  lemma {:induction false} BusySplit(entries: seq<Entry>, i: nat)
    requires i < |entries|
    ensures Busy(entries) == Busy(RemoveAt(entries, i)) + Held(entries[i].busyWith)
  {
    assert entries == entries[..i] + ([entries[i]] + entries[i + 1..]);
    BusyAppend(entries[..i], [entries[i]] + entries[i + 1..]);
    BusyAppend([entries[i]], entries[i + 1..]);
    BusyAppend(entries[..i], entries[i + 1..]);
  }

  lemma {:induction false} BusySet(entries: seq<Entry>, i: nat, s: Id)
    requires i < |entries|
    ensures Busy(SetBusy(entries, i, s)) + Held(entries[i].busyWith) ==
            Busy(entries) + Held(s)
  {
    var r := SetBusy(entries, i, s);
    assert RemoveAt(r, i) == RemoveAt(entries, i);
    BusySplit(entries, i);
    BusySplit(r, i);
  }

  lemma {:induction false} BusyJoin(entries: seq<Entry>, invoker: Invoker)
    ensures Busy(entries + [Entry(invoker, IDLE)]) == Busy(entries)
  {
    BusyAppend(entries, [Entry(invoker, IDLE)]);
  }

  // ----- When one call conserves the load, ids unrestricted -----

  /** The submission that sending to `id` would overwrite. */
  function Overwritten(entries: seq<Entry>, id: Id): Id {
    match IndexOf(entries, id)
    case None => IDLE
    case Some(i) => entries[i].busyWith
  }

  lemma {:induction false} SendLoad(st: State, s: Id, invoker: Invoker)
    requires IndexOf(st.entries, invoker.id).Some?
    ensures Load(SendForTesting(st, s, invoker)) + Held(Overwritten(st.entries, invoker.id)) ==
            Load(st) + Held(s)
  {
    var i := IndexOf(st.entries, invoker.id).value;
    var st' := SendForTesting(st, s, invoker);
    assert st'.queue == st.queue && st'.entries == SetBusy(st.entries, i, s);
    BusySet(st.entries, i, s);
    MultisetShift(multiset(st.queue), Busy(st'.entries), Held(st.entries[i].busyWith), Busy(st.entries), Held(s));
  }

  /** A push loses or duplicates something exactly when it sends the empty id or hits a busy namesake. */
  lemma {:induction false} PushConservesIff(st: State, s: Id)
    ensures Load(Push(st, s)) == Load(st) + multiset{s} <==>
            (FirstIdle(st.entries, s).Some? ==>
              s != IDLE && Overwritten(st.entries, st.entries[FirstIdle(st.entries, s).value].invoker.id) == IDLE)
  {
    match FirstIdle(st.entries, s)
    case None =>
      assert multiset(st.queue + [s]) == multiset(st.queue) + multiset{s};
    case Some(i) =>
      var inv := st.entries[i].invoker;
      SendLoad(st, s, inv);
      var t := Overwritten(st.entries, inv.id);
      var after := Load(Push(st, s));
      if s != IDLE && t != IDLE {
        assert (after + multiset{t})[t] == (Load(st) + multiset{s})[t];
        assert after[t] != (Load(st) + multiset{s})[t];
      } else if s == IDLE {
        assert |after + Held(t)| == |Load(st)|;
        assert |Load(st) + multiset{s}| == |Load(st)| + 1;
      }
  }

  lemma {:induction false} ConnectLoad(st: State, invoker: Invoker, k: nat)
    requires FirstAccepted(st.queue, invoker) == Some(k)
    ensures Load(Connect(st, invoker)) + multiset{st.queue[k]} + Held(Overwritten(st.entries, invoker.id)) ==
            Load(st) + Held(st.queue[k])
  {
    var s, t := st.queue[k], Overwritten(st.entries, invoker.id);
    var joined := st.(entries := st.entries + [Entry(invoker, IDLE)]);
    assert joined.entries[|st.entries|].invoker.id == invoker.id;
    assert forall j :: 0 <= j < |st.entries| ==> joined.entries[j] == st.entries[j];
    assert Overwritten(joined.entries, invoker.id) == t;
    BusyJoin(st.entries, invoker);
    SendLoad(joined, s, invoker);
    RemoveAtMultiset(st.queue, k);
    var sent := SendForTesting(joined, s, invoker);
    assert Load(Connect(st, invoker)) + multiset{s} == Load(sent);
  }

  lemma {:induction false} LostIff(after: multiset<Id>, before: multiset<Id>, s: Id, t: Id)
    requires after + multiset{s} + Held(t) == before + Held(s)
    ensures after == before <==> s != IDLE && t == IDLE
  {
    if s != IDLE {
      MultisetAssoc(after, multiset{s}, Held(t));
      MultisetCancel(after + Held(t), before, multiset{s});
    } else {
      assert before + Held(s) == before;
      assert |after + multiset{s} + Held(t)| == |after| + 1 + |Held(t)|;
    }
  }

  /** A connect loses a submission exactly when its id is taken by a busy invoker and the queue has work for it. */
  lemma {:induction false} ConnectConservesIff(st: State, invoker: Invoker)
    ensures Load(Connect(st, invoker)) == Load(st) <==>
            (FirstAccepted(st.queue, invoker).Some? ==>
              st.queue[FirstAccepted(st.queue, invoker).value] != IDLE && Overwritten(st.entries, invoker.id) == IDLE)
  {
    match FirstAccepted(st.queue, invoker)
    case None =>
      BusyJoin(st.entries, invoker);
    case Some(k) =>
      ConnectLoad(st, invoker, k);
      LostIff(Load(Connect(st, invoker)), Load(st), st.queue[k], Overwritten(st.entries, invoker.id));
  }

  // ----- The calls in normal form, when ids are unique -----

  lemma {:induction false} PushForm(st: State, s: Id)
    requires DistinctIds(st.entries)
    ensures var st' := Push(st, s);
            match FirstIdle(st.entries, s)
            case None => st'.queue == st.queue + [s] && st'.entries == st.entries && st'.sent == st.sent
            case Some(i) =>
              && st'.queue == st.queue && st'.entries == SetBusy(st.entries, i, s)
              && st'.sent == st.sent + [Send(st.entries[i].invoker.id, s)]
  {
    if FirstIdle(st.entries, s).Some? {
      var i := FirstIdle(st.entries, s).value;
      assert IndexOf(st.entries, st.entries[i].invoker.id) == Some(i);
    }
  }

  lemma {:induction false} FreeForm(st: State, id: Id, i: nat)
    requires IndexOf(st.entries, id) == Some(i)
    ensures Free(st, id).Ok?
    ensures var st' := Free(st, id).value;
            match FirstAccepted(st.queue, st.entries[i].invoker)
            case None => st'.queue == st.queue && st'.entries == SetBusy(st.entries, i, IDLE) && st'.sent == st.sent
            case Some(k) =>
              && st'.queue == RemoveAt(st.queue, k) && st'.entries == SetBusy(st.entries, i, st.queue[k])
              && st'.sent == st.sent + [Send(id, st.queue[k])]
  {
  }

  lemma {:induction false} ConnectForm(st: State, invoker: Invoker)
    requires IndexOf(st.entries, invoker.id).None?
    ensures var st' := Connect(st, invoker);
            match FirstAccepted(st.queue, invoker)
            case None => st'.queue == st.queue && st'.entries == st.entries + [Entry(invoker, IDLE)]
              && st'.sent == st.sent
            case Some(k) =>
              && st'.queue == RemoveAt(st.queue, k) && st'.entries == st.entries + [Entry(invoker, st.queue[k])]
              && st'.sent == st.sent + [Send(invoker.id, st.queue[k])]
  {
    var n := |st.entries|;
    var joined := st.entries + [Entry(invoker, IDLE)];
    assert joined[n].invoker.id == invoker.id;
    assert forall k :: 0 <= k < n ==> joined[k] == st.entries[k];
    assert IndexOf(joined, invoker.id) == Some(n);
    if FirstAccepted(st.queue, invoker).Some? {
      var s := st.queue[FirstAccepted(st.queue, invoker).value];
      assert SetBusy(joined, n, s) == st.entries + [Entry(invoker, s)];
    }
  }

  // ----- One step keeps the invariant -----

  lemma {:induction false} ShapeStep(h: History, ev: Event)
    requires DistinctIds(h.st.entries) && IDLE !in h.st.queue && Allowed(h, ev)
    ensures DistinctIds(Step(h, ev).st.entries) && IDLE !in Step(h, ev).st.queue
  {
    match ev
    case PushEvent(s) => PushForm(h.st, s);
    case FreeEvent(id) =>
      if IndexOf(h.st.entries, id).Some? {
        FreeForm(h.st, id, IndexOf(h.st.entries, id).value);
      }
    case ConnectEvent(invoker) => ConnectForm(h.st, invoker);
    case DisconnectEvent(id) => DisconnectShape(h.st, id);
  }

  lemma {:induction false} DisconnectShape(st: State, id: Id)
    requires DistinctIds(st.entries) && IDLE !in st.queue
    ensures Disconnect(st, id).Ok? ==>
              DistinctIds(Disconnect(st, id).value.entries) && IDLE !in Disconnect(st, id).value.queue
  {
  }

  lemma {:induction false} FreeLoad(st: State, id: Id, i: nat)
    requires IndexOf(st.entries, id) == Some(i) && IDLE !in st.queue
    ensures Free(st, id).Ok? && Load(Free(st, id).value) + Held(st.entries[i].busyWith) == Load(st)
  {
    FreeForm(st, id, i);
    var st' := Free(st, id).value;
    match FirstAccepted(st.queue, st.entries[i].invoker)
    case None =>
      BusySet(st.entries, i, IDLE);
      MultisetShift(multiset(st'.queue), Busy(st'.entries), Held(st.entries[i].busyWith), Busy(st.entries), Held(IDLE));
    case Some(k) =>
      var s := st.queue[k];
      BusySet(st.entries, i, s);
      RemoveAtMultiset(st.queue, k);
      MultisetShift(multiset(st'.queue), Busy(st'.entries), Held(st.entries[i].busyWith), Busy(st.entries), Held(s));
  }

  lemma {:induction false} DisconnectLoad(st: State, id: Id, i: nat)
    requires IndexOf(st.entries, id) == Some(i)
    ensures Disconnect(st, id).Ok? && Load(Disconnect(st, id).value) == Load(st)
  {
    var t := st.entries[i].busyWith;
    BusySplit(st.entries, i);
    assert multiset([t] + st.queue) == multiset{t} + multiset(st.queue);
    assert multiset(Disconnect(st, id).value.queue) == multiset(st.queue) + Held(t);
  }

  lemma {:induction false} PushLoad(st: State, s: Id)
    requires DistinctIds(st.entries) && s != IDLE
    ensures Load(Push(st, s)) == Load(st) + multiset{s}
  {
    PushConservesIff(st, s);
    if FirstIdle(st.entries, s).Some? {
      var i := FirstIdle(st.entries, s).value;
      assert IndexOf(st.entries, st.entries[i].invoker.id) == Some(i);
    }
  }

  lemma {:induction false} ConservedPush(h: History, s: Id)
    requires DistinctIds(h.st.entries) && s != IDLE && Conserved(h)
    ensures Conserved(Step(h, PushEvent(s)))
  {
    PushLoad(h.st, s);
    assert multiset(h.pushed + [s]) == multiset(h.pushed) + multiset{s};
    MultisetAssoc(Load(h.st), multiset{s}, multiset(h.acked));
  }

  lemma {:induction false} ConservedFree(h: History, id: Id, i: nat)
    requires IndexOf(h.st.entries, id) == Some(i) && IDLE !in h.st.queue && Conserved(h)
    ensures Conserved(Step(h, FreeEvent(id)))
  {
    var h' := Step(h, FreeEvent(id));
    var held := Held(h.st.entries[i].busyWith);
    FreeLoad(h.st, id, i);
    assert multiset(h'.acked) == multiset(h.acked) + held;
    assert h'.pushed == h.pushed && h'.st == Free(h.st, id).value;
    hide Step, Free, Load, Held, IndexOf;
    MultisetAssoc(Load(h'.st), held, multiset(h.acked));
    MultisetAssoc(Load(h'.st), multiset(h.acked), held);
  }

  lemma {:induction false} ConservedStep(h: History, ev: Event)
    requires DistinctIds(h.st.entries) && IDLE !in h.st.queue && Conserved(h) && Allowed(h, ev)
    ensures Conserved(Step(h, ev))
  {
    var st := h.st;
    match ev
    case PushEvent(s) =>
      ConservedPush(h, s);
    case FreeEvent(id) =>
      if IndexOf(st.entries, id).Some? {
        ConservedFree(h, id, IndexOf(st.entries, id).value);
      }
    case ConnectEvent(invoker) =>
      ConnectConservesIff(st, invoker);
    case DisconnectEvent(id) =>
      if IndexOf(st.entries, id).Some? {
        DisconnectLoad(st, id, IndexOf(st.entries, id).value);
      }
  }

  /** The idle entries of `after` were idle before, or refuse the whole queue. */
  ghost predicate IdleKept(before: State, after: State) {
    forall e :: e in after.entries && e.busyWith == IDLE ==>
      || e in before.entries
      || forall k :: 0 <= k < |before.queue| ==> !e.invoker.accepts(before.queue[k])
  }

  lemma {:induction false} FreeIdle(st: State, id: Id, i: nat)
    requires IndexOf(st.entries, id) == Some(i) && IDLE !in st.queue
    ensures Free(st, id).Ok? && IdleKept(st, Free(st, id).value)
  {
    FreeForm(st, id, i);
    var st' := Free(st, id).value;
    forall e | e in st'.entries && e.busyWith == IDLE && e !in st.entries
      ensures forall k :: 0 <= k < |st.queue| ==> !e.invoker.accepts(st.queue[k])
    {
      assert e == st'.entries[i];
    }
  }

  lemma {:induction false} ConnectIdle(st: State, invoker: Invoker)
    requires IndexOf(st.entries, invoker.id).None? && IDLE !in st.queue
    ensures IdleKept(st, Connect(st, invoker))
  {
    ConnectForm(st, invoker);
    var st' := Connect(st, invoker);
    forall e | e in st'.entries && e.busyWith == IDLE && e !in st.entries
      ensures forall k :: 0 <= k < |st.queue| ==> !e.invoker.accepts(st.queue[k])
    {
      assert e == st'.entries[|st.entries|];
    }
  }

  lemma {:induction false} WaitAfterTry(h: History, invoker: Invoker, st': State)
    requires OnlyRequeuedWait(h) && IdleKept(h.st, st')
    requires st'.queue == match FirstAccepted(h.st.queue, invoker)
                          case None => h.st.queue
                          case Some(k) => RemoveAt(h.st.queue, k)
    ensures OnlyRequeuedWait(AfterTry(h, invoker).(st := st'))
  {
    var h' := AfterTry(h, invoker).(st := st');
    if FirstAccepted(h.st.queue, invoker).Some? {
      var k := FirstAccepted(h.st.queue, invoker).value;
      forall e, j | e in st'.entries && e.busyWith == IDLE && h'.requeued <= j < |st'.queue|
        ensures !e.invoker.accepts(st'.queue[j])
      {
        var j' := if j < k then j else j + 1;
        assert st'.queue[j] == h.st.queue[j'];
      }
    }
  }

  lemma {:induction false} WaitStep(h: History, ev: Event)
    requires DistinctIds(h.st.entries) && IDLE !in h.st.queue && OnlyRequeuedWait(h) && Allowed(h, ev)
    ensures OnlyRequeuedWait(Step(h, ev))
  {
    var st, st' := h.st, Step(h, ev).st;
    match ev
    case PushEvent(s) =>
      PushForm(st, s);
    case FreeEvent(id) =>
      if IndexOf(st.entries, id).Some? {
        var i := IndexOf(st.entries, id).value;
        FreeForm(st, id, i);
        FreeIdle(st, id, i);
        WaitAfterTry(h, st.entries[i].invoker, st');
      }
    case ConnectEvent(invoker) =>
      ConnectForm(st, invoker);
      ConnectIdle(st, invoker);
      WaitAfterTry(h, invoker, st');
    case DisconnectEvent(id) =>
  }

  lemma {:induction false} StepKeeps(h: History, ev: Event)
    requires Inv(h) && Allowed(h, ev)
    ensures Inv(Step(h, ev))
  {
    ShapeStep(h, ev);
    ConservedStep(h, ev);
    WaitStep(h, ev);
  }

  lemma {:induction false} RunKeeps(h: History, evs: seq<Event>)
    requires Inv(h) && AllowedRun(h, evs)
    ensures Inv(Run(h, evs))
    decreases |evs|
  {
    if evs != [] {
      StepKeeps(h, evs[0]);
      RunKeeps(Step(h, evs[0]), evs[1..]);
    }
  }

  // ----- Main results -----

  lemma {:induction false} SecondConnect(st: State, inv: Invoker, s: Id, t: Id)
    requires st.entries == [Entry(inv, s)] && st.queue == [t] && inv.accepts(t)
    ensures Connect(st, inv).entries == [Entry(inv, t), Entry(inv, IDLE)] && Connect(st, inv).queue == []
  {
    var joined := st.entries + [Entry(inv, IDLE)];
    assert joined[0].invoker.id == inv.id;
    assert IndexOf(joined, inv.id) == Some(0);
    assert FirstAccepted(st.queue, inv) == Some(0);
    assert SetBusy(joined, 0, t) == [Entry(inv, t), Entry(inv, IDLE)];
  }

  /** Two connections under one id: the second takes the queued work and the first one's submission is gone. */
  lemma {:induction false} DuplicateIdLosesSubmission(id: Id, s: Id, t: Id)
    requires s != IDLE && t != IDLE
    ensures var inv := DefaultInvoker(id);
            var h := Run(EMPTY, [ConnectEvent(inv), PushEvent(s), PushEvent(t), ConnectEvent(inv)]);
            && h.pushed == [s, t] && h.acked == [] && h.st.queue == []
            && h.st.entries == [Entry(inv, t), Entry(inv, IDLE)]
  {
    var inv := DefaultInvoker(id);
    RunFour(EMPTY, ConnectEvent(inv), PushEvent(s), PushEvent(t), ConnectEvent(inv));
    var h1 := Step(EMPTY, ConnectEvent(inv));
    ConnectForm(EMPTY.st, inv);
    var h2 := Step(h1, PushEvent(s));
    PushForm(h1.st, s);
    assert h2.st.entries == [Entry(inv, s)] && h2.st.queue == [];
    var h3 := Step(h2, PushEvent(t));
    PushForm(h2.st, t);
    assert h3.st.entries == [Entry(inv, s)] && h3.st.queue == [t];
    SecondConnect(h3.st, inv, s, t);
  }

  /**
   * In every reachable state each pushed submission is queued, with one invoker, or acknowledged, never lost or
   * doubled.
   */
  lemma {:induction false} Conservation(evs: seq<Event>)
    requires AllowedRun(EMPTY, evs)
    ensures var h := Run(EMPTY, evs);
            multiset(h.pushed) == multiset(h.st.queue) + Busy(h.st.entries) + multiset(h.acked)
  {
    RunKeeps(EMPTY, evs);
  }

  lemma {:induction false} BusyOnce(entries: seq<Entry>, i: nat)
    requires i < |entries| && entries[i].busyWith != IDLE
    ensures Busy(entries)[entries[i].busyWith] >= 1
  {
    BusySplit(entries, i);
  }

  lemma {:induction false} BusyTwice(entries: seq<Entry>, i: nat, j: nat)
    requires i < j < |entries| && entries[i].busyWith == entries[j].busyWith != IDLE
    ensures Busy(entries)[entries[i].busyWith] >= 2
  {
    BusySplit(entries, i);
    var rest := RemoveAt(entries, i);
    assert rest[j - 1] == entries[j];
    BusyOnce(rest, j - 1);
  }

  /**
   * A submission pushed once is never tested by two invokers at a time, nor tested while it is queued or
   * acknowledged.
   */
  lemma {:induction false} TestedByOneInvoker(evs: seq<Event>, s: Id, i: nat)
    requires AllowedRun(EMPTY, evs)
    requires multiset(Run(EMPTY, evs).pushed)[s] <= 1
    requires i < |Run(EMPTY, evs).st.entries| && Run(EMPTY, evs).st.entries[i].busyWith == s != IDLE
    ensures var h := Run(EMPTY, evs);
            && s !in h.st.queue && s !in h.acked
            && forall j :: 0 <= j < |h.st.entries| && j != i ==> h.st.entries[j].busyWith != s
  {
    var h := Run(EMPTY, evs);
    Conservation(evs);
    BusyOnce(h.st.entries, i);
    forall j | 0 <= j < |h.st.entries| && j != i && h.st.entries[j].busyWith == s
      ensures false
    {
      BusyTwice(h.st.entries, if i < j then i else j, if i < j then j else i);
    }
    assert s in h.st.queue ==> multiset(h.st.queue)[s] >= 1;
    assert s in h.acked ==> multiset(h.acked)[s] >= 1;
  }

  /** The default canTestSubmission: every invoker accepts every submission. */
  ghost predicate AllAccepting(ev: Event) {
    ev.ConnectEvent? ==> forall s :: ev.invoker.accepts(s)
  }

  ghost predicate EntriesAccept(h: History) {
    forall e, s :: e in h.st.entries ==> e.invoker.accepts(s)
  }

  /** Submissions never sent so far follow the first sends in arrival order. */
  ghost predicate InArrivalOrder(h: History) {
    h.requeued <= |h.st.queue| && h.firstSends + h.st.queue[h.requeued..] == h.pushed
  }

  lemma {:induction false} OrderPush(h: History, s: Id)
    requires Inv(h) && EntriesAccept(h) && InArrivalOrder(h)
    ensures InArrivalOrder(Step(h, PushEvent(s)))
  {
    PushForm(h.st, s);
    if FirstIdle(h.st.entries, s).Some? {
      var e := h.st.entries[FirstIdle(h.st.entries, s).value];
      assert e in h.st.entries;
      var oldestFresh := (h.st.queue + [IDLE])[h.requeued];
      assert e.invoker.accepts(oldestFresh);
      if h.requeued < |h.st.queue| {
        assert false;
      }
    }
  }

  lemma {:induction false} OrderFree(h: History, id: Id)
    requires Inv(h) && EntriesAccept(h) && InArrivalOrder(h)
    ensures InArrivalOrder(Step(h, FreeEvent(id)))
  {
    if IndexOf(h.st.entries, id).Some? {
      var i := IndexOf(h.st.entries, id).value;
      assert h.st.entries[i] in h.st.entries;
      FreeForm(h.st, id, i);
      AcceptingTry(h, h.st.entries[i].invoker);
    }
  }

  lemma {:induction false} OrderConnect(h: History, invoker: Invoker)
    requires Inv(h) && Allowed(h, ConnectEvent(invoker)) && AllAccepting(ConnectEvent(invoker)) && InArrivalOrder(h)
    ensures InArrivalOrder(Step(h, ConnectEvent(invoker)))
  {
    ConnectForm(h.st, invoker);
    AcceptingTry(h, invoker);
  }

  lemma {:induction false} OrderDisconnect(h: History, id: Id)
    requires Inv(h) && Allowed(h, DisconnectEvent(id)) && InArrivalOrder(h)
    ensures InArrivalOrder(Step(h, DisconnectEvent(id)))
  {
    if IndexOf(h.st.entries, id).Some? {
      var h' := Step(h, DisconnectEvent(id));
      assert h'.st.queue[h'.requeued..] == h.st.queue[h.requeued..];
    }
  }

  lemma {:induction false} OrderStep(h: History, ev: Event)
    requires Inv(h) && Allowed(h, ev) && AllAccepting(ev)
    requires EntriesAccept(h) && InArrivalOrder(h)
    ensures InArrivalOrder(Step(h, ev))
  {
    hide Inv, EntriesAccept, InArrivalOrder, Step, Allowed;
    match ev
    case PushEvent(s) => OrderPush(h, s);
    case FreeEvent(id) => OrderFree(h, id);
    case ConnectEvent(invoker) => OrderConnect(h, invoker);
    case DisconnectEvent(id) => OrderDisconnect(h, id);
  }

  /** The invokers of a state all come from connect events. */
  lemma {:induction false} AcceptStep(h: History, ev: Event)
    requires Inv(h) && Allowed(h, ev) && AllAccepting(ev) && EntriesAccept(h)
    ensures EntriesAccept(Step(h, ev))
  {
    match ev
    case PushEvent(s) => PushForm(h.st, s);
    case FreeEvent(id) =>
      if IndexOf(h.st.entries, id).Some? {
        assert h.st.entries[IndexOf(h.st.entries, id).value] in h.st.entries;
        FreeForm(h.st, id, IndexOf(h.st.entries, id).value);
      }
    case ConnectEvent(invoker) => ConnectForm(h.st, invoker);
    case DisconnectEvent(id) =>
  }

  /** An invoker that accepts everything takes the head of the queue. */
  lemma {:induction false} AcceptingTry(h: History, invoker: Invoker)
    requires h.requeued <= |h.st.queue|
    requires forall s :: invoker.accepts(s)
    ensures h.st.queue == [] ==> AfterTry(h, invoker) == h && FirstAccepted(h.st.queue, invoker).None?
    ensures h.st.queue != [] ==> FirstAccepted(h.st.queue, invoker) == Some(0)
    ensures h.st.queue != [] ==>
              AfterTry(h, invoker).firstSends + RemoveAt(h.st.queue, 0)[AfterTry(h, invoker).requeued..] ==
              h.firstSends + h.st.queue[h.requeued..]
  {
    if h.st.queue != [] {
      assert invoker.accepts(h.st.queue[0]);
      assert FirstAccepted(h.st.queue, invoker) == Some(0);
      assert AfterTry(h, invoker) == TakeFromQueue(h, 0);
      HeadTaken(h.firstSends, h.st.queue, h.requeued);
    }
  }

  lemma {:induction false} HeadTaken(first: seq<Id>, queue: seq<Id>, r: nat)
    requires r <= |queue| && queue != []
    ensures r > 0 ==> RemoveAt(queue, 0)[r - 1..] == queue[r..]
    ensures r == 0 ==> first + [queue[0]] + RemoveAt(queue, 0)[0..] == first + queue[0..]
  {
    assert RemoveAt(queue, 0) == queue[1..];
    assert queue == [queue[0]] + queue[1..];
  }

  lemma {:induction false} OrderRun(h: History, evs: seq<Event>)
    requires Inv(h) && AllowedRun(h, evs) && EntriesAccept(h) && InArrivalOrder(h)
    requires forall k :: 0 <= k < |evs| ==> AllAccepting(evs[k])
    ensures InArrivalOrder(Run(h, evs))
    decreases |evs|
  {
    if evs != [] {
      OrderStep(h, evs[0]);
      AcceptStep(h, evs[0]);
      StepKeeps(h, evs[0]);
      OrderRun(Step(h, evs[0]), evs[1..]);
    }
  }

  /**
   * With all-accepting invokers, and however invokers come, go and crash, the first sends followed by the submissions
   * never sent are exactly the pushes in order: no submission overtakes another on its way to its first invoker.
   */
  lemma {:induction false} FirstSendsInArrivalOrder(evs: seq<Event>)
    requires AllowedRun(EMPTY, evs)
    requires forall k :: 0 <= k < |evs| ==> AllAccepting(evs[k])
    ensures var h := Run(EMPTY, evs);
            h.requeued <= |h.st.queue| && h.firstSends + h.st.queue[h.requeued..] == h.pushed
  {
    OrderRun(EMPTY, evs);
  }

  /** No event of the run disconnects a busy invoker. */
  predicate NoBusyDisconnect(h: History, evs: seq<Event>)
    decreases |evs|
  {
    evs == [] ||
    (&& (evs[0].DisconnectEvent? ==> Overwritten(h.st.entries, evs[0].id) == IDLE)
     && NoBusyDisconnect(Step(h, evs[0]), evs[1..]))
  }

  function Submissions(sends: seq<Send>): (r: seq<Id>)
    ensures |r| == |sends|
    ensures forall k :: 0 <= k < |sends| ==> r[k] == sends[k].submission
  {
    seq(|sends|, k requires 0 <= k < |sends| => sends[k].submission)
  }

  lemma {:induction false} NoRequeueStep(h: History, ev: Event)
    requires h.requeued == 0 && h.firstSends == Submissions(h.st.sent)
    requires ev.DisconnectEvent? ==> Overwritten(h.st.entries, ev.id) == IDLE
    ensures Step(h, ev).requeued == 0 && Step(h, ev).firstSends == Submissions(Step(h, ev).st.sent)
  {
    if ev.ConnectEvent? {
      assert (h.st.entries + [Entry(ev.invoker, IDLE)])[|h.st.entries|].invoker.id == ev.invoker.id;
    }
  }

  lemma {:induction false} NoRequeueRun(h: History, evs: seq<Event>)
    requires h.requeued == 0 && h.firstSends == Submissions(h.st.sent) && NoBusyDisconnect(h, evs)
    ensures Run(h, evs).requeued == 0 && Run(h, evs).firstSends == Submissions(Run(h, evs).st.sent)
    decreases |evs|
  {
    if evs != [] {
      NoRequeueStep(h, evs[0]);
      NoRequeueRun(Step(h, evs[0]), evs[1..]);
    }
  }

  /**
   * Global FIFO: with all-accepting invokers and no crash of a busy one, the send log followed by the queue is the
   * push log.
   */
  lemma {:induction false} GlobalFifo(evs: seq<Event>)
    requires AllowedRun(EMPTY, evs) && NoBusyDisconnect(EMPTY, evs)
    requires forall k :: 0 <= k < |evs| ==> AllAccepting(evs[k])
    ensures var h := Run(EMPTY, evs);
            Submissions(h.st.sent) + h.st.queue == h.pushed
  {
    FirstSendsInArrivalOrder(evs);
    assert Submissions([]) == [];
    NoRequeueRun(EMPTY, evs);
    var h := Run(EMPTY, evs);
    assert h.st.queue[0..] == h.st.queue;
  }

  /** In every reachable state an idle invoker refuses every queued submission except the requeued ones at the head. */
  lemma {:induction false} OnlyRequeuedSubmissionsWaitForIdleInvokers(evs: seq<Event>, i: nat, k: nat)
    requires AllowedRun(EMPTY, evs)
    requires i < |Run(EMPTY, evs).st.entries| && Run(EMPTY, evs).st.entries[i].busyWith == IDLE
    requires k < |Run(EMPTY, evs).st.queue|
    requires Run(EMPTY, evs).st.entries[i].invoker.accepts(Run(EMPTY, evs).st.queue[k])
    ensures k < Run(EMPTY, evs).requeued
    ensures !NoBusyDisconnect(EMPTY, evs)
  {
    RunKeeps(EMPTY, evs);
    var h := Run(EMPTY, evs);
    assert h.st.entries[i] in h.st.entries;
    if NoBusyDisconnect(EMPTY, evs) {
      NoRequeueRun(EMPTY, evs);
    }
  }

  /** The exception happens: a crash requeues a submission beside an idle invoker that could test it. */
  lemma {:induction false} DisconnectLeavesWorkWaiting(a: Id, b: Id, s: Id)
    requires a != b && s != IDLE
    ensures var first, second := DefaultInvoker(a), DefaultInvoker(b);
            var evs := [ConnectEvent(first), PushEvent(s), ConnectEvent(second), DisconnectEvent(a)];
            && AllowedRun(EMPTY, evs) && Run(EMPTY, evs).st.queue == [s]
            && Run(EMPTY, evs).st.entries == [Entry(DefaultInvoker(b), IDLE)]
  {
    var ia, ib := DefaultInvoker(a), DefaultInvoker(b);
    var evs := [ConnectEvent(ia), PushEvent(s), ConnectEvent(ib), DisconnectEvent(a)];
    var h1 := Step(EMPTY, evs[0]);
    assert h1.st == State([], [Entry(ia, IDLE)], []);
    var h2 := Step(h1, evs[1]);
    assert h2.st.entries == [Entry(ia, s)] && h2.st.queue == [];
    var h3 := Step(h2, evs[2]);
    assert h3.st.entries == [Entry(ia, s), Entry(ib, IDLE)] && h3.st.queue == [];
    assert IndexOf(h3.st.entries, a) == Some(0);
    var h4 := Step(h3, evs[3]);
    assert h4.st.queue == [s] && h4.st.entries == [Entry(ib, IDLE)];
    RunFour(EMPTY, evs[0], evs[1], evs[2], evs[3]);
  }
}
