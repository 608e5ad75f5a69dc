/** Exactly which calls lose submissions, and exactly which leave work beside an idle invoker. */
module TestingQueueFaults {
  import opened Prelude
  import opened TestingQueues
  import opened TestingQueueRuns

  // ----- Conservation over every run, ids unrestricted -----

  /**
   * The call sends the empty submission, which marks the invoker idle, or marks an invoker busy under an id that a
   * busy invoker ahead of it has.
   */
  predicate Loses(st: State, ev: Event) {
    match ev
    case PushEvent(s) =>
      && FirstIdle(st.entries, s).Some?
      && (s == IDLE || Overwritten(st.entries, st.entries[FirstIdle(st.entries, s).value].invoker.id) != IDLE)
    case FreeEvent(id) =>
      && IndexOf(st.entries, id).Some?
      && var accepted := FirstAccepted(st.queue, st.entries[IndexOf(st.entries, id).value].invoker);
         accepted.Some? && st.queue[accepted.value] == IDLE
    case ConnectEvent(invoker) =>
      && FirstAccepted(st.queue, invoker).Some?
      && (st.queue[FirstAccepted(st.queue, invoker).value] == IDLE || Overwritten(st.entries, invoker.id) != IDLE)
    case DisconnectEvent(_) => false
  }

  lemma {:induction false} FreeConservesIff(st: State, id: Id, i: nat)
    requires IndexOf(st.entries, id) == Some(i)
    ensures Free(st, id).Ok?
    ensures Load(Free(st, id).value) + Held(st.entries[i].busyWith) == Load(st) <==> !Loses(st, FreeEvent(id))
  {
    FreeForm(st, id, i);
    var st', given := Free(st, id).value, Held(st.entries[i].busyWith);
    match FirstAccepted(st.queue, st.entries[i].invoker)
    case None =>
      BusySet(st.entries, i, IDLE);
      MultisetShift(multiset(st'.queue), Busy(st'.entries), given, Busy(st.entries), Held(IDLE));
    case Some(k) =>
      var s := st.queue[k];
      BusySet(st.entries, i, s);
      RemoveAtMultiset(st.queue, k);
      MultisetShift(multiset(st'.queue), Busy(st'.entries), given, Busy(st.entries), Held(s));
      var rest := multiset(st'.queue) + Busy(st.entries);
      MultisetAssoc(multiset(st'.queue), multiset{s}, Busy(st.entries));
      assert Load(st) == rest + multiset{s};
      assert Load(st') + given == rest + Held(s);
      if s == IDLE {
        assert |rest + multiset{s}| == |rest + Held(s)| + 1;
      }
  }

  lemma {:induction false} PushStepIff(h: History, s: Id)
    requires Conserved(h)
    ensures Conserved(Step(h, PushEvent(s))) <==> !Loses(h.st, PushEvent(s))
  {
    PushConservesIff(h.st, s);
    var after, before, acked := Load(Push(h.st, s)), Load(h.st), multiset(h.acked);
    assert multiset(h.pushed + [s]) == multiset(h.pushed) + multiset{s};
    MultisetAssoc(before, multiset{s}, acked);
    hide Push, Load, FirstIdle, Overwritten, Held;
    if Conserved(Step(h, PushEvent(s))) {
      MultisetCancel(after, before + multiset{s}, acked);
    }
  }

  lemma {:induction false} FreeStepIff(h: History, id: Id)
    requires Conserved(h)
    ensures Conserved(Step(h, FreeEvent(id))) <==> !Loses(h.st, FreeEvent(id))
  {
    if IndexOf(h.st.entries, id).Some? {
      var i := IndexOf(h.st.entries, id).value;
      FreeConservesIff(h.st, id, i);
      var h' := Step(h, FreeEvent(id));
      var held, after, acked := Held(h.st.entries[i].busyWith), Load(h'.st), multiset(h.acked);
      assert multiset(h'.acked) == acked + held;
      assert h'.pushed == h.pushed && h'.st == Free(h.st, id).value;
      hide Step, Free, Load, Held, IndexOf, Loses;
      MultisetAssoc(after, held, acked);
      MultisetAssoc(after, acked, held);
      if Conserved(h') {
        MultisetCancel(after + held, Load(h.st), acked);
      }
    }
  }

  lemma {:induction false} ConnectStepIff(h: History, invoker: Invoker)
    requires Conserved(h)
    ensures Conserved(Step(h, ConnectEvent(invoker))) <==> !Loses(h.st, ConnectEvent(invoker))
  {
    ConnectConservesIff(h.st, invoker);
    hide Connect, Load, FirstAccepted, Overwritten;
    if Conserved(Step(h, ConnectEvent(invoker))) {
      MultisetCancel(Load(Connect(h.st, invoker)), Load(h.st), multiset(h.acked));
    }
  }

  lemma {:induction false} StepConservesIff(h: History, ev: Event)
    requires Conserved(h)
    ensures Conserved(Step(h, ev)) <==> !Loses(h.st, ev)
  {
    match ev
    case PushEvent(s) => PushStepIff(h, s);
    case FreeEvent(id) => FreeStepIff(h, id);
    case ConnectEvent(invoker) => ConnectStepIff(h, invoker);
    case DisconnectEvent(id) =>
      if IndexOf(h.st.entries, id).Some? {
        DisconnectLoad(h.st, id, IndexOf(h.st.entries, id).value);
      }
  }

  ghost predicate ConservedThroughout(h: History, evs: seq<Event>)
    decreases |evs|
  {
    Conserved(h) && (evs != [] ==> ConservedThroughout(Step(h, evs[0]), evs[1..]))
  }

  predicate NeverLoses(h: History, evs: seq<Event>)
    decreases |evs|
  {
    evs != [] ==> !Loses(h.st, evs[0]) && NeverLoses(Step(h, evs[0]), evs[1..])
  }

  /** Over every run of any calls: nothing is lost or doubled up to any point exactly when no call is a losing one. */
  lemma {:induction false} ConservationIff(h: History, evs: seq<Event>)
    requires Conserved(h)
    ensures ConservedThroughout(h, evs) <==> NeverLoses(h, evs)
    decreases |evs|
  {
    if evs != [] {
      StepConservesIff(h, evs[0]);
      if Conserved(Step(h, evs[0])) {
        ConservationIff(Step(h, evs[0]), evs[1..]);
      }
    }
  }

  // ----- Work beside an idle invoker -----

  /** No idle invoker accepts a queued submission. */
  ghost predicate Settled(st: State) {
    forall e, s :: e in st.entries && e.busyWith == IDLE && s in st.queue ==> !e.invoker.accepts(s)
  }

  /** A busy invoker leaves while an idle one accepts its submission. */
  ghost predicate Strands(st: State, ev: Event) {
    ev.DisconnectEvent? && IndexOf(st.entries, ev.id).Some?
    && var s := st.entries[IndexOf(st.entries, ev.id).value].busyWith;
       s != IDLE && exists e :: e in st.entries && e.busyWith == IDLE && e.invoker.accepts(s)
  }

  ghost predicate Wants(invoker: Invoker, queue: seq<Id>) {
    exists s :: s in queue && invoker.accepts(s)
  }

  /**
   * The call leaves an invoker idle that accepts something still queued: by sending the empty id, by marking a namesake
   * busy instead of the invoker that gets the submission, or by stranding a submission.
   */
  ghost predicate Unsettles(st: State, ev: Event) {
    match ev
    case PushEvent(s) =>
      && s == IDLE && FirstIdle(st.entries, s).Some?
      && var namesake := IndexOf(st.entries, st.entries[FirstIdle(st.entries, s).value].invoker.id);
         namesake.Some? && Wants(st.entries[namesake.value].invoker, st.queue)
    case FreeEvent(id) =>
      && IndexOf(st.entries, id).Some?
      && var invoker := st.entries[IndexOf(st.entries, id).value].invoker;
         var taken := FirstAccepted(st.queue, invoker);
         taken.Some? && st.queue[taken.value] == IDLE && Wants(invoker, RemoveAt(st.queue, taken.value))
    case ConnectEvent(invoker) =>
      && FirstAccepted(st.queue, invoker).Some?
      && var k := FirstAccepted(st.queue, invoker).value;
         var rest := RemoveAt(st.queue, k);
         (match IndexOf(st.entries, invoker.id)
          case None => st.queue[k] == IDLE && Wants(invoker, rest)
          case Some(j) => Wants(invoker, rest) || (st.queue[k] == IDLE && Wants(st.entries[j].invoker, rest)))
    case DisconnectEvent(_) => Strands(st, ev)
  }

  /** Only entry `j` can become idle. */
  lemma {:induction false} SetBusySettledIff(st: State, st': State, j: nat, s: Id)
    requires Settled(st) && j < |st.entries| && st'.entries == SetBusy(st.entries, j, s)
    requires forall q :: q in st'.queue ==> q in st.queue
    ensures Settled(st') <==> !(s == IDLE && Wants(st.entries[j].invoker, st'.queue))
  {
    assert st'.entries[j] == Entry(st.entries[j].invoker, s) && st'.entries[j] in st'.entries;
    if !(s == IDLE && Wants(st.entries[j].invoker, st'.queue)) {
      forall e, q | e in st'.entries && e.busyWith == IDLE && q in st'.queue ensures !e.invoker.accepts(q) {
        var m :| 0 <= m < |st'.entries| && st'.entries[m] == e;
        assert m != j ==> st.entries[m] in st.entries;
      }
    }
  }

  lemma {:induction false} PushSettledIff(st: State, s: Id)
    requires Settled(st)
    ensures Settled(Push(st, s)) <==> !Unsettles(st, PushEvent(s))
  {
    match FirstIdle(st.entries, s)
    case None =>
      forall e | e in st.entries && e.busyWith == IDLE ensures !e.invoker.accepts(s) {
        var m :| 0 <= m < |st.entries| && st.entries[m] == e;
      }
    case Some(i) =>
      var j := IndexOf(st.entries, st.entries[i].invoker.id).value;
      SetBusySettledIff(st, Push(st, s), j, s);
  }

  lemma {:induction false} FreeSettledIff(st: State, id: Id, i: nat)
    requires Settled(st) && IndexOf(st.entries, id) == Some(i)
    ensures Free(st, id).Ok?
    ensures Settled(Free(st, id).value) <==> !Unsettles(st, FreeEvent(id))
  {
    FreeForm(st, id, i);
    var st', invoker := Free(st, id).value, st.entries[i].invoker;
    match FirstAccepted(st.queue, invoker)
    case None =>
      assert !Wants(invoker, st.queue);
      SetBusySettledIff(st, st', i, IDLE);
    case Some(k) =>
      SetBusySettledIff(st, st', i, st.queue[k]);
  }

  lemma {:induction false} JoinSettledIff(st: State, invoker: Invoker, rest: seq<Id>)
    requires Settled(st) && forall q :: q in rest ==> q in st.queue
    ensures Settled(st.(entries := st.entries + [Entry(invoker, IDLE)], queue := rest)) <==> !Wants(invoker, rest)
  {
    var joined := st.entries + [Entry(invoker, IDLE)];
    assert joined[|st.entries|] in joined;
  }

  lemma {:induction false} ConnectSettledIff(st: State, invoker: Invoker)
    requires Settled(st)
    ensures Settled(Connect(st, invoker)) <==> !Unsettles(st, ConnectEvent(invoker))
  {
    var n, joined, st' := |st.entries|, st.entries + [Entry(invoker, IDLE)], Connect(st, invoker);
    assert joined[n].invoker.id == invoker.id && forall m :: 0 <= m < n ==> joined[m] == st.entries[m];
    match FirstAccepted(st.queue, invoker)
    case None =>
      assert !Wants(invoker, st.queue);
      JoinSettledIff(st, invoker, st.queue);
    case Some(k) =>
      var s, rest := st.queue[k], RemoveAt(st.queue, k);
      match IndexOf(st.entries, invoker.id)
      case None =>
        ConnectForm(st, invoker);
        NewEntrySettledIff(st, st', invoker, s);
      case Some(j) =>
        assert IndexOf(joined, invoker.id) == Some(j);
        assert st'.entries == SetBusy(joined, j, s) && st'.queue == rest;
        TwoEntriesSettledIff(st, st', invoker, j, s);
  }

  lemma {:induction false} NewEntrySettledIff(st: State, st': State, invoker: Invoker, s: Id)
    requires Settled(st) && st'.entries == st.entries + [Entry(invoker, s)]
    requires forall q :: q in st'.queue ==> q in st.queue
    ensures Settled(st') <==> !(s == IDLE && Wants(invoker, st'.queue))
  {
    assert st'.entries[|st.entries|] in st'.entries;
  }

  lemma {:induction false} TwoEntriesSettledIff(st: State, st': State, invoker: Invoker, j: nat, s: Id)
    requires Settled(st) && j < |st.entries| && forall q :: q in st'.queue ==> q in st.queue
    requires st'.entries == SetBusy(st.entries + [Entry(invoker, IDLE)], j, s)
    ensures Settled(st') <==>
            !Wants(invoker, st'.queue) && !(s == IDLE && Wants(st.entries[j].invoker, st'.queue))
  {
    var n := |st.entries|;
    assert st'.entries[n] == Entry(invoker, IDLE) && st'.entries[n] in st'.entries;
    assert st'.entries[j] == Entry(st.entries[j].invoker, s) && st'.entries[j] in st'.entries;
    if !Wants(invoker, st'.queue) && !(s == IDLE && Wants(st.entries[j].invoker, st'.queue)) {
      forall e, q | e in st'.entries && e.busyWith == IDLE && q in st'.queue ensures !e.invoker.accepts(q) {
        var m :| 0 <= m < |st'.entries| && st'.entries[m] == e;
        assert m != j && m != n ==> st.entries[m] in st.entries;
      }
    }
  }

  lemma {:induction false} DisconnectSettledIff(st: State, id: Id, i: nat)
    requires Settled(st) && IndexOf(st.entries, id) == Some(i)
    ensures Disconnect(st, id).Ok?
    ensures Settled(Disconnect(st, id).value) <==> !Strands(st, DisconnectEvent(id))
  {
    var st', s := Disconnect(st, id).value, st.entries[i].busyWith;
    forall e ensures e in st'.entries ==> e in st.entries {
    }
    forall e | e in st.entries && e.busyWith == IDLE && s != IDLE ensures e in st'.entries {
      var j :| 0 <= j < |st.entries| && st.entries[j] == e;
      assert st'.entries[if j < i then j else j - 1] == e;
    }
    if s != IDLE {
      assert st'.queue[0] == s && s in st'.queue;
      assert forall q :: q in st'.queue <==> q == s || q in st.queue;
    }
  }

  /** A call leaves new work beside an idle invoker exactly when it unsettles, ids unrestricted. */
  lemma {:induction false} StepSettledIff(h: History, ev: Event)
    requires Settled(h.st)
    ensures Settled(Step(h, ev).st) <==> !Unsettles(h.st, ev)
  {
    match ev
    case PushEvent(s) => PushSettledIff(h.st, s);
    case FreeEvent(id) =>
      if IndexOf(h.st.entries, id).Some? {
        FreeSettledIff(h.st, id, IndexOf(h.st.entries, id).value);
      }
    case ConnectEvent(invoker) => ConnectSettledIff(h.st, invoker);
    case DisconnectEvent(id) =>
      if IndexOf(h.st.entries, id).Some? {
        DisconnectSettledIff(h.st, id, IndexOf(h.st.entries, id).value);
      }
  }

  /** With distinct ids and no empty submission only a stranding disconnect does. */
  lemma {:induction false} UnsettlesIsStrands(h: History, ev: Event)
    requires DistinctIds(h.st.entries) && IDLE !in h.st.queue && Settled(h.st) && Allowed(h, ev)
    ensures Unsettles(h.st, ev) <==> Strands(h.st, ev)
  {
  }

  ghost predicate SettledThroughout(h: History, evs: seq<Event>)
    decreases |evs|
  {
    Settled(h.st) && (evs != [] ==> SettledThroughout(Step(h, evs[0]), evs[1..]))
  }

  ghost predicate NeverUnsettles(h: History, evs: seq<Event>)
    decreases |evs|
  {
    evs != [] ==> !Unsettles(h.st, evs[0]) && NeverUnsettles(Step(h, evs[0]), evs[1..])
  }

  ghost predicate NeverStrands(h: History, evs: seq<Event>)
    decreases |evs|
  {
    evs != [] ==> !Strands(h.st, evs[0]) && NeverStrands(Step(h, evs[0]), evs[1..])
  }

  /**
   * Work conservation: over every run of any calls no idle invoker is ever left beside a queued submission it accepts
   * exactly when no call unsettles.
   */
  lemma {:induction false} WorkConservedIff(h: History, evs: seq<Event>)
    requires Settled(h.st)
    ensures SettledThroughout(h, evs) <==> NeverUnsettles(h, evs)
    decreases |evs|
  {
    if evs != [] {
      StepSettledIff(h, evs[0]);
      if Settled(Step(h, evs[0]).st) {
        WorkConservedIff(Step(h, evs[0]), evs[1..]);
      }
    }
  }

  /**
   * With distinct ids and no empty submission: exactly when no busy invoker leaves while an idle one accepts its
   * work.
   */
  lemma {:induction false} WorkStrandedIff(h: History, evs: seq<Event>)
    requires Inv(h) && Settled(h.st) && AllowedRun(h, evs)
    ensures SettledThroughout(h, evs) <==> NeverStrands(h, evs)
    decreases |evs|
  {
    if evs != [] {
      StepSettledIff(h, evs[0]);
      UnsettlesIsStrands(h, evs[0]);
      StepKeeps(h, evs[0]);
      if Settled(Step(h, evs[0]).st) {
        WorkStrandedIff(Step(h, evs[0]), evs[1..]);
      }
    }
  }
}
