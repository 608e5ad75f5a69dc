/** The dispatcher's scheduler: a FIFO of submission ids and the connected invokers, each idle or busy. */
module TestingQueues {
  import opened Prelude

  /** Node ids and submission ids. */
  datatype Id = Id(text: string)

  /** `accepts` is the virtual canTestSubmission of the invoker. */
  datatype Invoker = Invoker(id: Id, accepts: Id -> bool)

  datatype Entry = Entry(invoker: Invoker, busyWith: Id)

  /** One testSubmission call: `submission` handed to the channel of `invokerId`. */
  datatype Send = Send(invokerId: Id, submission: Id)

  datatype State = State(queue: seq<Id>, entries: seq<Entry>, sent: seq<Send>)

  datatype Error = InvokerNotFound(id: Id)

  /** The busy_with value that stands for "not testing anything". */
  const IDLE := Id("")

  function DefaultInvoker(id: Id): Invoker {
    Invoker(id, _ => true)
  }

  function IndexOf(entries: seq<Entry>, id: Id): (r: Option<nat>)
    ensures r.Some? ==> r.value < |entries| && entries[r.value].invoker.id == id
    ensures r.Some? ==> forall k :: 0 <= k < r.value ==> entries[k].invoker.id != id
    ensures r.None? ==> forall k :: 0 <= k < |entries| ==> entries[k].invoker.id != id
  {
    FirstIndex(entries, (e: Entry) => e.invoker.id == id)
  }

  /** The first idle invoker that can test `submission`. */
  function FirstIdle(entries: seq<Entry>, submission: Id): (r: Option<nat>)
    ensures r.Some? ==> r.value < |entries| && entries[r.value].busyWith == IDLE
    ensures r.Some? ==> entries[r.value].invoker.accepts(submission)
    ensures r.Some? ==> forall k :: 0 <= k < r.value ==>
              !(entries[k].busyWith == IDLE && entries[k].invoker.accepts(submission))
    ensures r.None? ==> forall k :: 0 <= k < |entries| ==>
              !(entries[k].busyWith == IDLE && entries[k].invoker.accepts(submission))
  {
    FirstIndex(entries, (e: Entry) => e.busyWith == IDLE && e.invoker.accepts(submission))
  }

  /** The oldest queued submission that `invoker` can test. */
  function FirstAccepted(queue: seq<Id>, invoker: Invoker): (r: Option<nat>)
    ensures r.Some? ==> r.value < |queue| && invoker.accepts(queue[r.value])
    ensures r.Some? ==> forall k :: 0 <= k < r.value ==> !invoker.accepts(queue[k])
    ensures r.None? ==> forall k :: 0 <= k < |queue| ==> !invoker.accepts(queue[k])
  {
    FirstIndex(queue, invoker.accepts)
  }

  function SetBusy(entries: seq<Entry>, i: nat, submission: Id): (r: seq<Entry>)
    requires i < |entries|
    ensures |r| == |entries|
  {
    entries[i := entries[i].(busyWith := submission)]
  }

  /** The lookup goes by id, so it is the first entry with this id that is marked. */
  function SendForTesting(st: State, submission: Id, invoker: Invoker): State
    requires IndexOf(st.entries, invoker.id).Some?
  {
    st.(entries := SetBusy(st.entries, IndexOf(st.entries, invoker.id).value, submission),
        sent := st.sent + [Send(invoker.id, submission)])
  }

  function TriedInvoker(st: State, invoker: Invoker): Option<State>
    requires IndexOf(st.entries, invoker.id).Some?
  {
    match FirstAccepted(st.queue, invoker)
    case None => None
    case Some(i) => Some(SendForTesting(st, st.queue[i], invoker).(queue := RemoveAt(st.queue, i)))
  }

  function Push(st: State, submission: Id): State {
    match FirstIdle(st.entries, submission)
    case None => st.(queue := st.queue + [submission])
    case Some(i) => SendForTesting(st, submission, st.entries[i].invoker)
  }

  function Free(st: State, id: Id): Result<State, Error> {
    match IndexOf(st.entries, id)
    case None => Err(InvokerNotFound(id))
    case Some(i) =>
      match TriedInvoker(st, st.entries[i].invoker)
      case Some(st') => Ok(st')
      case None => Ok(st.(entries := SetBusy(st.entries, i, IDLE)))
  }

  function Connect(st: State, invoker: Invoker): State {
    var joined := st.(entries := st.entries + [Entry(invoker, IDLE)]);
    assert joined.entries[|st.entries|].invoker.id == invoker.id;
    match TriedInvoker(joined, invoker)
    case Some(st') => st'
    case None => joined
  }

  function Disconnect(st: State, id: Id): Result<State, Error> {
    match IndexOf(st.entries, id)
    case None => Err(InvokerNotFound(id))
    case Some(i) =>
      var busyWith := st.entries[i].busyWith;
      Ok(st.(queue := if busyWith == IDLE then st.queue else [busyWith] + st.queue,
             entries := RemoveAt(st.entries, i)))
  }

  /** The singleton queue object; every public method moves it by the function of the same name. */
  class TestingQueue {
    var submissionQueue: seq<Id>
    var connectedInvokers: seq<Entry>
    var sent: seq<Send>

    function Abstract(): State
      reads this
    {
      State(submissionQueue, connectedInvokers, sent)
    }

    constructor ()
      ensures Abstract() == State([], [], [])
    {
      submissionQueue, connectedInvokers, sent := [], [], [];
    }

    method PushSubmission(submission: Id)
      modifies this
      ensures Abstract() == Push(old(Abstract()), submission)
    {
      var dispatched := TrySubmission(submission);
      if dispatched {
        return;
      }
      submissionQueue := submissionQueue + [submission];
    }

    method FreeInvoker(id: Id) returns (r: Result<(), Error>)
      modifies this
      ensures r.Ok? <==> exists i :: 0 <= i < |old(connectedInvokers)| && old(connectedInvokers)[i].invoker.id == id
      ensures match Free(old(Abstract()), id)
              case Ok(st) => r == Ok(()) && Abstract() == st
              case Err(e) => r == Err(e) && Abstract() == old(Abstract())
    {
      var found := FindInvokerIndexById(id);
      if found.Err? {
        return Err(found.error);
      }
      var dispatched := TryInvoker(connectedInvokers[found.value].invoker);
      if !dispatched {
        var i := connectedInvokers[found.value];
        connectedInvokers := connectedInvokers[found.value := i.(busyWith := IDLE)];
      }
      return Ok(());
    }

    method ConnectInvoker(invoker: Invoker)
      modifies this
      ensures Abstract() == Connect(old(Abstract()), invoker)
    {
      connectedInvokers := connectedInvokers + [Entry(invoker, IDLE)];
      assert connectedInvokers[|connectedInvokers| - 1].invoker.id == invoker.id;
      var _ := TryInvoker(invoker);
    }

    method DisconnectInvoker(id: Id) returns (r: Result<(), Error>)
      modifies this
      ensures r.Ok? <==> exists i :: 0 <= i < |old(connectedInvokers)| && old(connectedInvokers)[i].invoker.id == id
      ensures match Disconnect(old(Abstract()), id)
              case Ok(st) => r == Ok(()) && Abstract() == st
              case Err(e) => r == Err(e) && Abstract() == old(Abstract())
    {
      var found := FindInvokerIndexById(id);
      if found.Err? {
        return Err(found.error);
      }
      var i := found.value;
      if connectedInvokers[i].busyWith != IDLE {
        submissionQueue := [connectedInvokers[i].busyWith] + submissionQueue;
      }
      connectedInvokers := connectedInvokers[..i] + connectedInvokers[i + 1..];
      return Ok(());
    }

    /** tryInvoker: hand the oldest acceptable queued submission to `invoker`. */
    method TryInvoker(invoker: Invoker) returns (dispatched: bool)
      requires IndexOf(connectedInvokers, invoker.id).Some?
      modifies this
      ensures match TriedInvoker(old(Abstract()), invoker)
              case Some(st) => dispatched && Abstract() == st
              case None => !dispatched && Abstract() == old(Abstract())
    {
      var i := 0;
      while i < |submissionQueue|
        invariant 0 <= i <= |submissionQueue|
        invariant Abstract() == old(Abstract())
        invariant forall k :: 0 <= k < i ==> !invoker.accepts(submissionQueue[k])
      {
        if invoker.accepts(submissionQueue[i]) {
          assert FirstAccepted(submissionQueue, invoker) == Some(i);
          SendSubmissionForTesting(submissionQueue[i], invoker);
          submissionQueue := submissionQueue[..i] + submissionQueue[i + 1..];
          return true;
        }
        i := i + 1;
      }
      return false;
    }

    /** trySubmission: hand `submission` to the first idle invoker that can test it. */
    method TrySubmission(submission: Id) returns (dispatched: bool)
      modifies this
      ensures match FirstIdle(old(connectedInvokers), submission)
              case None => !dispatched && Abstract() == old(Abstract())
              case Some(i) =>
                dispatched && Abstract() == SendForTesting(old(Abstract()), submission,
                  old(connectedInvokers)[i].invoker)
    {
      var i := 0;
      while i < |connectedInvokers|
        invariant 0 <= i <= |connectedInvokers|
        invariant Abstract() == old(Abstract())
        invariant forall k :: 0 <= k < i ==>
                    !(connectedInvokers[k].busyWith == IDLE && connectedInvokers[k].invoker.accepts(submission))
      {
        if connectedInvokers[i].busyWith == IDLE && connectedInvokers[i].invoker.accepts(submission) {
          assert FirstIdle(connectedInvokers, submission) == Some(i);
          SendSubmissionForTesting(submission, connectedInvokers[i].invoker);
          return true;
        }
        i := i + 1;
      }
      return false;
    }

    method SendSubmissionForTesting(submission: Id, invoker: Invoker)
      requires IndexOf(connectedInvokers, invoker.id).Some?
      modifies this
      ensures Abstract() == SendForTesting(old(Abstract()), submission, invoker)
    {
      var found := FindInvokerIndexById(invoker.id);
      var entry := connectedInvokers[found.value];
      connectedInvokers := connectedInvokers[found.value := entry.(busyWith := submission)];
      sent := sent + [Send(invoker.id, submission)];
    }

    method FindInvokerIndexById(id: Id) returns (r: Result<nat, Error>)
      ensures match IndexOf(connectedInvokers, id)
              case Some(i) => r == Ok(i)
              case None => r == Err(InvokerNotFound(id))
    {
      var i := 0;
      while i < |connectedInvokers|
        invariant 0 <= i <= |connectedInvokers|
        invariant forall k :: 0 <= k < i ==> connectedInvokers[k].invoker.id != id
      {
        if connectedInvokers[i].invoker.id == id {
          return Ok(i);
        }
        i := i + 1;
      }
      return Err(InvokerNotFound(id));
    }
  }
}
