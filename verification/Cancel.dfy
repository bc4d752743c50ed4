/** withContext (internal/wglinux/client_linux.go): a netlink call bounded by a
    context. The caller, the callback registered with context.AfterFunc and the
    context itself take steps in any order; the socket's deadline is shared. */
module Cancel {
  datatype Deadline = Clear | OfContext | Past

  /** Where the caller is. `Unbounded` runs fn without touching the socket. */
  datatype Caller =
    | Entered
    | Unbounded
    | Registering
    | Running
    | Stopping
    | Waiting
    | Clearing
    | Returned

  /** Where the callback is. `Firing` is about to set the deadline, `Closing`
      about to close the channel; `Stopped` will never run. */
  datatype Callback = Unregistered | Armed | Firing | Closing | Finished | Stopped

  /** One call: what the socket and the context are like, and where everybody is. */
  datatype Call = Call(
    socketHasDeadlines: bool,
    cancellable: bool,
    hasDeadline: bool,
    contextDone: bool,
    deadline: Deadline,
    caller: Caller,
    callback: Callback)

  /** SetDeadline: an error leaves the socket as it was. */
  function SetDeadline(c: Call, d: Deadline): Call {
    if c.socketHasDeadlines then c.(deadline := d) else c
  }

  datatype Action =
    | ContextEnds
    | Enter
    | Register
    | FnReturns
    | Stop
    | Receive
    | ClearDeadline
    | CallbackStarts
    | CallbackSets
    | CallbackCloses

  predicate Enabled(c: Call, a: Action) {
    match a
    case ContextEnds => c.cancellable && !c.contextDone
    case Enter => c.caller == Entered
    case Register => c.caller == Registering
    case FnReturns => c.caller == Running || c.caller == Unbounded
    case Stop => c.caller == Stopping
    case Receive => c.caller == Waiting && c.callback == Finished
    case ClearDeadline => c.caller == Clearing
    case CallbackStarts => c.callback == Armed && c.contextDone
    case CallbackSets => c.callback == Firing
    case CallbackCloses => c.callback == Closing
  }

  function Do(c: Call, a: Action): Call
    requires Enabled(c, a)
  {
    match a
    case ContextEnds => c.(contextDone := true)
    case Enter =>
      if !c.cancellable then c.(caller := Unbounded)
      else if !c.hasDeadline then c.(caller := Registering)
      else if !c.socketHasDeadlines then c.(caller := Unbounded)
      else SetDeadline(c, OfContext).(caller := Registering)
    case Register => c.(caller := Running, callback := Armed)
    case FnReturns => c.(caller := if c.caller == Unbounded then Returned else Stopping)
    case Stop =>
      if c.callback == Armed then c.(caller := Clearing, callback := Stopped)
      else c.(caller := Waiting)
    case Receive => c.(caller := Clearing)
    case ClearDeadline => SetDeadline(c, Clear).(caller := Returned)
    case CallbackStarts => c.(callback := Firing)
    case CallbackSets => SetDeadline(c, Past).(callback := Closing)
    case CallbackCloses => c.(callback := Finished)
  }

  /** A call about to start on a socket with this deadline. */
  predicate Starts(c: Call, d: Deadline) {
    c.caller == Entered && c.callback == Unregistered && c.deadline == d
  }

  /** Whether the actions can be taken one after the other. */
  predicate Schedule(c: Call, as_: seq<Action>)
    decreases |as_|
  {
    as_ == [] || (Enabled(c, as_[0]) && Schedule(Do(c, as_[0]), as_[1..]))
  }

  function After(c: Call, as_: seq<Action>): Call
    requires Schedule(c, as_)
    decreases |as_|
  {
    if as_ == [] then c else After(Do(c, as_[0]), as_[1..])
  }

  // ----- the invariant

  predicate Inv(c: Call) {
    && (!c.socketHasDeadlines ==> c.deadline == Clear)
    && (c.callback != Unregistered && c.callback != Armed && c.callback != Stopped ==> c.contextDone)
    && match c.caller
       case Entered => c.callback == Unregistered && c.deadline == Clear
       case Unbounded => c.callback == Unregistered && c.deadline == Clear
       case Registering => c.callback == Unregistered
       case Running => c.callback != Unregistered && c.callback != Stopped && PastAfterFiring(c)
       case Stopping => c.callback != Unregistered && c.callback != Stopped && PastAfterFiring(c)
       case Waiting => c.callback == Firing || c.callback == Closing || c.callback == Finished
       case Clearing => c.callback == Stopped || c.callback == Finished
       case Returned =>
         && c.deadline == Clear
         && (c.callback == Unregistered || c.callback == Stopped || c.callback == Finished)
  }

  /** Once the callback has set it, the deadline is in the past. */
  predicate PastAfterFiring(c: Call) {
    c.socketHasDeadlines && (c.callback == Closing || c.callback == Finished) ==> c.deadline == Past
  }

  lemma {:induction false} StepKeepsInv(c: Call, a: Action)
    requires Inv(c) && Enabled(c, a)
    ensures Inv(Do(c, a))
  {}

  lemma {:induction false} ScheduleKeepsInv(c: Call, as_: seq<Action>)
    requires Inv(c) && Schedule(c, as_)
    ensures Inv(After(c, as_))
    decreases |as_|
  {
    if as_ != [] {
      StepKeepsInv(c, as_[0]);
      ScheduleKeepsInv(Do(c, as_[0]), as_[1..]);
    }
  }

  // ----- the promises

  /** In every interleaving, a call that has returned has left the deadline
      clear, and no step that is still possible can set it again. */
  lemma {:induction false} ReturnsClear(c: Call, before: seq<Action>, later: seq<Action>)
    requires Starts(c, Clear) && Schedule(c, before) && After(c, before).caller == Returned
    requires Schedule(After(c, before), later)
    ensures After(c, before).deadline == Clear
    ensures After(After(c, before), later).deadline == Clear
  {
    ScheduleKeepsInv(c, before);
    ReturnedStays(After(c, before), later);
  }

  lemma {:induction false} ReturnedStays(c: Call, as_: seq<Action>)
    requires Inv(c) && c.caller == Returned && Schedule(c, as_)
    ensures After(c, as_).caller == Returned && After(c, as_).deadline == Clear
    decreases |as_|
  {
    if as_ != [] {
      StepKeepsInv(c, as_[0]);
      ReturnedStays(Do(c, as_[0]), as_[1..]);
    }
  }

  /** Once the callback has set the deadline it stays in the past for as long as
      fn runs, so a call that waits for the kernel keeps being interrupted. */
  lemma {:induction false} FiredStaysPast(c: Call, as_: seq<Action>)
    requires Inv(c) && c.socketHasDeadlines && c.caller == Running && c.deadline == Past && Schedule(c, as_)
    requires c.callback == Closing || c.callback == Finished
    requires After(c, as_).caller == Running
    ensures After(c, as_).deadline == Past
    decreases |as_|
  {
    if as_ != [] {
      var d := Do(c, as_[0]);
      StepKeepsInv(c, as_[0]);
      if d.caller != Running {
        NeverRunsAgain(d, as_[1..]);
      } else {
        FiredStaysPast(d, as_[1..]);
      }
    }
  }

  lemma {:induction false} NeverRunsAgain(c: Call, as_: seq<Action>)
    requires Schedule(c, as_)
    requires c.caller == Stopping || c.caller == Waiting || c.caller == Clearing || c.caller == Returned
    ensures After(c, as_).caller != Running
    decreases |as_|
  {
    if as_ != [] {
      NeverRunsAgain(Do(c, as_[0]), as_[1..]);
    }
  }

  /** What bounds the call: fn runs without a callback only when the context can
      never end, or when its deadline cannot be set on this socket; and from the
      start on a context's own deadline is on the socket. */
  predicate Bound(c: Call) {
    && (c.caller == Unbounded ==> !c.cancellable || (c.hasDeadline && !c.socketHasDeadlines))
    && (c.caller == Registering || c.caller == Running ==>
          c.cancellable && (c.hasDeadline ==> c.socketHasDeadlines && c.deadline != Clear))
  }

  /** In every interleaving the call is bounded by its context. */
  lemma {:induction false} CallIsBounded(c: Call, as_: seq<Action>)
    requires Starts(c, Clear) && Schedule(c, as_)
    ensures Bound(After(c, as_))
  {
    BoundStays(c, as_);
  }

  lemma {:induction false} BoundStays(c: Call, as_: seq<Action>)
    requires Inv(c) && Bound(c) && Schedule(c, as_)
    ensures Bound(After(c, as_))
    decreases |as_|
  {
    if as_ != [] {
      StepKeepsInv(c, as_[0]);
      BoundStays(Do(c, as_[0]), as_[1..]);
    }
  }

  /** Whenever fn runs, be it in the middle of a wait for the kernel, the end of
      the context and the callback's own steps put the deadline in the past, with
      no step of the caller: the wait is interrupted. */
  lemma {:induction false} ContextInterrupts(c: Call, as_: seq<Action>) returns (more: seq<Action>)
    requires Starts(c, Clear) && Schedule(c, as_) && c.socketHasDeadlines && After(c, as_).caller == Running
    ensures forall i :: 0 <= i < |more| ==>
              more[i].CallbackStarts? || more[i].CallbackSets? || (more[i].ContextEnds? && !After(c, as_).contextDone)
    ensures Schedule(After(c, as_), more)
    ensures After(After(c, as_), more).caller == Running && After(After(c, as_), more).deadline == Past
  {
    ScheduleKeepsInv(c, as_);
    CallIsBounded(c, as_);
    SocketStays(c, as_);
    var d := After(c, as_);
    if d.callback == Armed && !d.contextDone {
      more := [ContextEnds] + [CallbackStarts, CallbackSets];
      assert more[1..] == [CallbackStarts, CallbackSets];
      CallbackFires(Do(d, ContextEnds));
      OneMoreAction(d, more);
    } else if d.callback == Armed {
      more := [CallbackStarts, CallbackSets];
      CallbackFires(d);
    } else if d.callback == Firing {
      more := [CallbackSets];
      OneAction(d, CallbackSets);
    } else {
      more := [];
    }
  }

  lemma {:induction false} CallbackFires(d: Call)
    requires d.socketHasDeadlines && d.contextDone && d.callback == Armed
    ensures Schedule(d, [CallbackStarts, CallbackSets])
    ensures After(d, [CallbackStarts, CallbackSets]) == d.(callback := Closing, deadline := Past)
  {
    var more := [CallbackStarts, CallbackSets];
    assert more[1..] == [CallbackSets];
    OneAction(Do(d, CallbackStarts), CallbackSets);
    OneMoreAction(d, more);
  }

  lemma {:induction false} OneAction(c: Call, a: Action)
    requires Enabled(c, a)
    ensures Schedule(c, [a]) && After(c, [a]) == Do(c, a)
  {
    assert [a][1..] == [];
  }

  lemma {:induction false} OneMoreAction(c: Call, as_: seq<Action>)
    requires as_ != [] && Enabled(c, as_[0]) && Schedule(Do(c, as_[0]), as_[1..])
    ensures Schedule(c, as_) && After(c, as_) == After(Do(c, as_[0]), as_[1..])
  {}

  lemma {:induction false} SocketStays(c: Call, as_: seq<Action>)
    requires Schedule(c, as_)
    ensures After(c, as_).socketHasDeadlines == c.socketHasDeadlines
    decreases |as_|
  {
    if as_ != [] {
      SocketStays(Do(c, as_[0]), as_[1..]);
    }
  }

  /** How many steps a call can still take. */
  function Rank(c: Call): nat {
    (match c.caller
     case Entered => 7
     case Unbounded => 6
     case Registering => 6
     case Running => 5
     case Stopping => 4
     case Waiting => 3
     case Clearing => 2
     case Returned => 1)
    + (match c.callback
       case Unregistered => 4
       case Armed => 4
       case Firing => 3
       case Closing => 2
       case Finished => 1
       case Stopped => 1)
    + (if c.contextDone then 0 else 1)
  }

  /** Nothing goes round in circles. */
  lemma {:induction false} ScheduleIsBounded(c: Call, as_: seq<Action>)
    requires Inv(c) && Schedule(c, as_)
    ensures |as_| + Rank(After(c, as_)) <= Rank(c)
    decreases |as_|
  {
    if as_ != [] {
      StepKeepsInv(c, as_[0]);
      assert Rank(Do(c, as_[0])) < Rank(c);
      ScheduleIsBounded(Do(c, as_[0]), as_[1..]);
    }
  }

  /** An action of the protocol's own, once fn has returned. */
  predicate IsOwn(a: Action) {
    !a.ContextEnds? && !a.FnReturns?
  }

  /** The wait on the channel cannot deadlock: unless fn is running, a call that
      has not returned can take a step of its own. With ScheduleIsBounded, every
      call whose fn returns comes to its end. */
  lemma {:induction false} NoDeadlock(c: Call, as_: seq<Action>) returns (a: Action)
    requires Starts(c, Clear) && Schedule(c, as_)
    requires var d := After(c, as_); d.caller != Returned && d.caller != Running && d.caller != Unbounded
    ensures IsOwn(a) && Enabled(After(c, as_), a)
  {
    ScheduleKeepsInv(c, as_);
    var d := After(c, as_);
    match d.caller
    case Entered => a := Enter;
    case Registering => a := Register;
    case Stopping => a := Stop;
    case Clearing => a := ClearDeadline;
    case Waiting =>
      a := if d.callback == Firing then CallbackSets else if d.callback == Closing then CallbackCloses else Receive;
  }

  /** A call and the interleaving in which it ran. */
  datatype Completed = Completed(call: Call, actions: seq<Action>)

  /** Calls one after the other on one socket: each finds the deadline the one
      before left behind. */
  predicate Sequential(calls: seq<Completed>, d: Deadline)
    decreases |calls|
  {
    calls == [] ||
    (var c := calls[0];
     && Starts(c.call, d) && Schedule(c.call, c.actions) && After(c.call, c.actions).caller == Returned
     && Sequential(calls[1..], After(c.call, c.actions).deadline))
  }

  /** Every call of a sequence starts with a clear deadline. */
  lemma {:induction false} EveryCallStartsClear(calls: seq<Completed>, i: nat)
    requires Sequential(calls, Clear) && i < |calls|
    ensures calls[i].call.deadline == Clear
    decreases |calls|
  {
    if i > 0 {
      ScheduleKeepsInv(calls[0].call, calls[0].actions);
      EveryCallStartsClear(calls[1..], i - 1);
    }
  }
}
