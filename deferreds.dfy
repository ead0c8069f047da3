/** The deferred helpers of the process supervisor (purity/process.py):
    a deferred that resolves at most once, a cancellable one-shot delayed call
    that resolves such a deferred, and the fan-in of several results into one.

    Each stateful helper is a class whose abstract state is a datatype value;
    its methods are specified by a pure step function on that value, and the
    promises of the source are lemmas about the step function over any sequence
    of events. */
module Deferreds {
  import opened Outcomes

  datatype ErrorKind = AsynchronousError | ManagedProcessError | TypeError | IndexError

  /** An exception: its class, and the text that `getErrorMessage()` returns for it. */
  datatype Error = Error(kind: ErrorKind, message: string)

  /** What a deferred is resolved with: a plain value, or a Failure wrapping an exception. */
  datatype Value = Bool(b: bool) | Text(s: string) | Failure(error: Error)

  /** Python's `str()` of a plain value. */
  function Render(v: Value): string
    requires !v.Failure?
  {
    match v
    case Bool(b) => if b then "True" else "False"
    case Text(s) => s
  }

  /** A Twisted Deferred, reduced to what it has been resolved with (None while pending). */
  class Deferred {
    var result: Option<Value>

    constructor ()
      ensures result == None
    {
      result := None;
    }

    /** `defer.succeed(v)` and `defer.fail(f)`: a Deferred that has already fired. */
    constructor Fired(v: Value)
      ensures result == Some(v)
    {
      result := Some(v);
    }
  }

  // ---------------------------------------------------------------- DeferredWrapper

  /** The abstract state of a DeferredWrapper: its three flags and what its deferred holds. */
  datatype Cell = Cell(created: bool, isCalled: bool, isSuccess: Option<bool>, result: Option<Value>)

  const Unset := Cell(false, false, None, None)

  /** The consistency of the flags: `is_success` is set exactly when `is_called` is, and the
      deferred holds a result exactly when it has been called. */
  predicate WellFormed(c: Cell) {
    (c.isCalled ==> c.created) && (c.isSuccess.Some? <==> c.isCalled) && (c.result.Some? <==> c.isCalled)
  }

  datatype CellEvent = MakeDeferred | Callback(v: Value) | Errback(e: Error)

  const AlreadySetUp := Error(AsynchronousError, "This Deferred has already been set up.")
  const NotSetUp := Error(AsynchronousError, "This Deferred has not been set up yet.")

  /** One call of `make_deferred`, `callback` or `errback`: the new state and whether it raised. */
  function CellStep(c: Cell, ev: CellEvent): (r: (Cell, Outcome<Error>))
    ensures WellFormed(c) ==> WellFormed(r.0)
    ensures WellFormed(c) && c.isCalled ==> r.0 == c
    ensures r.1.Fail? <==> (ev.MakeDeferred? == c.created)
    ensures r.1.Fail? ==> r.0 == c && r.1.error.kind == AsynchronousError
    ensures r.1.Pass? && ev.MakeDeferred? ==> r.0.created && r.0.result == None
  {
    match ev
    case MakeDeferred =>
      if c.created then (c, Fail(AlreadySetUp)) else (c.(created := true, result := None), Pass)
    case Callback(v) =>
      if !c.created then (c, Fail(NotSetUp))
      else if !c.isCalled then (Cell(true, true, Some(true), Some(v)), Pass)
      else (c, Pass)
    case Errback(e) =>
      if !c.created then (c, Fail(NotSetUp))
      else if !c.isCalled then (Cell(true, true, Some(false), Some(Failure(e))), Pass)
      else (c, Pass)
  }

  /** The state after a sequence of calls, in order. */
  function RunCell(c: Cell, evs: seq<CellEvent>): Cell
    decreases |evs|
  {
    if evs == [] then c else RunCell(CellStep(c, evs[0]).0, evs[1..])
  }

  /** Once called, a wrapper never changes again, whatever is called on it afterwards. */
  lemma {:induction false} ResolvedCellIsFinal(c: Cell, evs: seq<CellEvent>)
    requires WellFormed(c) && c.isCalled
    ensures RunCell(c, evs) == c
    decreases |evs|
  {
    if evs != [] {
      ResolvedCellIsFinal(CellStep(c, evs[0]).0, evs[1..]);
    }
  }

  /** After setup, the first callback or errback decides `is_success` and the result for good. */
  lemma FirstResolutionWins(c: Cell, ev: CellEvent, evs: seq<CellEvent>)
    requires WellFormed(c) && c.created && !c.isCalled && !ev.MakeDeferred?
    ensures RunCell(c, [ev] + evs).isCalled
    ensures RunCell(c, [ev] + evs).isSuccess == Some(ev.Callback?)
    ensures RunCell(c, [ev] + evs).result == Some(if ev.Callback? then ev.v else Failure(ev.e))
  {
    assert ([ev] + evs)[1..] == evs;
    ResolvedCellIsFinal(CellStep(c, ev).0, evs);
  }

  /** `make_deferred` succeeds on a fresh wrapper and raises on every later call. */
  lemma {:induction false} SetupOnlyOnce(evs: seq<CellEvent>)
    ensures RunCell(Unset, [MakeDeferred]).created
    ensures forall k | 0 <= k < |evs| :: RunCell(RunCell(Unset, [MakeDeferred]), evs[..k]).created
    ensures CellStep(RunCell(RunCell(Unset, [MakeDeferred]), evs), MakeDeferred).1.Fail?
  {
    var c := RunCell(Unset, [MakeDeferred]);
    assert c.created;
    forall k | 0 <= k <= |evs|
      ensures RunCell(c, evs[..k]).created
    {
      StaysCreated(c, evs[..k]);
    }
    assert evs[..|evs|] == evs;
  }

  lemma {:induction false} StaysCreated(c: Cell, evs: seq<CellEvent>)
    requires c.created
    ensures RunCell(c, evs).created
    decreases |evs|
  {
    if evs != [] {
      StaysCreated(CellStep(c, evs[0]).0, evs[1..]);
    }
  }

  /** Wraps a Deferred so that it can be told whether it has been called. */
  class DeferredWrapper {
    var deferred: Deferred?
    var isCalled: bool
    var isSuccess: Option<bool>
    var created: bool

    ghost predicate Valid()
      reads this, deferred
    {
      (created <==> deferred != null) && WellFormed(State())
    }

    ghost function State(): Cell
      reads this, deferred
    {
      Cell(created, isCalled, isSuccess, if deferred == null then None else deferred.result)
    }

    constructor ()
      ensures Valid() && State() == Unset
    {
      deferred := null;
      isCalled := false;
      isSuccess := None;
      created := false;
    }

    method MakeDeferred() returns (r: Result<Deferred, Error>)
      requires Valid()
      modifies this
      ensures Valid()
      ensures (State(), if r.Ok? then Pass else Fail(r.error)) == CellStep(old(State()), CellEvent.MakeDeferred)
      ensures r.Ok? ==> fresh(r.value) && deferred == r.value
      ensures r.Err? ==> deferred == old(deferred)
    {
      if created {
        r := Err(AlreadySetUp);
      } else {
        var d := new Deferred();
        deferred := d;
        created := true;
        r := Ok(d);
      }
    }

    method Callback(result: Value) returns (r: Outcome<Error>)
      requires Valid()
      modifies this, deferred
      ensures Valid() && deferred == old(deferred)
      ensures (State(), r) == CellStep(old(State()), CellEvent.Callback(result))
    {
      if !created {
        r := Fail(NotSetUp);
      } else {
        if !isCalled {
          isSuccess := Some(true);
          isCalled := true;
          deferred.result := Some(result);
        }
        r := Pass;
      }
    }

    method Errback(error: Error) returns (r: Outcome<Error>)
      requires Valid()
      modifies this, deferred
      ensures Valid() && deferred == old(deferred)
      ensures (State(), r) == CellStep(old(State()), CellEvent.Errback(error))
    {
      if !created {
        r := Fail(NotSetUp);
      } else {
        if !isCalled {
          isSuccess := Some(false);
          isCalled := true;
          deferred.result := Some(Failure(error));
        }
        r := Pass;
      }
    }
  }

  // ---------------------------------------------------------------- DelayedWrapper

  /** The abstract state of a DelayedWrapper: its three flags and the state of its deferred. */
  datatype Timer = Timer(isScheduled: bool, isCalled: bool, isCancelled: bool, cell: Cell)

  const Unscheduled := Timer(false, false, false, Unset)
  const JustScheduled := Timer(true, false, false, Cell(true, false, None, None))

  /** A delayed call the reactor may still run: scheduled, neither run nor cancelled. */
  predicate Pending(t: Timer) {
    t.isScheduled && !t.isCalled && !t.isCancelled
  }

  /** The wrapper exists exactly when the call is scheduled, and its deferred has been
      resolved exactly when the call has run or has been cancelled (never both). */
  predicate TimerWellFormed(t: Timer) {
    WellFormed(t.cell) && t.isScheduled == t.cell.created && !(t.isCalled && t.isCancelled) &&
    (t.cell.isCalled <==> t.isCalled || t.isCancelled)
  }

  /** How `_call_it` and `cancel` pass a value on: errback for a Failure, callback otherwise. */
  function Resolve(c: Cell, v: Value): Cell {
    if v.Failure? then CellStep(c, Errback(v.error)).0 else CellStep(c, Callback(v)).0
  }

  /** `Fire(v)`: the reactor runs the call, whose function returns v. `Cancel(v)`: `cancel(v)`. */
  datatype TimerEvent = Fire(returned: Value) | Cancel(given: Value)

  function EventValue(ev: TimerEvent): Value {
    match ev
    case Fire(v) => v
    case Cancel(v) => v
  }

  /** One event: the new state, and whether the scheduled function was invoked. */
  function TimerStep(t: Timer, ev: TimerEvent): (r: (Timer, bool))
    ensures TimerWellFormed(t) ==> TimerWellFormed(r.0)
    ensures r.1 <==> Pending(t) && ev.Fire?
    ensures !Pending(t) ==> r.0 == t
    ensures Pending(t) && TimerWellFormed(t) ==>
      !Pending(r.0) && r.0.isCalled == ev.Fire? && r.0.isCancelled == ev.Cancel? &&
      r.0.cell.result == Some(EventValue(ev)) && r.0.cell.isSuccess == Some(!EventValue(ev).Failure?)
  {
    if !Pending(t) then (t, false)
    else match ev
      case Fire(v) => (t.(isCalled := true, cell := Resolve(t.cell, v)), true)
      case Cancel(v) => (t.(isCancelled := true, cell := Resolve(t.cell, v)), false)
  }

  /** The state after a sequence of events, and how many times the function was invoked. */
  function RunTimer(t: Timer, evs: seq<TimerEvent>): (Timer, nat)
    decreases |evs|
  {
    if evs == [] then (t, 0)
    else
      var (t1, invoked) := TimerStep(t, evs[0]);
      var (t2, n) := RunTimer(t1, evs[1..]);
      (t2, n + if invoked then 1 else 0)
  }

  /** A call that has run or been cancelled is inert: no later event changes it. */
  lemma {:induction false} InertTimer(t: Timer, evs: seq<TimerEvent>)
    requires !Pending(t)
    ensures RunTimer(t, evs) == (t, 0)
    decreases |evs|
  {
    if evs != [] {
      InertTimer(t, evs[1..]);
    }
  }

  /** After a cancel, the scheduled function is never invoked and the deferred keeps the
      value given to cancel; a second cancel, or a cancel after the call ran, does nothing. */
  lemma CancelledTimerNeverFires(t: Timer, v: Value, evs: seq<TimerEvent>)
    requires TimerWellFormed(t) && Pending(t)
    ensures var c := TimerStep(t, Cancel(v)).0;
      c.isCancelled && c.cell.result == Some(v) && RunTimer(c, evs) == (c, 0)
  {
    InertTimer(TimerStep(t, Cancel(v)).0, evs);
  }

  /** The scheduled function runs at most once, whatever the reactor and the callers do. */
  lemma {:induction false} InvokedAtMostOnce(t: Timer, evs: seq<TimerEvent>)
    requires TimerWellFormed(t)
    ensures RunTimer(t, evs).1 <= 1
    ensures !Pending(t) ==> RunTimer(t, evs).1 == 0
    decreases |evs|
  {
    if !Pending(t) {
      InertTimer(t, evs);
    } else if evs != [] {
      // The first event resolves the call, which is then inert.
      InertTimer(TimerStep(t, evs[0]).0, evs[1..]);
    }
  }

  /** The deferred of a scheduled call is resolved by the first event only; the value is the
      function's return value when it fires and the given value when it is cancelled. */
  lemma FirstTimerEventDecides(ev: TimerEvent, evs: seq<TimerEvent>)
    ensures var t := RunTimer(JustScheduled, [ev] + evs).0;
      t.cell.result == Some(EventValue(ev)) && t.cell.isSuccess == Some(!EventValue(ev).Failure?) &&
      t.isCalled == ev.Fire? && t.isCancelled == ev.Cancel?
  {
    assert ([ev] + evs)[0] == ev && ([ev] + evs)[1..] == evs;
    InertTimer(TimerStep(JustScheduled, ev).0, evs);
  }

  /** Wraps `reactor.callLater` and its DelayedCall, and resolves a deferred when it runs. */
  class DelayedWrapper {
    var deferredWrapper: DeferredWrapper?
    var isCalled: bool
    var isCancelled: bool
    var isScheduled: bool
    ghost var Repr: set<object>

    ghost predicate Valid()
      reads this, Repr
    {
      this in Repr &&
      (deferredWrapper != null ==>
        deferredWrapper in Repr &&
        (deferredWrapper.deferred != null ==> deferredWrapper.deferred in Repr) &&
        deferredWrapper.Valid()) &&
      TimerWellFormed(Timer(isScheduled, isCalled, isCancelled,
                            if deferredWrapper == null then Unset else deferredWrapper.State()))
    }

    ghost function State(): Timer
      requires Valid()
      reads this, Repr
    {
      Timer(isScheduled, isCalled, isCancelled, if deferredWrapper == null then Unset else deferredWrapper.State())
    }

    /** The deferred that `call_later` returned (null before the call is scheduled). */
    function Deferred(): Deferred?
      reads this, deferredWrapper
    {
      if deferredWrapper == null then null else deferredWrapper.deferred
    }

    /** Whether the reactor may still run the call. */
    function IsPending(): (b: bool)
      requires Valid()
      reads this, Repr
      ensures b == Pending(State())
    {
      isScheduled && !isCalled && !isCancelled
    }

    constructor ()
      ensures Valid() && fresh(Repr) && State() == Unscheduled
    {
      deferredWrapper := null;
      isCalled := false;
      isCancelled := false;
      isScheduled := false;
      Repr := {this};
    }

    /** `call_later`: schedules the call and returns its deferred. The class documentation
        asks for exactly one `call_later` per instance. */
    method CallLater() returns (d: Deferred)
      requires Valid() && !isScheduled
      modifies Repr
      ensures Valid() && fresh(Repr - old(Repr))
      ensures State() == JustScheduled
      ensures fresh(d) && Deferred() == d && d in Repr
    {
      var w := new DeferredWrapper();
      var r := w.MakeDeferred();
      d := r.value;
      deferredWrapper := w;
      isScheduled := true;
      Repr := Repr + {w, d};
    }

    /** The reactor runs `_call_it`; the scheduled function returned `returned`. The reactor
        never runs a call that was cancelled or has already run: that case changes nothing. */
    method CallIt(returned: Value)
      requires Valid()
      modifies Repr
      ensures Valid() && Repr == old(Repr)
      ensures State() == TimerStep(old(State()), Fire(returned)).0
      ensures deferredWrapper == old(deferredWrapper) && Deferred() == old(Deferred())
    {
      if isScheduled && !isCalled && !isCancelled {
        if returned.Failure? {
          var _ := deferredWrapper.Errback(returned.error);
        } else {
          var _ := deferredWrapper.Callback(returned);
        }
        isCalled := true;
      }
    }

    /** `cancel(given)`: cancels a pending call and resolves its deferred with `given`. */
    method Cancel(given: Value)
      requires Valid()
      modifies Repr
      ensures Valid() && Repr == old(Repr)
      ensures State() == TimerStep(old(State()), TimerEvent.Cancel(given)).0
      ensures deferredWrapper == old(deferredWrapper) && Deferred() == old(Deferred())
    {
      if isScheduled && !isCancelled && !isCalled {
        isCancelled := true;
        if given.Failure? {
          var _ := deferredWrapper.Errback(given.error);
        } else {
          var _ := deferredWrapper.Callback(given);
        }
      }
    }
  }

  // ---------------------------------------------------------------- deferred_list_wrapper

  predicate AllSucceeded(results: seq<Value>) {
    forall i | 0 <= i < |results| :: !results[i].Failure?
  }

  /** The in-order concatenation of `str(value)` over the successful results. */
  function SuccessText(results: seq<Value>): string
    decreases |results|
  {
    if results == [] then ""
    else
      var last := results[|results| - 1];
      SuccessText(results[..|results| - 1]) + (if last.Failure? then "" else Render(last))
  }

  /** The in-order concatenation of the error messages of the failed results. */
  function ErrorText(results: seq<Value>): string
    decreases |results|
  {
    if results == [] then ""
    else
      var last := results[|results| - 1];
      ErrorText(results[..|results| - 1]) + (if last.Failure? then last.error.message else "")
  }

  /** The fan-in callback of `deferred_list_wrapper`: given the results of all the listed
      deferreds in order, what the combined deferred is resolved with. */
  method DeferredListWrapper(results: seq<Value>) returns (outcome: Value)
    ensures AllSucceeded(results) ==> outcome == Text(SuccessText(results))
    ensures !AllSucceeded(results) ==> outcome == Failure(Error(AsynchronousError, ErrorText(results)))
  {
    var overallSuccess := true;
    var overallMsg := "";
    var overallErrMsg := "";
    var i := 0;
    while i < |results|
      invariant 0 <= i <= |results|
      invariant overallSuccess == AllSucceeded(results[..i])
      invariant overallMsg == SuccessText(results[..i])
      invariant overallErrMsg == ErrorText(results[..i])
    {
      var value := results[i];
      if !value.Failure? {
        overallMsg := overallMsg + Render(value);
      } else {
        overallSuccess := false;
        overallErrMsg := overallErrMsg + value.error.message;
      }
      assert results[..i + 1][..i] == results[..i];
      i := i + 1;
    }
    assert results[..|results|] == results;
    if overallSuccess {
      outcome := Text(overallMsg);
    } else {
      outcome := Failure(Error(AsynchronousError, overallErrMsg));
    }
  }

  /** The success text of a concatenation of result lists is the concatenation of theirs. */
  lemma {:induction false} SuccessTextAppend(a: seq<Value>, b: seq<Value>)
    ensures SuccessText(a + b) == SuccessText(a) + SuccessText(b)
    decreases |b|
  {
    if b == [] {
      assert a + b == a;
    } else {
      var b' := b[..|b| - 1];
      assert (a + b)[..|a + b| - 1] == a + b';
      SuccessTextAppend(a, b');
    }
  }

  /** The error text of a concatenation of result lists is the concatenation of theirs. */
  lemma {:induction false} ErrorTextAppend(a: seq<Value>, b: seq<Value>)
    ensures ErrorText(a + b) == ErrorText(a) + ErrorText(b)
    decreases |b|
  {
    if b == [] {
      assert a + b == a;
    } else {
      var b' := b[..|b| - 1];
      assert (a + b)[..|a + b| - 1] == a + b';
      ErrorTextAppend(a, b');
    }
  }

  /** Failures contribute nothing to the success text, and successes nothing to the error text. */
  lemma {:induction false} TextsIgnoreTheOtherKind(results: seq<Value>)
    ensures AllSucceeded(results) ==> ErrorText(results) == ""
    ensures (forall i | 0 <= i < |results| :: results[i].Failure?) ==> SuccessText(results) == ""
    decreases |results|
  {
    if results != [] {
      var init := results[..|results| - 1];
      assert forall i | 0 <= i < |init| :: init[i] == results[i];
      TextsIgnoreTheOtherKind(init);
    }
  }
}
