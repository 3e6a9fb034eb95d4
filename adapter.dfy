/** The patched `fn` and `async` accessors of mocha's Runnable, the wrapper
    they install around every test body, and the error latch that wrapper
    reports from.

    A wrapper invocation calls the original body once. If the body throws, the
    exception leaves the wrapper at once. Otherwise the wrapper does exactly
    one of three things: flush casper's step queue and report
    `done(lastError)` when the run finishes, call `done()` at once, or leave
    `done` to the body.
    The wrapper's own actions are recorded in a trace so that "done is called
    at most once, and only on the right path" can be stated. */
module CasperAdapter {
  import opened JsValue
  import opened ErrorLatch

  /** A test body as mocha hands it to the `fn` setter: its declared parameter
      count (`fn.length`) and its source text (`fn.toString()`). What it does
      when called is not visible to the adapter; its effects appear as the
      parameters of `Adapter.Invoke`. */
  datatype Body = Body(arity: nat, source: string)

  /** How a wrapper call ends: the three ways of finishing once the body has
      returned, or the body's exception propagating out of the wrapper. */
  datatype Outcome = RunThenDone | DoneNow | LeaveToBody | BodyThrew

  /** What the wrapper does: call the body, start casper's run, call `done`
      with an error (`done()` passes `undefined`), or leave `done` alone. */
  datatype Action = CallFn | Run | Done(err: Value) | Defer

  /** `this.test && this.test.type === 'test'`, where `ctxTest` is the type of
      the context's current runnable, if there is one. */
  predicate IsTestRunnable(ctxTest: Option<string>)
  {
    ctxTest.Some? && ctxTest.value == "test"
  }

  /** The wrapper's choice, made after the body returned: steps are flushed only
      for test runnables with a non-empty queue; otherwise a body declared
      without parameters is finished at once, and any other body is trusted to
      call `done` itself. */
  function Dispatch(isTest: bool, queued: nat, arity: nat): (o: Outcome)
    ensures o == RunThenDone <==> isTest && queued > 0
    ensures o == DoneNow <==> !(isTest && queued > 0) && arity == 0
    ensures o == LeaveToBody <==> !(isTest && queued > 0) && arity > 0
  {
    if isTest && queued > 0 then RunThenDone
    else if arity == 0 then DoneNow
    else LeaveToBody
  }

  /** How a wrapper call ends, given whether the body throws. A throw leaves
      the wrapper before the choice is made. */
  function WrapperOutcome(throws: bool, isTest: bool, queued: nat, arity: nat): (o: Outcome)
    ensures o == BodyThrew <==> throws
    ensures !throws ==> o == Dispatch(isTest, queued, arity)
  {
    if throws then BodyThrew else Dispatch(isTest, queued, arity)
  }

  /** The action the wrapper takes before it returns. */
  function Immediate(o: Outcome): seq<Action>
  {
    match o
    case RunThenDone => [Run]
    case DoneNow => [Done(Undef)]
    case LeaveToBody => [Defer]
    case BodyThrew => []
  }

  /** The wrapper's actions over one whole test: the body emits `bodyEvents`,
      then throws if `throws` holds, or else returns leaving `queued` steps in
      casper's queue; if casper runs them, it emits `runEvents` before calling
      back. */
  function Lifecycle(body: Body, ctxTest: Option<string>, throws: bool, bodyEvents: seq<CasperEvent>,
                     queued: nat, runEvents: seq<CasperEvent>): seq<Action>
  {
    var o := WrapperOutcome(throws, IsTestRunnable(ctxTest), queued, body.arity);
    [CallFn] + Immediate(o)
    + (if o == RunThenDone then [Done(Captured(Captured(Undef, bodyEvents), runEvents))] else [])
  }

  function DoneCount(t: seq<Action>): nat
  {
    if t == [] then 0 else (if t[0].Done? then 1 else 0) + DoneCount(t[1..])
  }

  function CallCount(t: seq<Action>): nat
  {
    if t == [] then 0 else (if t[0].CallFn? then 1 else 0) + CallCount(t[1..])
  }

  lemma {:induction false} CountAppend(a: seq<Action>, b: seq<Action>)
    ensures DoneCount(a + b) == DoneCount(a) + DoneCount(b)
    ensures CallCount(a + b) == CallCount(a) + CallCount(b)
    decreases |a|
  {
    if a == [] {
      assert a + b == b;
    } else {
      assert (a + b)[1..] == a[1..] + b;
      CountAppend(a[1..], b);
    }
  }

  lemma CountSingle(x: Action)
    ensures DoneCount([x]) == if x.Done? then 1 else 0
    ensures CallCount([x]) == if x.CallFn? then 1 else 0
  {
    assert [x][1..] == [];
  }

  /** The wrapper calls the body exactly once, first, and calls `done` at most
      once: once when it runs the steps or the body takes no parameters, never
      when the body is left to call it or throws. */
  lemma WrapperCallsDoneAtMostOnce(body: Body, ctxTest: Option<string>, throws: bool,
                                   bodyEvents: seq<CasperEvent>, queued: nat, runEvents: seq<CasperEvent>)
    ensures var t := Lifecycle(body, ctxTest, throws, bodyEvents, queued, runEvents);
            var o := WrapperOutcome(throws, IsTestRunnable(ctxTest), queued, body.arity);
            && t[0] == CallFn
            && CallCount(t) == 1
            && DoneCount(t) == (if o == LeaveToBody || o == BodyThrew then 0 else 1)
  {
    var o := WrapperOutcome(throws, IsTestRunnable(ctxTest), queued, body.arity);
    var rest := if o == RunThenDone then [Done(Captured(Captured(Undef, bodyEvents), runEvents))] else [];
    CountSingle(CallFn);
    if o != BodyThrew {
      CountSingle(Immediate(o)[0]);
      assert Immediate(o) == [Immediate(o)[0]];
    } else {
      assert Immediate(o) == [];
    }
    CountAppend([CallFn], Immediate(o));
    CountAppend([CallFn] + Immediate(o), rest);
    if rest != [] {
      CountSingle(rest[0]);
    }
  }

  /** On the run path `done` comes only after the run, and it carries the
      first truthy error emitted since the wrapper reset the latch, whether
      during the body or during the run; the test fails exactly when some
      error event since the reset carried a truthy error. */
  lemma RunPathReportsFirstError(body: Body, ctxTest: Option<string>, bodyEvents: seq<CasperEvent>,
                                 queued: nat, runEvents: seq<CasperEvent>)
    requires IsTestRunnable(ctxTest) && queued > 0
    ensures var errors := Errors(bodyEvents + runEvents);
            var err := LatchAll(Undef, errors);
            && Lifecycle(body, ctxTest, false, bodyEvents, queued, runEvents) == [CallFn, Run, Done(err)]
            && (Truthy(err) <==> exists k :: 0 <= k < |errors| && Truthy(errors[k]))
  {
    var errors := Errors(bodyEvents + runEvents);
    ErrorsAppend(bodyEvents, runEvents);
    LatchAllAppend(Undef, Errors(bodyEvents), Errors(runEvents));
    TruthyIff(Undef, errors);
  }

  /** When the wrapper finishes at once it passes no error, even if an error
      event fired while the body ran; when it leaves `done` to the body it
      passes nothing at all. */
  lemma OtherPathsReportNoError(body: Body, ctxTest: Option<string>, bodyEvents: seq<CasperEvent>,
                                queued: nat, runEvents: seq<CasperEvent>)
    requires !(IsTestRunnable(ctxTest) && queued > 0)
    ensures body.arity == 0 ==> Lifecycle(body, ctxTest, false, bodyEvents, queued, runEvents) == [CallFn, Done(Undef)]
    ensures body.arity > 0 ==> Lifecycle(body, ctxTest, false, bodyEvents, queued, runEvents) == [CallFn, Defer]
  {
  }

  /** A body that throws ends the wrapper call after the call itself: no run is
      started and `done` is not called, whatever steps the body queued and
      whatever test type the context has; the steps stay in casper's queue. */
  lemma ThrowingBodyEndsCall(body: Body, ctxTest: Option<string>, bodyEvents: seq<CasperEvent>,
                             queued: nat, runEvents: seq<CasperEvent>)
    ensures Lifecycle(body, ctxTest, true, bodyEvents, queued, runEvents) == [CallFn]
  {
  }

  /** The function that the `fn` setter installs as `casperWraperFn`. */
  class WrapperFn {
    const original: Body

    constructor (f: Body)
      ensures original == f
    {
      original := f;
    }

    /** The overridden `toString`: the original body's source text. */
    function ToString(): string
    {
      original.source
    }
  }

  /** The part of a mocha Runnable the adapter redefines: the `fn` and `async`
      accessors over the `casperWraperFn` property (null while undefined). */
  class Runnable {
    var casperWraperFn: WrapperFn?

    constructor ()
      ensures casperWraperFn == null
    {
      casperWraperFn := null;
    }

    /** The `fn` getter. */
    function Fn(): WrapperFn?
      reads this
    {
      casperWraperFn
    }

    /** The `async` getter: `typeof this.casperWraperFn === 'function'`. */
    predicate Async()
      reads this
    {
      casperWraperFn != null
    }

    /** The `fn` setter: every assignment installs a fresh wrapper around `f`,
      which reads back through the getter, presents `f`'s source as its own
      and makes the runnable asynchronous. */
    method SetFn(f: Body)
      modifies this
      ensures Fn() != null && fresh(Fn()) && Fn().original == f
      ensures Fn().ToString() == f.source
      ensures Async()
    {
      casperWraperFn := new WrapperFn(f);
    }

    /** The `async` setter ignores the value written: nothing changes. */
    method SetAsync(value: bool)
      ensures Fn() == old(Fn()) && Async() == old(Async())
    {
    }
  }

  /** The adapter's shared state: `lastError`, whether a casper run started by
      a wrapper has yet to call back, and the wrapper's actions so far. */
  class Adapter {
    var lastError: Value
    var awaitingRun: bool
    ghost var trace: seq<Action>

    constructor ()
      ensures lastError == Undef && !awaitingRun && trace == []
    {
      lastError := Undef;
      awaitingRun := false;
      trace := [];
    }

    /** The shared listener, called for every event casper emits: only the
      subscribed error events reach it, and it keeps a truthy error. */
    method OnEvent(ev: CasperEvent)
      modifies this`lastError
      ensures lastError == if ev.name in ErrorEvents then Latch(old(lastError), ev.error) else old(lastError)
    {
      if ev.name in ErrorEvents {
        lastError := if Truthy(lastError) then lastError else ev.error;
      }
    }

    /** A call of the wrapper `w` with `this.test` of type `ctxTest`. The body
      is called first, after the latch is cleared, so no error from an earlier
      test survives; while it runs casper emits `bodyEvents`. It then throws
      if `throws` holds, and `BodyThrew` stands for the exception leaving the
      wrapper; otherwise it returns leaving `queued` steps in casper's queue.
      Tests run one at a time. */
    method Invoke(w: WrapperFn, ctxTest: Option<string>, throws: bool, bodyEvents: seq<CasperEvent>,
                  queued: nat)
      returns (o: Outcome)
      requires !awaitingRun
      modifies this
      ensures o == WrapperOutcome(throws, IsTestRunnable(ctxTest), queued, w.original.arity)
      ensures lastError == Captured(Undef, bodyEvents)
      ensures awaitingRun <==> o == RunThenDone
      ensures trace == old(trace) + [CallFn] + Immediate(o)
    {
      lastError := Undef;
      trace := trace + [CallFn];
      lastError := Captured(lastError, bodyEvents);
      if throws {
        o := BodyThrew;
      } else if IsTestRunnable(ctxTest) && queued > 0 {
        trace := trace + [Run];
        awaitingRun := true;
        o := RunThenDone;
      } else if w.original.arity == 0 {
        trace := trace + [Done(Undef)];
        o := DoneNow;
      } else {
        trace := trace + [Defer];
        o := LeaveToBody;
      }
    }

    /** The callback of `casper.run`: `done(lastError)`. */
    method RunComplete()
      requires awaitingRun
      modifies this
      ensures !awaitingRun && lastError == old(lastError)
      ensures trace == old(trace) + [Done(old(lastError))]
    {
      trace := trace + [Done(lastError)];
      awaitingRun := false;
    }
  }

  /** One test as mocha and casper drive it: mocha calls the runnable's `fn`,
      and if the wrapper started a run, casper emits `runEvents` and then calls
      back. The wrapper's actions are exactly `Lifecycle`. */
  method RunTest(a: Adapter, r: Runnable, ctxTest: Option<string>, throws: bool,
                 bodyEvents: seq<CasperEvent>, queued: nat, runEvents: seq<CasperEvent>) returns (o: Outcome)
    requires r.Fn() != null && !a.awaitingRun
    modifies a
    ensures !a.awaitingRun
    ensures a.trace == old(a.trace) + Lifecycle(r.Fn().original, ctxTest, throws, bodyEvents, queued, runEvents)
  {
    var w := r.Fn();
    o := a.Invoke(w, ctxTest, throws, bodyEvents, queued);
    if o == RunThenDone {
      var start := a.lastError;
      var k := 0;
      assert runEvents[..0] == [];
      while k < |runEvents|
        invariant 0 <= k <= |runEvents|
        invariant a.awaitingRun && a.trace == old(a.trace) + [CallFn, Run]
        invariant a.lastError == Captured(start, runEvents[..k])
      {
        CapturedSnoc(start, runEvents[..k], runEvents[k]);
        assert runEvents[..k + 1] == runEvents[..k] + [runEvents[k]];
        a.OnEvent(runEvents[k]);
        k := k + 1;
      }
      assert runEvents[..k] == runEvents;
      a.RunComplete();
    }
  }
}
