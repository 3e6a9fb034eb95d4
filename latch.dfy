/** The first-error-wins latch: the single `lastError` variable shared by the
    adapter's error-event listeners and its test wrappers. */
module ErrorLatch {
  import opened JsValue

  /** The casper events the adapter subscribes one shared listener to. */
  const ErrorEvents: seq<string> := [
    "error",
    "wait.error",
    "waitFor.timeout",
    "waitFor.timeout.error",
    "event.error",
    "complete.error",
    "step.error"
  ]

  /** An event emitted by casper with the value handed to its listeners. */
  datatype CasperEvent = CasperEvent(name: string, error: Value)

  /** One listener call: `lastError = lastError || error`. A falsy current value
      does not block, so a falsy first error is overwritten by the next one. */
  function Latch(current: Value, error: Value): Value
  {
    if Truthy(current) then current else error
  }

  /** The value of the latch after the listener has seen `errors` in order. */
  function LatchAll(current: Value, errors: seq<Value>): Value
    decreases |errors|
  {
    if errors == [] then current else LatchAll(Latch(current, errors[0]), errors[1..])
  }

  /** The errors that reach the listener: those of subscribed events, in order. */
  function Errors(events: seq<CasperEvent>): (r: seq<Value>)
    ensures |r| <= |events|
  {
    if events == [] then []
    else (if events[0].name in ErrorEvents then [events[0].error] else []) + Errors(events[1..])
  }

  /** The value of the latch after casper has emitted `events`. */
  function Captured(current: Value, events: seq<CasperEvent>): Value
  {
    LatchAll(current, Errors(events))
  }

  lemma {:induction false} ErrorsAppend(a: seq<CasperEvent>, b: seq<CasperEvent>)
    ensures Errors(a + b) == Errors(a) + Errors(b)
    decreases |a|
  {
    if a != [] {
      assert (a + b)[1..] == a[1..] + b;
      ErrorsAppend(a[1..], b);
    } else {
      assert a + b == b;
    }
  }

  /** Feeding errors in two batches is the same as feeding them all at once. */
  lemma {:induction false} LatchAllAppend(current: Value, a: seq<Value>, b: seq<Value>)
    ensures LatchAll(current, a + b) == LatchAll(LatchAll(current, a), b)
    decreases |a|
  {
    if a != [] {
      assert (a + b)[1..] == a[1..] + b;
      LatchAllAppend(Latch(current, a[0]), a[1..], b);
    } else {
      assert a + b == b;
    }
  }

  /** Casper emitting one more event is one more listener call, or nothing if
      the event is not one of the subscribed ones. */
  lemma CapturedSnoc(current: Value, events: seq<CasperEvent>, e: CasperEvent)
    ensures Captured(current, events + [e])
         == if e.name in ErrorEvents then Latch(Captured(current, events), e.error)
            else Captured(current, events)
  {
    ErrorsAppend(events, [e]);
    assert Errors([e]) == (if e.name in ErrorEvents then [e.error] else []) + Errors([]);
    LatchAllAppend(current, Errors(events), Errors([e]));
    var mid := LatchAll(current, Errors(events));
    if e.name in ErrorEvents {
      assert LatchAll(mid, [e.error]) == LatchAll(Latch(mid, e.error), []);
    }
  }

  /** Once the latch holds a truthy error, later errors leave it unchanged. */
  lemma {:induction false} TruthyIsKept(current: Value, errors: seq<Value>)
    requires Truthy(current)
    ensures LatchAll(current, errors) == current
    decreases |errors|
  {
    if errors != [] {
      TruthyIsKept(Latch(current, errors[0]), errors[1..]);
    }
  }

  /** Starting from a falsy value, the first truthy error is the one kept. */
  lemma {:induction false} FirstTruthyWins(current: Value, errors: seq<Value>, k: nat)
    requires !Truthy(current)
    requires k < |errors| && Truthy(errors[k])
    requires forall j :: 0 <= j < k ==> !Truthy(errors[j])
    ensures LatchAll(current, errors) == errors[k]
    decreases k
  {
    if k == 0 {
      TruthyIsKept(errors[0], errors[1..]);
    } else {
      FirstTruthyWins(errors[0], errors[1..], k - 1);
    }
  }

  /** When every error is falsy none of them blocks: the last one is kept. */
  lemma {:induction false} FalsyDoesNotBlock(current: Value, errors: seq<Value>)
    requires !Truthy(current) && errors != []
    requires forall j :: 0 <= j < |errors| ==> !Truthy(errors[j])
    ensures LatchAll(current, errors) == errors[|errors| - 1]
    decreases |errors|
  {
    if |errors| > 1 {
      FalsyDoesNotBlock(errors[0], errors[1..]);
    }
  }

  /** The latch ends truthy exactly when it started truthy or some error was. */
  lemma {:induction false} TruthyIff(current: Value, errors: seq<Value>)
    ensures Truthy(LatchAll(current, errors))
        <==> Truthy(current) || exists k :: 0 <= k < |errors| && Truthy(errors[k])
    decreases |errors|
  {
    if errors != [] {
      TruthyIff(Latch(current, errors[0]), errors[1..]);
      if exists k :: 0 <= k < |errors| && Truthy(errors[k]) {
        var k :| 0 <= k < |errors| && Truthy(errors[k]);
        if k > 0 {
          assert errors[1..][k - 1] == errors[k];
        }
      }
    }
  }
}
