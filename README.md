# mocha-casperjs adapter, modelled in Dafny

mocha-casperjs lets mocha run tests whose bodies queue casperjs steps. The
adapter is one function that patches both frameworks once at start-up. This
project models the three parts of it that have exact behaviour:

- **`console.format`** (`Format`, format.dfy): a printf-style formatter ported
  from node's `util.format`. The model has three layers. `Tokenize` is the
  left-to-right scan of the regular expression `/%[sdj%]/g`. `Pieces` is what
  the replace callback returns for each token, moving the argument cursor
  along. `Formatted` appends the leftover arguments, or JSON-joins every
  argument when the first one is not a string. `ConsoleFormat` is the
  formatter as written: a JSON-join loop, the replace pass and the tail loop,
  proved equal to `Formatted`. `String(..)`, `Number(..)` and
  `JSON.stringify(..)` are uninterpreted. They are the fields of a
  `Conversions` value supplied by the caller. `JSON.stringify` may yield
  `undefined`.
- **The error latch** (`ErrorLatch`, latch.dfy): one listener, shared by seven
  casper error events, runs `lastError = lastError || error`. The first
  *truthy* error wins. A falsy first error does not block a later one.
- **The `fn` / `async` accessors and the wrapper** (`CasperAdapter`,
  adapter.dfy). Setting `fn` installs a fresh wrapper, and `fn` reads it back.
  `async` is true exactly when a wrapper is installed, and writes to it change
  nothing. The wrapper clears the latch and calls the body once. If the body
  throws, the exception leaves the wrapper: no run is started and `done` is
  not called. If the body returns, the wrapper does exactly one of three
  things: it runs casper's steps and calls
  `done(lastError)` in the run's callback, or it calls `done()` at once, or it
  leaves `done` to the body. The class `Adapter` keeps `lastError` and records
  a trace of the wrapper's actions (`CallFn`, `Run`, `Done(err)`, `Defer`).
  `Lifecycle` is the trace of one whole test, and `RunTest` drives the methods
  through one test and is proved to produce exactly that trace.

JavaScript values are the datatype `JsValue.Value` (values.dfy). It has
`undefined`, `null`, booleans, numbers, strings, objects and functions, and
comes with JavaScript truthiness.

Two details of the code that the model follows:
- A leftover argument is appended as JSON only when `typeof` gives
  `'object'` and it is not `null`. A function is appended by plain string
  conversion, although it is not a primitive.
- In the JSON-join fallback, an argument whose `JSON.stringify` is
  `undefined` (such as `undefined` itself) becomes an empty string, because
  that is what `Array.prototype.join` does with it.

## Model

| member | source | states |
|---|---|---|
| Format.UntokenizeTokenize | mocha-casperjs.js:86 | The scan of `/%[sdj%]/g` loses nothing: spelling its tokens out again gives back the format string. |
| Format.NoMissedDirective | mocha-casperjs.js:86 | The scan misses no directive: every `%` kept as a literal is the last character or is followed by a character other than `s`, `d`, `j` and `%`. With the round trip, this fixes which `%` are matched. |
| Format.UnknownDirectiveCopied | mocha-casperjs.js:86 | A `%` followed by anything but `s`, `d`, `j` or `%` is not matched. It is copied, and scanning resumes at the next character. |
| Format.EscapeAtHead | mocha-casperjs.js:87 | `%%` becomes a single `%` and does not move the argument cursor, even when the arguments are exhausted. |
| Format.Cursor | mocha-casperjs.js:83-92 | The cursor starts at 1, and each `%s`/`%d`/`%j` moves it by exactly one until it reaches the argument count. So min(placeholders, argc - 1) arguments are consumed. |
| Format.PieceAt | mocha-casperjs.js:87-92 | Piece k: a literal is itself and `%%` is `%`. A placeholder renders argument `1 + (placeholders before k)` with String for `%s`, Number for `%d` and JSON for `%j`. If that argument does not exist, the placeholder stays as written. |
| Format.JsonTexts | mocha-casperjs.js:77-80 | Element k of the fallback list is the JSON of argument k, with `undefined` rendered as join renders it. |
| Format.PlainTexts | mocha-casperjs.js:98-102 | A leftover argument is rendered with String if it is `null` or not an object, and with JSON if it is an object. |
| Format.NonStringFallback | mocha-casperjs.js:76-82 | If the first argument is not a string, there is no placeholder processing. The result is the JSON of every argument, in order, separated by single spaces. With no arguments it is empty. |
| Format.SingleArgumentIdentity | mocha-casperjs.js:83-104 | A format string on its own, with no `%%`, comes back unchanged. Its placeholders have nothing to consume and stay verbatim. |
| Format.LeftoverArguments | mocha-casperjs.js:97-104 | After the replace pass, the arguments after the first min(placeholders, argc - 1) are appended in order, each after exactly one space. |
| Format.FormatExampleTwoPlaceholders | mocha-casperjs.js:86-92 | `format("%s and %d", "a", 2)` is `"a and 2"`. |
| Format.FormatExampleJson | mocha-casperjs.js:92 | `format("%j", {a:1})` is the JSON text `{"a":1}`. |
| Format.FormatExampleEscape | mocha-casperjs.js:87 | `format("%%")` is `"%"`. |
| Format.FormatExampleLeftover | mocha-casperjs.js:87-101 | `format("%s%%", "a", {a:1})` is `a% {"a":1}`: an extra object argument is appended as JSON after one space. |
| Format.JsonJoin | mocha-casperjs.js:77-81 | The push loop builds the list of every argument's JSON, and the result is that list joined with spaces. |
| Format.Substitute | mocha-casperjs.js:83-96 | The replace pass, with its shared cursor, produces exactly the concatenated pieces and leaves the cursor at `Cursor`. |
| Format.AppendLeftover | mocha-casperjs.js:97-103 | The tail loop appends every argument from the cursor on, each after one space. |
| Format.ConsoleFormat | mocha-casperjs.js:74-105 | The formatter as written computes `Formatted`, so every property above holds of it. |
| ErrorLatch.LatchAllAppend | mocha-casperjs.js:15 | Feeding the listener errors in two batches leaves the same value as feeding them all at once. |
| ErrorLatch.CapturedSnoc | mocha-casperjs.js:5-17 | One more casper event is one more listener call if it is one of the seven subscribed events. Otherwise it changes nothing. |
| ErrorLatch.TruthyIsKept | mocha-casperjs.js:15 | Once `lastError` holds a truthy error, later errors leave it unchanged. |
| ErrorLatch.FirstTruthyWins | mocha-casperjs.js:15 | Starting from a falsy value, the first truthy error is the one kept. |
| ErrorLatch.FalsyDoesNotBlock | mocha-casperjs.js:15 | Falsy errors do not block. If every error is falsy, the last one is kept. |
| ErrorLatch.TruthyIff | mocha-casperjs.js:15 | The latch ends truthy exactly when it started truthy or some error fed to it was truthy. |
| CasperAdapter.Dispatch | mocha-casperjs.js:38-48 | Exactly one of three outcomes. Steps run iff the runnable is a `'test'` and the queue is non-empty after the body. Otherwise `done()` is called at once iff `fn.length == 0`. Otherwise `done` is left to the body. |
| CasperAdapter.WrapperOutcome | mocha-casperjs.js:35-48 | A throwing body ends the call before the choice is made. A body that returns gets the outcome `Dispatch` chooses. |
| CasperAdapter.WrapperCallsDoneAtMostOnce | mocha-casperjs.js:30-49 | The body is called first and exactly once. The wrapper calls `done` once on the run path and the immediate path. It never calls it when it leaves `done` to the body or when the body throws. |
| CasperAdapter.RunPathReportsFirstError | mocha-casperjs.js:31-42 | On the run path the trace is call, run, then `done(err)`, with `done` only in the run's callback. `err` is the latch over the errors emitted since the reset, during the body or the run. The test fails iff one of them was truthy. |
| CasperAdapter.OtherPathsReportNoError | mocha-casperjs.js:43-48 | Without a run, a parameterless body gets `done()` with no error, even if an error event fired while it ran. Any other body gets no `done` from the wrapper. |
| CasperAdapter.ThrowingBodyEndsCall | mocha-casperjs.js:35 | If the body throws, the only action is the call itself. No run is started and `done` is not called, whatever the queue and the test type. |
| CasperAdapter.Runnable.SetFn | mocha-casperjs.js:25-64 | Setting `fn` installs a fresh wrapper around `f`. `fn` reads that wrapper back, its `toString` is `f`'s, and `async` reads true. |
| CasperAdapter.Runnable.SetAsync | mocha-casperjs.js:65-67 | A write to `async` changes neither `fn` nor `async`. |
| CasperAdapter.Adapter.constructor | mocha-casperjs.js:2 | `lastError` starts `undefined`, and no run is pending. |
| CasperAdapter.Adapter.OnEvent | mocha-casperjs.js:5-17 | The shared listener: a subscribed event runs `lastError = lastError \|\| error`. Other events change nothing. |
| CasperAdapter.Adapter.Invoke | mocha-casperjs.js:30-48 | A wrapper call resets `lastError` before the body. Afterwards it holds only the errors emitted during the body, so nothing carries over from an earlier test. The call records `CallFn`. If the body throws, it records nothing more. Otherwise it records the action `Dispatch` chooses. A run is pending iff steps were run. |
| CasperAdapter.Adapter.RunComplete | mocha-casperjs.js:39-42 | The run's callback calls `done(lastError)` with the latch's current value. |
| CasperAdapter.RunTest | mocha-casperjs.js:30-49 | Over one whole test, with casper emitting events and calling back, the wrapper's actions are exactly `Lifecycle`. This holds whether the body throws or returns. |

## Left out

- The redirection of `console.error` and `console.log` through the formatter (mocha-casperjs.js:107-110): it only passes output on to host sinks.
- The `mocha.process.stdout` shim (mocha-casperjs.js:115-116): a lookup in the host environment.
- The mechanics of `Object.defineProperties`, `Object.defineProperty` and prototype patching: only the observable getter and setter behaviour is modelled, as methods and functions of `Runnable`.
- Subscription with `casper.on` and step execution in `casper.run`. Events are calls of `Adapter.OnEvent`. The run's completion is a later call of `Adapter.RunComplete`. The step queue is observed only through its length after the body, given as a parameter of `Adapter.Invoke`.
- What a test body does when called is not visible to the adapter. Its effects are parameters: the events it makes casper emit, whether it throws, and the queue length it leaves when it returns. A body that calls `done` itself is outside the wrapper's trace.
- The `this` binding that the wrapper forwards to the body is not modelled, beyond the type of `this.test`.
- The internals of `String(..)`, `Number(..)` and `JSON.stringify(..)`, including number and NaN rendering for `%d`. They are uninterpreted fields of `Format.Conversions`. Exceptions they might throw (for example on cyclic objects) are not modelled.
- Numbers are modelled as reals, so NaN, which is falsy, is not represented in `JsValue.Truthy`.
- Overlapping test executions that share `lastError`: `Adapter.Invoke` requires that no run is pending, because the adapter assumes tests run one at a time.
- Steps queued by a body that then throws stay in casper's queue. The next test's run executes them, and their errors count against that test. The model has no queue across tests: the next test's `queued` and `runEvents` parameters stand for them.
- The setter accepts a value that is not a function. mocha assigns `this.fn = undefined` to pending tests. A wrapper is still installed, so `async` reads true, and calling the wrapper or its `toString` would throw. `Body` describes functions only, so this case is not represented. mocha does not call the `fn` of a pending test.
- `done()` and `done(undefined)` are both recorded as `Done(Undef)`. mocha reads only the error argument.
