# Moxie test-double engine, modelled in Dafny

Moxie is the engine inside a hand-written or generated mock. It keeps two
pieces of mutable state:

- `stubbings` maps a function name to an argument key to a queue of canned
  return values.
- `invocations` is an append-only log of calls, each a name and a parameter
  list.

`stub` registers values. Registering an empty list does nothing; any other
list replaces the queue for that key. `value` reads the front of a queue and
pops it only while more than one value remains, so the last value repeats
forever. A stored optional without a payload comes back as absent. `record`,
`invocations`, `invoked` and `parameters` write and query the log.
`interactions` builds a text report for one function.

Files and modules:

- `values.dfy`, module `Values`: stored values and the renderings borrowed
  from the host language. A stored value is `Boxed<V>`: `Plain(tag, v)` or
  `Optional(tag, payload)`. This replaces Swift's `Any`, the conditional cast
  `as? [T]` and `Mirror` reflection. `V` is left abstract.
- `registry.dfy`, module `StubRegistry`: the registry as a value. It has
  `stub`, the front read, `removeSequentialStubbing`, `value`, and lemmas on
  repeated calls.
- `log.dfy`, module `InvocationLog`: the log as a sequence, with the filter,
  the count, `invoked` and the 1-based ordinal lookup.
- `report.dfy`, module `Report`: the summary line, the two sections and the
  whole description. It also has a parser for the summary line, which is
  proved to invert it.
- `engine.dfy`, module `Engine`: class `Moxie`. Its fields are `stubbings`
  and `invocations`. Its methods change them in place, under `modifies
  this`. Each method is proved against the functions above and keeps the
  invariant that no queue is ever empty.
- `scenarios.dfy`, module `Scenarios`: the repository's tests, restated
  against the class. They use a small concrete value type and concrete
  renderings.

`stub` replaces the queue for a key rather than appending to it: lines 18
and 20 of Sources/Moxie/Moxie.swift assign the queue, and the test
`testLastInWins` expects the second stub to win.

## Model

| member | source | states |
|---|---|---|
| Values.CastQueue | Sources/Moxie/Moxie.swift:33 | The cast `as? [T]` succeeds exactly when every element of the queue can be read as `T`, and it then yields the queue unchanged. Every value can be read as `Any`; for any other `T` the tag must match and an optional without a payload cannot be read |
| Values.Unwrap | Sources/Moxie/Moxie.swift:159-168 | `unwrap` is absent exactly for an optional without a payload; a non-optional value is its own content and an optional yields its payload |
| Values.UnwrappedReturnValue | Sources/Moxie/Moxie.swift:151-157 | The value comes back absent exactly when it is an optional without a payload; otherwise the stored value itself comes back |
| StubRegistry.StubCount | Sources/Moxie/Moxie.swift:100 | The stub count of a function is the number of its distinct argument keys: 0 for a function never stubbed and positive once it has a key; `StubCountAfterStub` gives the effect of `stub` on it |
| StubRegistry.Stub | Sources/Moxie/Moxie.swift:15-23 | An empty list leaves the registry unchanged. A non-empty list becomes exactly the queue at (function, key), replacing any earlier one. Every other (function, key) queue is unchanged |
| StubRegistry.Front | Sources/Moxie/Moxie.swift:33-34 | There is a front value exactly when a queue exists, is non-empty and casts to `T`; it is the queue's first element |
| StubRegistry.RemoveSequentialStubbing | Sources/Moxie/Moxie.swift:145-149 | The front is dropped exactly when the queue holds more than one value; otherwise nothing changes. No other queue changes |
| StubRegistry.ValueResult | Sources/Moxie/Moxie.swift:32-40 | Absent when no queue exists or the cast fails. Otherwise it is the front value, read as absent exactly when that value is an optional without a payload |
| StubRegistry.AfterValue | Sources/Moxie/Moxie.swift:34-38 | With no front value (missing queue, failed cast) the registry is unchanged. No queue other than (function, key) ever changes |
| StubRegistry.Successive | Sources/Moxie/Moxie.swift:32-40 | n successive `value` calls give exactly n results |
| StubRegistry.StubKeepsQueuesNonEmpty | Sources/Moxie/Moxie.swift:16-21 | `stub` never stores an empty queue |
| StubRegistry.RemoveKeepsQueuesNonEmpty | Sources/Moxie/Moxie.swift:145-149 | `removeSequentialStubbing` pops only when more than one value remains, so it never empties a queue |
| StubRegistry.ValueKeepsQueuesNonEmpty | Sources/Moxie/Moxie.swift:145-149 | `value` never empties a queue |
| StubRegistry.ValueOnQueue | Sources/Moxie/Moxie.swift:34-36 | On a queue that casts, one call returns the unwrapped front and pops it exactly when more than one value remains. The pop also happens when the front is an optional without a payload, which only a read as `Any` gets past the cast |
| StubRegistry.SuccessiveOnQueue | Sources/Moxie/Moxie.swift:13-14 | Call i over queue q returns element min(i, len(q)-1) |
| StubRegistry.ConsumedOnQueue | Sources/Moxie/Moxie.swift:145-148 | After n calls the queue is q from min(n, len(q)-1) on: it shrinks by one per call and never loses its last value |
| StubRegistry.SequentialStubbing | Sources/Moxie/Moxie.swift:13-14 | After `stub(f, k, [v1..vn])`, successive calls return v1, ..., vn, vn, vn, ... |
| StubRegistry.UnstubbedMiss | Sources/Moxie/Moxie.swift:37-38 | A key with no queue yields absent on every call |
| StubRegistry.LastInWins | Sources/Moxie/Moxie.swift:17-21 | A second non-empty `stub` on the same key gives the same registry as stubbing it only that second time |
| StubRegistry.StubCountAfterStub | Sources/Moxie/Moxie.swift:100 | The stub count of a function counts distinct keys: it grows by one only when a new key is stubbed with a non-empty list |
| InvocationLog.Matching | Sources/Moxie/Moxie.swift:49 | The filtered log holds only entries with that name, all taken from the log, and is no longer than the log |
| InvocationLog.Count | Sources/Moxie/Moxie.swift:48-50 | The count (also `getInvocationCount`, lines 141-143) is at most the log length; `RecordCount` gives the effect of `record` on it |
| InvocationLog.Invoked | Sources/Moxie/Moxie.swift:58-60 | True exactly when the count is positive; `InvokedIffRecorded` states that this is exactly when some log entry has the name |
| InvocationLog.Parameters | Sources/Moxie/Moxie.swift:68-73 | An ordinal outside 1..count gives `[]` |
| InvocationLog.MatchingAppend | Sources/Moxie/Moxie.swift:49 | Filtering distributes over concatenation of logs |
| InvocationLog.RecordMatching | Sources/Moxie/Moxie.swift:80-82 | After `record`, the entries with a name are the earlier ones plus the new entry exactly when it has that name |
| InvocationLog.RecordCount | Sources/Moxie/Moxie.swift:48-50 | `record` raises the count of its own function by one and leaves every other count |
| InvocationLog.RecordParameters | Sources/Moxie/Moxie.swift:68-73 | After `record`, the new parameters are the last ordinal of their function; every other ordinal of every function reads as before |
| InvocationLog.InvokedIffRecorded | Sources/Moxie/Moxie.swift:58-60 | `invoked(f)` holds exactly when some log entry is named f |
| InvocationLog.ParametersOfIthMatch | Sources/Moxie/Moxie.swift:68-73 | For 1 <= i <= count, the result is the parameters of the log entry named f that has exactly i-1 entries named f before it |
| Report.Decimal | Sources/Moxie/Moxie.swift:109 | The count renders as at least one decimal digit, with no leading zero |
| Report.DecimalRoundTrip | Sources/Moxie/Moxie.swift:109 | Parsing the rendered count gives the count back |
| Report.DecimalInjective | Sources/Moxie/Moxie.swift:109 | Distinct counts render differently |
| Report.CountPhraseRoundTrip | Sources/Moxie/Moxie.swift:109 | "<n> <noun>" followed by plural `s` exactly when n is not 1 reads back as (n, n != 1) |
| Report.Intro | Sources/Moxie/Moxie.swift:108-110 | The summary line begins with "This function has " and ends with "."; `IntroRoundTrip` states that it carries both counts with the right plurals |
| Report.IntroRoundTrip | Sources/Moxie/Moxie.swift:108-110 | The summary line gives back both counts, and each noun is plural exactly when its count is not 1 |
| Report.IntroInjective | Sources/Moxie/Moxie.swift:108-110 | Different counts give different summary lines |
| Report.EmptyIntro | Sources/Moxie/Moxie.swift:109 | The summary for zero and zero is exactly "This function has 0 stubbings and 0 invocations." |
| Report.Concat | Sources/Moxie/Moxie.swift:115 | The `reduce` that joins the lines (here and at line 127): no lines join to "" and a single line to itself |
| Report.ConcatAppend | Sources/Moxie/Moxie.swift:115 | Joining two runs of lines one after the other is joining each and putting the results side by side, so every line lands in the result in order |
| Report.ConcatPrefix | Sources/Moxie/Moxie.swift:127 | The joined lines start with the join of every prefix of them |
| Report.StubbingLine | Sources/Moxie/Moxie.swift:116 | A stubbing line shows the argument key and the rendered queue between the fixed pieces of the line |
| Report.StubbingLines | Sources/Moxie/Moxie.swift:115-117 | There is one line per distinct argument key: line i is the line of key order[i] and its queue, and every key of the function has a line |
| Report.StubbingSection | Sources/Moxie/Moxie.swift:112-120 | The section is empty exactly when the function has no stubbings; otherwise it is the "Stubbings:" heading followed by the joined `StubbingLines` |
| Report.RenderParameters | Sources/Moxie/Moxie.swift:128-134 | Every parameter gets one rendering; an absent parameter renders as `nil` and a present one as its display form |
| Report.RenderParameter | Sources/Moxie/Moxie.swift:128-134 | An absent parameter renders as `nil`, a present one as its display form |
| Report.InvocationLine | Sources/Moxie/Moxie.swift:135 | An invocation line shows the rendered parameter list between the fixed pieces of the line |
| Report.InvocationLines | Sources/Moxie/Moxie.swift:123-136 | There is one line per invocation of the function, in call order: line i shows the parameters of ordinal i+1 |
| Report.InvocationSection | Sources/Moxie/Moxie.swift:122-139 | The section is empty exactly when the function was never invoked; otherwise it is the "Invocations:" heading followed by the joined `InvocationLines` |
| Report.Description | Sources/Moxie/Moxie.swift:99-106 | The report is the summary line for (stub count, invocation count), then the "Stubbings:" section, then the "Invocations:" section; it is only the summary line exactly when both counts are 0 |
| Report.EmptyDescription | Tests/MoxieTests/MockTests.swift:64-66 | With nothing stubbed or recorded for a function, its report is exactly "This function has 0 stubbings and 0 invocations." |
| Engine.Moxie.constructor | Sources/Moxie/Moxie.swift:3-6 | A new engine has no stubbings and no invocations |
| Engine.Moxie.GetKey | Sources/Moxie/Moxie.swift:95-97 | The argument key is the host rendering of the parameter list; equal lists give equal keys, and lists that render alike share a key (see `Scenarios.KeyCollision`) |
| Engine.Moxie.Stub | Sources/Moxie/Moxie.swift:15-23 | The registry becomes `StubRegistry.Stub` of the old one at the key of the parameters; the log is unchanged; no queue is empty |
| Engine.Moxie.Value | Sources/Moxie/Moxie.swift:32-40 | Returns `ValueResult` of the old registry and leaves the registry as `AfterValue`; the log is unchanged; no queue is empty |
| Engine.Moxie.RemoveSequentialStubbing | Sources/Moxie/Moxie.swift:145-149 | The registry becomes `StubRegistry.RemoveSequentialStubbing` of the old one; the log is unchanged; no queue is empty |
| Engine.Moxie.Record | Sources/Moxie/Moxie.swift:80-82 | Exactly one entry is appended at the end of the log; the registry is unchanged |
| Engine.Moxie.InvocationCount | Sources/Moxie/Moxie.swift:48-50 | The count is zero exactly when no logged call has that name |
| Engine.Moxie.WasInvoked | Sources/Moxie/Moxie.swift:58-60 | True exactly when some logged call has that name |
| Engine.Moxie.ParametersFor | Sources/Moxie/Moxie.swift:68-73 | Out of range gives `[]`. In range, the result is the parameters of the i-th call of that name in recording order |
| Engine.Moxie.Interactions | Sources/Moxie/Moxie.swift:89-91 | The report is the summary line for the current counts, then the "Stubbings:" section, then the "Invocations:" section; it is just the summary line exactly when both counts are 0 |
| Scenarios.RecordWithNoParameters | Tests/MoxieTests/MockTests.swift:8-12 | One `record` gives a count of 1 |
| Scenarios.RecordWithParameters | Tests/MoxieTests/MockTests.swift:14-22 | Two records give count 2. Ordinal 1 has parameters [1, "5"] and ordinal 2 has none |
| Scenarios.InvokedOrNot | Tests/MoxieTests/MockTests.swift:24-38 | `invoked` is false before any record and true after one, with or without parameters |
| Scenarios.StubbingWithNoReturnValue | Tests/MoxieTests/MockTests.swift:40-44 | Stubbing with no values then reading gives absent |
| Scenarios.StubbingSomething | Tests/MoxieTests/MockTests.swift:46-62 | A stubbed value comes back when read as `Any` |
| Scenarios.Explain | Tests/MoxieTests/MockTests.swift:64-67 | The report of a fresh engine is exactly "This function has 0 stubbings and 0 invocations." |
| Scenarios.CanStubConditionally | Tests/MockingBirdTests/StubbingTests.swift:15-21 | Stubs for keys [1] and [2] come back separately |
| Scenarios.StubAndReadThree | Sources/Moxie/Moxie.swift:15-40 | Three stubs of one function under three different keys are read back independently, each as its own value |
| Scenarios.StructParams | Tests/MockingBirdTests/StubbingTests.swift:23-32 | Stubs keyed by three different `TestStruct` arguments give back 5, 2 and 9 |
| Scenarios.LastInWins | Tests/MockingBirdTests/StubbingTests.swift:34-39 | A second stub of key [2] replaces the first |
| Scenarios.SequentialValues | Sources/Moxie/Moxie.swift:13-14 | Stubbing [1, 2, 3] gives 1, 2, 3, 3 |
| Scenarios.AbsentAndMismatch | Sources/Moxie/Moxie.swift:33-38 | Over [nil Int optional, 5]: reading as the wrong type, or as `Int`, gives absent and consumes nothing. Reading as `Any` gives absent for the nil optional, consumes it, and then gives 5 |
| Scenarios.KeyCollision | Sources/Moxie/Moxie.swift:95-97 | Two different parameter lists that render alike share one stub |

## Left out

- Renderings: the model does not give the text of the argument key (`Array.description`, Moxie.swift:96) or of interpolating `Any`, `[String]` and `[Any]` in the report (lines 116, 130, 135). These are host-library behaviour, so they are fields of `Values.Renderer` and the engine receives them in its constructor. Swift's `init()` takes no arguments. The decimal rendering of the two counts is modelled exactly.
- Values.CastQueue: `as? [T]` is modelled as "`T` is `Any`, or every element's tag equals the requested tag and no element is an optional without a payload". Swift's implicit optional wrapping and unwrapping in casts, class and protocol subtyping, and bridging are not modelled.
- Values.Unwrap: `Mirror` reflection is replaced by the explicit `Optional` variant of `Boxed`. Only the top level is inspected, as in the source.
- The generic `T` of `value<T>` is a `TypeTag` argument. The returned optional of `T` is an `Option` of the stored value.
- Report.StubbingSection: the order of the "Stubbings:" lines follows Swift `Dictionary` iteration, which is unspecified. It is an input `order` that must list each key of the function exactly once. Nothing is proved about that order.
- Report.Description: the report is stated as the summary line followed by the two sections; the characters of each section are given by `StubbingSection` and `InvocationSection`, whose contracts state when each is present and that it is its heading followed by its joined lines; the lines' contracts state their number and which key or invocation each shows, but the host renderings inside a line are abstract.
- `getInvocationCount` (Moxie.swift:141-143) computes the same filter and count as `invocations(forFunction:)`, so both are `InvocationLog.Count`.
- `MockInvocation` is declared elsewhere in the repository. It is modelled from its use at Moxie.swift:81 as a name and a parameter list.
- Default argument values (`[]` parameters, ordinal 1) are not modelled; callers pass every argument.
- Counts are unbounded naturals. Swift's 64-bit `Int` cannot overflow here, because a count never exceeds the length of an in-memory array.
- The `Mock` protocol, `Subject`, `MockingBird`, `MockHub`, `TestStruct` and the XCTest harness are thin forwarding or test code. `Mock` and `MockingBird` are not part of this model. The MockingBird tests are restated directly against the engine.
- String equality: Swift compares `String`s by Unicode canonical equivalence, so function names and argument keys that differ only in normalisation (a precomposed and a decomposed "é") name one function and one key in the filters at Moxie.swift:49, 69 and 123 and in the dictionary at lines 3, 18, 20 and 33. The model's `string` compares code points, so it treats them as two.
- Concurrency: the engine is single-threaded by design, and the model is too.
