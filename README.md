# opportunity — conditions, reactions and AND-gates, in Dafny

This project models the core of the JavaScript library *opportunity* and proves properties of it.

A **condition** is a boolean cell, initially false, with two ordered listener lists:
- `activate` / `deactivate` set the state and call the listeners of that direction, but only on an actual edge;
- each round runs over a copy of the list, so detaching or cleaning up during a round does not shorten it;
- an exception thrown by a listener is swallowed.

A **reaction** (`createReaction`) is a condition that polls a callback on a timer. The callback's result, or the value its promise settles with, is checked by `validate`. The reaction overrides `cleanup` so that it also stops the timer. The derived constructors are:
- `whileTruthy` / `whileFalsy`, which fix `validate`;
- `whenTruthy` / `whenFalsy`, which also clean up on their first activation;
- `whenFinished`, which waits for one promise.

An **Action** (`createAction`) is an AND-gate over conditions. The first time an input activates while every other input is activated, it resolves, becomes validated and cleans up all of its inputs. An **Emitter** (`createEmitter`) is a gate that calls its `onActive` subscribers each time an input activates while every input is activated.

Files:
- `condition_spec.dfy` (module `ConditionSpec`): the reference semantics. `Snapshot` is everything one condition object holds: state, both lists, `running`, the timer, and a pending promise. `Step` is what one event does to it. The lemmas are the library's promises: edge-only firing, snapshot dispatch, a detach that is idempotent iff the callback was registered at most once, polling that continues until a clean-up stops it, no re-arm after it, and the three poll outcomes.
- `condition.dfy` (module `Conditions`): class `Condition`, one object per JS condition, with the JS operations as methods. Each event method ensures `Model() == Step(old(Model()), kind, event, effect)`. The helpers below them state their own step: `Invoke` ensures `ApplyEffect`, `Dispatch` ensures `Dispatched` and `ResetTimer` ensures `Rearmed`. Each dispatching method also returns the listeners it called, which must equal `Round(...)`. The module also holds the constructor functions of source/condition.js.
- `action.dfy` (module `Actions`): classes `Action` and `Emitter` over a sequence of `Condition`s, and their factories.
- `scenarios.dfy` (module `Scenarios`): the behaviours in the repository's test suites, written as programs over the model and proved.

Modelling decisions:
- Timers and promises are events:
  - `Tick(outcome)` is the timer firing, with what the polled callback did. It threw, returned a value, or returned a promise.
  - `Settle(st)` is that promise settling.
  - `Finish(r)` is the settling of whenFinished's promise.
  - `Enabled` says when the environment can deliver each event: a tick only while the timer is armed, a settlement only while a promise is pending.
- A listener is an identity (`Callback(n)`, `SelfCleanup`, or a gate's `Gate(owner)`). What it does to its own condition is data: an `Effect` supplied by the caller. It can return, throw, register or detach a callback, or call `cleanup`. `SelfCleanup` always cleans up.
- `createReaction` rebinds `cleanup` on the object. The model keeps this in `Condition.kind`: `cleanup` on a `Reaction` also clears the timer and stops `running`.
- JavaScript truthiness (`!!val`) is stated for the value kinds of `JsValue`.
- A gate's check cleans up the input whose round runs it, during that round. The gate's work on the other inputs happens right after that round; no listener of the round can observe the difference. The same holds for its subscribers.

Where the documentation and the code differ, the model follows the code:
- A promise returned by a poll that settles after `cleanup` still activates or deactivates the condition. Only the re-arm is guarded by `running` (source/condition.js:128-140, 150-155). `ConditionSpec.SettleStep` states exactly that.
- Emitter `cleanup` is documented as also clearing the subscriber list. The code cleans up the inputs only and keeps the subscribers (source/action.js:79-83). `Actions.Emitter.Cleanup` keeps them.
- Emitter has no `onInactive` in source/action.js, although test/specs/action.spec.js:59 calls it. Nothing is modelled for it.
- A detach closure is documented as removing that one registration, and calling it again as harmless. The code removes the first registration of the same callback (source/condition.js:70-75, 85-90). A callback registered twice loses its other registration when the closure is called a second time. `ConditionSpec.DetachTwice` states when the second call is a no-op: exactly when the callback was registered at most once.
- An Action is documented as resolving when all of its conditions are activated. Its check runs only when an input activates after the Action was created (source/action.js:24-35). So an input that is already activated at creation counts only from its next activation: `createAction([c])` over an activated `c` does not resolve until `c` deactivates and activates again. `Scenarios.ActionIgnoresEarlierActivation` states this.

## Model

| member | source | states |
|---|---|---|
| ConditionSpec.ReactionKind | source/condition.js:112-115 | delay defaults to 200 and validate to `!!val`; a given option is used as is |
| ConditionSpec.Truthy | source/condition.js:114 | `!!val`: the falsy values are exactly undefined, null, NaN, false, 0 and the empty string |
| ConditionSpec.WhileOptionsFixValidate | source/condition.js:236-254 | whileTruthy validates with truthiness and whileFalsy with its negation, whatever validate was passed; the delay is kept |
| ConditionSpec.RemoveFirst | source/condition.js:71-74 | the detach edit `splice(indexOf(cb), 1)`: the list loses one element exactly when the callback is in it |
| ConditionSpec.RemoveFirstAt | source/condition.js:70-75 | detaching a callback found first at index i removes exactly that element (`splice(indexOf(cb), 1)`) |
| ConditionSpec.RemoveFirstAbsent | source/condition.js:70-75 | detaching a callback that is not in the list leaves it unchanged |
| ConditionSpec.RemoveFirstMultiset | source/condition.js:70-75 | detaching removes exactly one occurrence of the callback and nothing else |
| ConditionSpec.DetachTwice | source/condition.js:70-75 | calling a detach closure a second time changes nothing iff the callback was registered at most once |
| ConditionSpec.DispatchedKeepsState | source/condition.js:24-28 | no modelled listener effect (return, throw, attach, detach, cleanup) in a round changes the state, the pending promise or the timer delay |
| ConditionSpec.DispatchedStops | source/condition.js:157-162 | after a round, a reaction is still running, with its timer armed, iff it was before and no listener of the round called `cleanup` |
| ConditionSpec.DispatchedFrames | source/condition.js:24-28 | the two previous lemmas together |
| ConditionSpec.CleanedUp | source/condition.js:157-162 | `cleanup` (35-38, with the reaction's override): both lists emptied, state, pending promise and delay kept; a reaction stops running and clears its timer, other kinds keep both; the object invariant is kept |
| ConditionSpec.StaysEmpty | source/condition.js:35-38 | once cleaned up, the lists stay empty through a round whose listeners register nothing |
| ConditionSpec.CleanupInRoundEmpties | source/condition.js:24-28 | a `cleanup` during a round leaves both lists empty at its end unless a later listener registers again |
| ConditionSpec.ThrowsAreSwallowed | source/condition.js:24-28 | a round where listeners throw ends where the same round with those listeners returning would; this holds by construction, since the effect of a throw is defined as no change and a round always runs to its end |
| ConditionSpec.InertRoundChangesNothing | source/condition.js:24-28 | a round of listeners that only return or throw leaves the condition exactly as it was |
| ConditionSpec.DispatchOnlyRemoves | source/condition.js:24-28 | a round whose listeners register nothing can only remove callbacks from either list |
| ConditionSpec.InertSetState | source/condition.js:20-30 | with such listeners, activate/deactivate changes the state and nothing else |
| ConditionSpec.Step | source/condition.js:20-53 | one event: afterwards the state is the one the event asks for (unchanged if it asks none); no modelled listener effect overrides it |
| ConditionSpec.RoundIsAnEdge | source/condition.js:43-53 | listeners are called only on an edge, and then the whole list for that direction as it stood before the round |
| ConditionSpec.SecondCallIsInert | source/condition.js:20-30 | a second activate (deactivate) in a row calls no listener and changes nothing |
| ConditionSpec.StepKeepsInv | source/condition.js:117-162 | every event keeps the object invariant: a timer only while running, never together with a pending poll promise; plain conditions have neither |
| ConditionSpec.InitialPolls | source/condition.js:156 | a new condition satisfies the object invariant, and a new reaction has its first check coming |
| ConditionSpec.StepKeepsPolling | source/condition.js:118-162 | every event keeps a running reaction with a next check coming (timer armed or poll promise pending), so polling stops only through `cleanup` |
| ConditionSpec.Rearmed | source/condition.js:150-155 | `resetTimer`: the timer is armed iff running, then with the reaction's delay; nothing else changes; with no poll pending the object invariant holds after it |
| ConditionSpec.NoRearmOnceStopped | source/condition.js:150-155 | once a reaction has stopped running, no event arms its timer again or restarts it |
| ConditionSpec.PollStep | source/condition.js:118-155 | a poll that throws deactivates; a value activates iff it validates; a promise arms nothing until it settles; after a settled poll the timer is armed, with the delay, iff running |
| ConditionSpec.SettleStep | source/condition.js:127-140 | a poll's promise settling: fulfilled validates, rejected deactivates, the timer re-arms iff running, and never after cleanup |
| ConditionSpec.FinishStep | source/condition.js:198-208 | whenFinished: fulfilment activates; rejection activates unless mustResolve, in which case the condition ends inactive |
| ConditionSpec.SelfCleanupOnActivation | source/condition.js:220-226 | a reaction carrying the whenTruthy/whenFalsy listener that activates stops running with no timer, and ends with empty lists when no listener after that listener registers |
| Conditions.IndexOf | source/condition.js:71 | `indexOf`: -1 iff absent, otherwise the first index holding the callback |
| Conditions.SpliceOut | source/condition.js:70-75 | the detach closure's list edit is the first-occurrence removal above |
| Conditions.Condition.constructor | source/condition.js:11-15 | a new condition is not activated and has empty lists; a new reaction runs with its first check armed at delay 0 |
| Conditions.Condition.IsActivated | source/condition.js:59-61 | `isActivated()` reports the state of the object |
| Conditions.Condition.Cleanup | source/condition.js:157-162 | `cleanup`, as the Cleanup event: lists emptied, reaction stopped |
| Conditions.Condition.OnActivated | source/condition.js:68-76 | appends the callback and returns its detach handle; nothing else changes |
| Conditions.Condition.OnDeactivated | source/condition.js:83-91 | the same for the deactivation list |
| Conditions.Condition.Detach | source/condition.js:85-90 | the detach closure removes the first occurrence from its own list only |
| Conditions.Condition.Invoke | source/condition.js:24-28 | one listener call inside try/catch: what it does to the condition, an exception swallowed |
| Conditions.Condition.Dispatch | source/condition.js:47-51 | the loop over a copied round runs every listener of it in order |
| Conditions.Condition.Activate | source/condition.js:20-30 | `activate`: the new state is the Activate step, and the calls made are that step's round |
| Conditions.Condition.Deactivate | source/condition.js:43-53 | `deactivate`, likewise |
| Conditions.Condition.ResetTimer | source/condition.js:150-155 | `resetTimer`: arms the timer with the delay iff running, clears it otherwise |
| Conditions.Condition.Tick | source/condition.js:118-149 | `performCheck` with the callback's outcome: the Tick step, and its round |
| Conditions.Condition.Settle | source/condition.js:128-140 | the poll's promise settling: the Settle step, and its round |
| Conditions.Condition.Finish | source/condition.js:198-208 | whenFinished's promise settling: the Finish step, and its round |
| Conditions.Condition.Deliver | source/condition.js:15-92 | any enabled event, carried out by the method above that handles it |
| Conditions.CreateReaction | source/condition.js:111-164 | a fresh running reaction with the defaulted options and its first check armed |
| Conditions.WhileTruthy | source/condition.js:250-254 | a reaction whose validate is truthiness |
| Conditions.WhileFalsy | source/condition.js:236-240 | a reaction whose validate is falsiness |
| Conditions.WhenTruthy | source/condition.js:220-226 | a whileTruthy reaction with the self-cleanup listener as its only activation listener |
| Conditions.WhenFalsy | source/condition.js:174-180 | a whileFalsy reaction with the self-cleanup listener as its only activation listener |
| Conditions.WhenFinished | source/condition.js:192-210 | succeeds iff given a promise, or a callback returning one; otherwise the error for a non-promise result, a throwing callback, or a non-callable; a missing `mustResolve` is false |
| Actions.Normalize | source/action.js:21 | an array means `{conditions: array}`; a missing `conditions` is the empty list |
| Actions.Every | source/action.js:25 | the `every(isActivated)` test, evaluated inside the round of the input that runs it |
| Actions.RegisterOnEach | source/action.js:33-35 | the check is appended to every input's activation list; nothing else changes |
| Actions.CleanupEach | source/action.js:28-30 | `cleanup` is applied to every input except `skip`, which is left unchanged |
| Actions.Action.constructor | source/action.js:22 | a new action is not validated |
| Actions.Action.IsValidated | source/action.js:43 | `isValidated()` reports whether the promise has resolved |
| Actions.Action.Input | source/action.js:24-32 | an input's event with the check modelled: `validated` only grows; it becomes true only in a check that sees every input activated; each input's state then matches what the check saw; every input is cleaned up when it passes, no other input changes otherwise |
| Actions.CreateAction | source/action.js:20-46 | registers the check on every input; the check does not run, so no action starts validated |
| Actions.Emitter.constructor | source/action.js:61 | a new emitter has no subscribers |
| Actions.Emitter.OnActive | source/action.js:89-90 | appends the subscriber |
| Actions.Emitter.DetachActive | source/action.js:91-96 | removes the first occurrence of the subscriber |
| Actions.Emitter.Cleanup | source/action.js:79-83 | cleans up every input and keeps the subscriber list |
| Actions.Emitter.Input | source/action.js:62-70 | an input's event with the check: subscribers are called, all in order, iff the round reached the check and every input was activated; no other input changes |
| Actions.CreateEmitter | source/action.js:59-99 | registers the check on every input; no subscribers yet |
| Scenarios.FiresOncePerEdge | test/specs/condition.spec.js:24-52 | a new condition is inactive; each edge calls its listener once, repeated calls none |
| Scenarios.RoundRunsOverACopy | source/condition.js:20-30 | a listener detached during a round is still called in it, and a throwing listener does not stop the round |
| Scenarios.ReactsToTruthyCallback | test/specs/condition.spec.js:75-85 | an always-true reaction calls its activation spy exactly once over any number of polls, is activated, and stops on cleanup |
| Scenarios.ReactsToFalsyCallback | test/specs/condition.spec.js:64-73 | an always-false reaction never activates and never calls its deactivation spy |
| Scenarios.WhenTruthyStopsAtFirstActivation | source/condition.js:220-226 | whenTruthy keeps polling while false and stops, activated and with empty lists, at the first truthy result |
| Scenarios.ActionWaitsForAllConditions | test/specs/action.spec.js:20-35 | an action is not validated while its reaction polls false, and is validated by the first true poll, which stops the reaction |
| Scenarios.ActionIgnoresEarlierActivation | source/action.js:24-35 | an input activated before the action exists does not validate it; deactivating and activating it again does |
| Scenarios.EmitterEmitsOnce | test/specs/action.spec.js:41-51 | an emitter over an always-true reaction calls its subscriber exactly once however many polls follow; its cleanup stops the reaction |

## Left out

- Real timers and promises (`setTimeout`, `clearTimeout`, `then`/`catch`): they are the events `Tick`, `Settle` and `Finish`. The delays in milliseconds are kept as numbers but no clock is modelled, so the tests' wall-clock thresholds (200 ms, 250 ms) become counts of ticks.
- source/tools.js `isPromise` (duck typing on `.then`): a poll's outcome is the tagged `PollResult`, and whenFinished's argument is the tagged `FinishedInput`.
- source/index.js only re-exports; it is not part of this model.
- JavaScript truthiness is defined for the value kinds of `JsValue` only. BigInt, `document.all` and ±Infinity (both truthy) are not modelled: numbers are reals.
- The promise that createAction returns: resolving it is modelled by `validated` becoming true. Awaiting it is not modelled.
- ConditionSpec.Step, ConditionSpec.DispatchedKeepsState: they hold because a listener's effect is one of return, throw, attach, detach or cleanup. In JavaScript a listener that calls `activate`/`deactivate` re-entrantly (for example `() => cond.deactivate()` on the activation list) overrides the target state, and `activate()` then returns with the condition inactive. That is not modelled.
- ConditionSpec.ThrowsAreSwallowed: the try/catch is not modelled as a semantics of exceptions. A throw is defined to change nothing, and a round always runs to its end, so the lemma states that definition rather than deriving it.
- Conditions.Condition.Invoke: a listener has one effect, and it applies to its own condition only. A listener that calls `activate`/`deactivate` re-entrantly, acts on other objects, or does several things is not modelled.
- A `validate` function that throws is not modelled: `validate` is a total predicate.
- Actions.CreateAction, Actions.CreateEmitter, Actions.Action.Input, Actions.Emitter.Input: the inputs must be distinct objects (the `Distinct` requirement of both factories), and each must receive its events through the gate's `Input`. An input listed twice, or one driven directly, is not modelled.
- Actions.Action.Input: the check's `cleanup` of the other inputs, and Actions.Emitter.Input's subscriber calls, come right after the input's round instead of inside it. Listeners of that round cannot observe the difference, because they act only on their own condition.
- Actions.Emitter.Input: a subscriber detaching subscribers while the subscribers are being called is not modelled. JS iterates the live list there. The subscribers' own side effects are not modelled either (for example a subscriber calling the emitter's `cleanup` or `onActive`). Only the order of the calls is stated.
- Emitter `onInactive`: test/specs/action.spec.js:59 calls it, but source/action.js does not define it.
