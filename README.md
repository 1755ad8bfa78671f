# App-lock timer of the Wire Android client

This project models `LockCodeTimeManager` (package `com.wire.android.ui.home.appLock`). It is the
component that decides whether the app is locked. It has three inputs: whether the app is visible
(in the foreground), the app-lock policy (`AppLockConfig`), and explicit `appUnlocked()` calls.
`LockCodeTimeManager.kt` is not part of this model. Its behaviour is taken from the
scenarios of `LockCodeTimeManagerTest.kt`, which pin it down.

The reactive flows and the coroutine timer are modelled as a sequential state machine:

- **Time** is a natural number of milliseconds (a virtual clock).
- **State** holds the policy, the clock, the visibility, the `locked` flag and an optional
  "backgrounded at" timestamp. The timestamp is present exactly while a background countdown is pending.
- **Events** are `SetVisible(b)`, `AdvanceTime(ms)` and `Unlock`. `AdvanceTime` fires the pending
  countdown as soon as the background stay reaches the timeout. So the lock comes from elapsed time, not from polling.
- **Observation** is the `locked` flag.

The project has four modules:

- `AppLockFeature` (`app_lock_config.dfy`): the policy and its timeout in milliseconds.
- `LockSpec` (`lock_spec.dfy`): the state machine as pure functions (`Init`, `Step`, `Run`, `Trace`),
  its invariant `Valid`, and lemmas over whole event sequences.
- `AppLock` (`lock_code_time_manager.dfy`): the class `LockCodeTimeManager`. Its fields are updated
  in place, one method per event. Each method is proved to perform exactly the `Step` of that event.
- `LockCodeTimeManagerTest` (`lock_code_time_manager_test.dfy`): each test scenario as a method. The
  method drives a fresh `LockCodeTimeManager` and is proved to return the lock state the test asserts.

The test suite leaves two behaviours open. Both are parameters of the timer, and every scenario holds
for every value of them:

- `lockedIfStartedVisible`: whether a timer that starts in the foreground under an enabled policy is locked.
- `lockAtExactTimeout`: whether a background stay of exactly the timeout locks. The tests only probe 100 ms on either side.

Each `advanceUntilIdle()` of the tests becomes an `AdvanceTime` of arbitrary length. This makes each
scenario a statement about every idle period, not just one.

`Disabled` also carries a timeout, because the test calls `AppLockConfig.Disabled.timeoutInMillis()`
(`LockCodeTimeManagerTest.kt`, lines 91 and 95). The model therefore has `Enabled(timeoutInSeconds)`
and `Disabled(timeoutInSeconds)`.

There is no separate manual-unlock marker. An unlock clears `locked` and leaves a pending countdown
running. The next backgrounding starts a fresh countdown.

## Model

| member | source | states |
|---|---|---|
| AppLockFeature.TimeoutInMillis | app/src/test/kotlin/com/wire/android/ui/home/appLock/LockCodeTimeManagerTest.kt:42 | the timeout in milliseconds is a whole number of seconds: it is divisible by 1000, and dividing by 1000 gives `timeoutInSeconds` back |
| LockSpec.Init | app/src/test/kotlin/com/wire/android/ui/home/appLock/LockCodeTimeManagerTest.kt:184-195 | a fresh timer satisfies the invariant, has no pending countdown, is never locked under `Disabled`, and is locked under `Enabled` when it starts in the background |
| LockSpec.Step | app/src/test/kotlin/com/wire/android/ui/home/appLock/LockCodeTimeManagerTest.kt:192-209 | one event keeps the invariant; only an unlock clears a lock, it always does, and it leaves a pending countdown alone; a lock is only set in the background under `Enabled`; backgrounding starts the countdown at the current time; returning to the foreground cancels the countdown without changing the lock; a clock step locks exactly when the background stay reaches the timeout |
| LockSpec.Run | app/src/test/kotlin/com/wire/android/ui/home/appLock/LockCodeTimeManagerTest.kt:66-79 | any event sequence keeps the invariant and the policy, and the clock advances by the total of the sequence's delays |
| LockSpec.Trace | app/src/test/kotlin/com/wire/android/ui/home/appLock/LockCodeTimeManagerTest.kt:107-111 | one observation of the lock flag per event; the last observation is the lock state after the whole sequence |
| LockSpec.TraceAt | app/src/test/kotlin/com/wire/android/ui/home/appLock/LockCodeTimeManagerTest.kt:107-111 | observation `i` of a trace is the lock state after the first `i + 1` events |
| LockSpec.UnlockOfUnlockedIsNoOp | app/src/test/kotlin/com/wire/android/ui/home/appLock/LockCodeTimeManagerTest.kt:161-174 | unlocking an app that is not locked changes nothing: repeated unlocks have no further effect, and a pending countdown keeps running |
| LockSpec.DisabledNeverLocked | app/src/test/kotlin/com/wire/android/ui/home/appLock/LockCodeTimeManagerTest.kt:89-95 | under `Disabled` the app is never observed locked, after any visibility changes, delays and unlocks |
| LockSpec.LockHeldUntilUnlock | app/src/test/kotlin/com/wire/android/ui/home/appLock/LockCodeTimeManagerTest.kt:146-159 | a lock survives every visibility change and delay, including an early return to the foreground; only an unlock clears it |
| LockSpec.AdvanceTimeAdditive | app/src/test/kotlin/com/wire/android/ui/home/appLock/LockCodeTimeManagerTest.kt:73-76 | two consecutive clock steps leave the same state as one step of their sum, so the lock depends on elapsed time and not on how the clock is stepped |
| LockSpec.BackgroundCountdown | app/src/test/kotlin/com/wire/android/ui/home/appLock/LockCodeTimeManagerTest.kt:97-112 | while a countdown runs in the background, the lock flag observed after each clock step is whether the background stay has reached the timeout, so it changes at most once and only from unlocked to locked |
| AppLock.LockCodeTimeManager.constructor | app/src/test/kotlin/com/wire/android/ui/home/appLock/LockCodeTimeManagerTest.kt:184-195 | the new timer's state is `Init` of the policy and the initial visibility |
| AppLock.LockCodeTimeManager.SetAppVisible | app/src/test/kotlin/com/wire/android/ui/home/appLock/LockCodeTimeManagerTest.kt:201-204 | a new visibility value updates the fields in place exactly as `Step` with `SetVisible`, and keeps the invariant |
| AppLock.LockCodeTimeManager.AdvanceTimeBy | app/src/test/kotlin/com/wire/android/ui/home/appLock/LockCodeTimeManagerTest.kt:76 | advancing the virtual clock updates the fields exactly as `Step` with `AdvanceTime`, firing a countdown that falls due |
| AppLock.LockCodeTimeManager.FireIfDue | app/src/test/kotlin/com/wire/android/ui/home/appLock/LockCodeTimeManagerTest.kt:107-111 | the delayed lock callback: once the background stay reaches the timeout it sets the lock and ends the countdown, exactly as `LockSpec.Fire`; otherwise it changes nothing |
| AppLock.LockCodeTimeManager.AppUnlocked | app/src/test/kotlin/com/wire/android/ui/home/appLock/LockCodeTimeManagerTest.kt:170 | an unlock updates the fields exactly as `Step` with `Unlock`, clearing the lock |
| AppLock.LockCodeTimeManager.IsLocked | app/src/test/kotlin/com/wire/android/ui/home/appLock/LockCodeTimeManagerTest.kt:173 | the observed lock is never set under `Disabled`, nor while a countdown is pending |
| LockCodeTimeManagerTest.InitialStart | app/src/test/kotlin/com/wire/android/ui/home/appLock/LockCodeTimeManagerTest.kt:44-64 | starting in the background and then coming to the foreground gives locked exactly when the policy is `Enabled` |
| LockCodeTimeManagerTest.Stop | app/src/test/kotlin/com/wire/android/ui/home/appLock/LockCodeTimeManagerTest.kt:66-95 | after an unlock in the foreground, staying in the background gives locked exactly when the policy is `Enabled` and the stay reached the timeout; 100 ms over the timeout locks under `Enabled`, and 100 ms under it never locks |
| LockCodeTimeManagerTest.StopThenLockAfterTimeout | app/src/test/kotlin/com/wire/android/ui/home/appLock/LockCodeTimeManagerTest.kt:97-112 | after an unlock and backgrounding, the lock is first observed unlocked, then locked once the wait reaches the timeout, without returning to the foreground |
| LockCodeTimeManagerTest.StopAndStart | app/src/test/kotlin/com/wire/android/ui/home/appLock/LockCodeTimeManagerTest.kt:114-144 | after an unlock, a background stay and a return to the foreground, the app is locked exactly when the policy is `Enabled` and the stay reached the timeout; 100 ms under the timeout stays unlocked, and 100 ms over it locks under `Enabled` |
| LockCodeTimeManagerTest.OpenedLockedThenReopenedEarly | app/src/test/kotlin/com/wire/android/ui/home/appLock/LockCodeTimeManagerTest.kt:146-159 | an app that started in the background under `Enabled` is still locked when it comes to the foreground, whatever the delay |
| LockCodeTimeManagerTest.OpenedThenUnlocked | app/src/test/kotlin/com/wire/android/ui/home/appLock/LockCodeTimeManagerTest.kt:161-174 | under `Enabled`, an unlock leaves the app not locked, whether or not it started locked |

## Left out

- Coroutines, `StateFlow`/`Flow` operators, the dispatcher, Turbine and MockK are left out. They become sequential events and an integer clock, and emissions become observations of the lock flag after each event.
- Runtime changes of the app-lock policy are not modelled: the policy is fixed when the timer is built. The test suite sets it only before construction.
- `LockSpec.Init`: the lock state of a timer that starts in the foreground under `Enabled` is the parameter `lockedIfStartedVisible`, because the test suite does not fix it.
- `LockSpec.Step`: whether a background stay of exactly the timeout locks is the parameter `lockAtExactTimeout`, because the test suite only probes 100 ms on either side of the timeout.
- An unlock while the app is in the background is not pinned down by any test. In the model it clears a lock that has already fired. It does not cancel a pending countdown, which still locks the app when it falls due (`LockSpec.UnlockOfUnlockedIsNoOp`).
- The 64-bit `Long` arithmetic of the timeout conversion is modelled with unbounded integers. `timeoutInSeconds * 1000` cannot overflow a `Long` for any 32-bit `timeoutInSeconds`.
- Tearing the timer down and an upstream stream terminating are left out, because they are coroutine-scope concerns with no state to model.
- The Compose screens and buttons, the navigation route table, the conversation-list view model test and the plain UI state classes are left out. They contain no logic about the lock.
