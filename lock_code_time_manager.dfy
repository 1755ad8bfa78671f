/** The app-lock timer as an object: one mutable lock flag and background timestamp, updated in
    place by one method per event, each proved to perform the step of the state machine. */
module AppLock {
  import opened AppLockFeature
  import opened LockSpec

  class LockCodeTimeManager {
    const config: AppLockConfig
    const lockAtExactTimeout: bool
    var now: nat
    var visible: bool
    var locked: bool
    var backgroundedAt: Option<nat>

    /** The abstract value of this timer. */
    ghost function State(): LockState
      reads this
    {
      LockState(config, lockAtExactTimeout, now, visible, locked, backgroundedAt)
    }

    ghost predicate Valid()
      reads this
    {
      LockSpec.Valid(State())
    }

    constructor (config: AppLockConfig, isAppVisible: bool, lockedIfStartedVisible: bool,
                 lockAtExactTimeout: bool)
      ensures Valid()
      ensures State() == Init(config, isAppVisible, lockedIfStartedVisible, lockAtExactTimeout)
    {
      this.config := config;
      this.lockAtExactTimeout := lockAtExactTimeout;
      now := 0;
      visible := isAppVisible;
      locked := config.Enabled? && (!isAppVisible || lockedIfStartedVisible);
      backgroundedAt := None;
    }

    /** Locks and stops the countdown when its deadline has been reached. */
    method FireIfDue()
      modifies this
      ensures State() == Fire(old(State()))
    {
      if backgroundedAt.Some? && backgroundedAt.value <= now
         && Expired(now - backgroundedAt.value, TimeoutInMillis(config), lockAtExactTimeout)
      {
        locked := true;
        backgroundedAt := None;
      }
    }

    /** A new value of the app-visibility signal. */
    method SetAppVisible(isAppVisible: bool)
      requires Valid()
      modifies this
      ensures Valid()
      ensures State() == Step(old(State()), SetVisible(isAppVisible))
    {
      if config.Enabled? && isAppVisible != visible {
        visible := isAppVisible;
        if isAppVisible {
          backgroundedAt := None;
        } else if !locked {
          backgroundedAt := Some(now);
          FireIfDue();
        }
      } else {
        visible := isAppVisible;
      }
    }

    /** The virtual clock moves forward by `ms` milliseconds, firing a countdown that falls due. */
    method AdvanceTimeBy(ms: nat)
      requires Valid()
      modifies this
      ensures Valid()
      ensures State() == Step(old(State()), AdvanceTime(ms))
    {
      now := now + ms;
      FireIfDue();
    }

    /** The user has unlocked the app. */
    method AppUnlocked()
      requires Valid()
      modifies this
      ensures Valid()
      ensures State() == Step(old(State()), Unlock)
    {
      locked := false;
    }

    /** The current lock flag: never set under a disabled lock, and never while a countdown runs. */
    function IsLocked(): (r: bool)
      reads this
      requires Valid()
      ensures r ==> config.Enabled? && backgroundedAt.None?
    {
      locked
    }
  }
}
