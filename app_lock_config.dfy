/** The app-lock policy, as the lock timer receives it from the feature-configuration stream. */
module AppLockFeature {

  /** Whether the app locks itself after a stay in the background. Both cases carry the
      timeout in whole seconds: the test suite asks the `Disabled` policy for its timeout too. */
  datatype AppLockConfig = Enabled(timeoutInSeconds: nat) | Disabled(timeoutInSeconds: nat)

  /** The timeout in milliseconds, the unit of the virtual clock: it is a whole number of seconds,
      and dividing it back by 1000 gives the configured number of seconds. */
  function TimeoutInMillis(config: AppLockConfig): (ms: nat)
    ensures ms % 1000 == 0 && ms / 1000 == config.timeoutInSeconds
    ensures config.timeoutInSeconds > 0 ==> ms >= 1000
  {
    config.timeoutInSeconds * 1000
  }
}
