/**
 * The hand-off from the launcher to the injected shim: the launcher passes
 * the auto-open flag through one environment variable, which the shim reads
 * when it installs its poller.
 */
module Handoff {
  import opened Wrappers
  import Launcher
  import Spy

  /** The shim auto-opens the inspector exactly when the launcher was asked
      to: the value the launcher writes is read back as the flag it encodes. */
  lemma AutoOpenRoundTrip(flag: bool)
    ensures Spy.ParseAutoOpen(Some(Launcher.EncodeAutoOpen(flag))) == flag
  {
  }
}
