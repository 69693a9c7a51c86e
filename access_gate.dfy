/** `/check-access`: phones and tablets are only let in during office hours. */
module AccessGate {
  import opened Wrappers

  /** The hours the window opens and closes (local clock hour, as `getHours()` reports it). */
  const StartHour: int := 9
  const EndHour: int := 17

  type Hour = h: int | 0 <= h < 24

  /** `deviceType === 'mobile' || deviceType === 'tablet'`. */
  predicate IsMobile(deviceType: Option<string>) {
    deviceType == Some("mobile") || deviceType == Some("tablet")
  }

  /**
   * The reply's `accessAllowed`: denied for a mobile device before nine or from
   * seventeen o'clock on; allowed otherwise.
   */
  function AccessAllowed(deviceType: Option<string>, hour: Hour): (allowed: bool)
    ensures !IsMobile(deviceType) ==> allowed
    ensures IsMobile(deviceType) ==> (allowed <==> 9 <= hour < 17)
  {
    !(IsMobile(deviceType) && (hour < StartHour || hour >= EndHour))
  }
}
