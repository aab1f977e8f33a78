/** The start-up sequence that precedes the capture loop: a chain of
    readiness checks and driver calls, each of which ends start-up early on
    failure. Driver calls are reduced to the values they return. */
module Setup {

  /** The driver calls made during start-up, in the order they are issued. */
  datatype Call = PowerOnMic | Configure | TriggerStart

  /** How start-up ends: an early return at one of the checks, or entry into
      the capture loop. A failed call carries the negative code it returned. */
  datatype Exit =
    | DmicNotReady
    | GpioNotReady
    | ConfigureFailed(code: int)
    | TriggerFailed(code: int)
    | Streaming

  /** The calls issued, in order, and the way start-up ended. */
  datatype SetupResult = SetupResult(calls: seq<Call>, exit: Exit)

  /** Every start-up call, in the order a successful start-up issues them. */
  const StartupOrder: seq<Call> := [PowerOnMic, Configure, TriggerStart]

  /** Start-up of the streaming routine: GPIO readiness, microphone power-on
      (whose result is not checked), configuration, then trigger start.
      `configureRet` and `triggerRet` are what the driver would return. */
  function StreamSetup(gpioReady: bool, configureRet: int, triggerRet: int): (r: SetupResult)
    ensures r.calls <= StartupOrder
    ensures r.exit == Streaming <==> gpioReady && configureRet >= 0 && triggerRet >= 0
    ensures PowerOnMic in r.calls <==> gpioReady
    ensures Configure in r.calls <==> gpioReady
    ensures TriggerStart in r.calls <==> gpioReady && configureRet >= 0
    ensures r.exit == GpioNotReady <==> !gpioReady
    ensures r.exit == ConfigureFailed(configureRet) <==> gpioReady && configureRet < 0
    ensures r.exit == TriggerFailed(triggerRet) <==> gpioReady && configureRet >= 0 && triggerRet < 0
  {
    if !gpioReady then
      SetupResult([], GpioNotReady)
    else if configureRet < 0 then
      SetupResult([PowerOnMic, Configure], ConfigureFailed(configureRet))
    else if triggerRet < 0 then
      SetupResult(StartupOrder, TriggerFailed(triggerRet))
    else
      SetupResult(StartupOrder, Streaming)
  }

  /** The whole boot: the microphone device must be ready before the
      streaming routine is started at all. */
  function Boot(dmicReady: bool, gpioReady: bool, configureRet: int, triggerRet: int): (r: SetupResult)
    ensures r.calls <= StartupOrder
    ensures r.exit == Streaming <==>
              dmicReady && gpioReady && configureRet >= 0 && triggerRet >= 0
    ensures r.exit == DmicNotReady <==> !dmicReady
    ensures !dmicReady ==> r.calls == []
    ensures TriggerStart in r.calls ==> dmicReady && gpioReady && configureRet >= 0
  {
    if !dmicReady then SetupResult([], DmicNotReady) else StreamSetup(gpioReady, configureRet, triggerRet)
  }

  /** A failed configuration ends start-up with no further driver call: the
      trigger is never attempted, and with any trigger outcome the result is
      the same. */
  lemma ConfigureFailureStopsStartup(gpioReady: bool, configureRet: int, t1: int, t2: int)
    requires configureRet < 0
    ensures TriggerStart !in StreamSetup(gpioReady, configureRet, t1).calls
    ensures StreamSetup(gpioReady, configureRet, t1) == StreamSetup(gpioReady, configureRet, t2)
  {
  }
}
