/** The metadata that survives deep sleep (src/hal/IPersistentStore.h). It is a plain
    struct in the source, copied when it is loaded or saved. */
module Meta {

  datatype PersistedMeta = PersistedMeta(
    lastNtpSync: int,
    lastApiSuccess: int,
    lastLightFull: int,
    lastDeepClean: int,
    partialCount: nat,
    coldBootRetries: nat,
    noWifiCycles: nat,
    framebufferValid: bool,
    hasAnyData: bool,
    lastSuccessAt: int,
    authErrorSeen: bool,
    ogdAuthStreak: nat,
    lastDisplayUpdate: int,
    expectedWakeAt: int)

  const FRESH_META := PersistedMeta(0, 0, 0, 0, 0, 0, 0, false, false, 0, false, 0, 0, 0)

  const UINT8: nat := 256
  const UINT16: nat := 65536
}
