/**
 Which tuning values internal/config/runtime.go accepts. A rate must be finite, positive, and
 still positive and finite as a float32; a float64 rounds to the float32 zero exactly up to 2
 to the power of -150.
 */
module RuntimeLimits {
  import opened ConfigTypes

  const MaxFloat32 := 340282346638528859811704183484516925440.0
  const RoundsToZero := 1.0 / 1427247692705959881058285969449495136382746624.0

  /** `ValidateQPS`. */
  predicate ValidQPS(qps: real) {
    RoundsToZero < qps <= MaxFloat32
  }

  /** The overrides that are present are valid, the others are zero. */
  predicate ValidOverrides(o: RuntimeConfiguration) {
    && (o.qps != 0.0 ==> ValidQPS(o.qps))
    && o.burst >= 0 && o.workers >= 0
  }
}
