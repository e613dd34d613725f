/** IEEE-754 binary64 values (Rust's `f64`) and the operations the calculator applies
    to them. A value is its 64-bit pattern; what the arithmetic, the transcendental
    functions, `parse::<f64>` and `to_string` compute is left uninterpreted: a
    `FloatLib` supplies them as total functions. */
module Float64 {
  import opened Wrappers

  datatype F64 = F64(bits: bv64)

  const ONE: F64 := F64(0x3FF0_0000_0000_0000)
  const TWO: F64 := F64(0x4000_0000_0000_0000)
  const HUNDRED: F64 := F64(0x4059_0000_0000_0000)
  /** `std::f64::consts::E`, 2.718281828459045. */
  const E: F64 := F64(0x4005_BF0A_8B14_5769)

  /** `x == 0.0` under IEEE comparison: true of +0.0 and -0.0 and of nothing else
      (in particular not of NaN). */
  predicate IsZero(x: F64) {
    x.bits == 0 || x.bits == 0x8000_0000_0000_0000
  }

  /** The platform's floating-point library, as the calculator uses it. */
  datatype FloatLib = FloatLib(
    parse: string -> Option<F64>,   // str::parse::<f64>
    show: F64 -> string,            // f64::to_string
    add: (F64, F64) -> F64,
    sub: (F64, F64) -> F64,
    mul: (F64, F64) -> F64,
    div: (F64, F64) -> F64,
    powf: (F64, F64) -> F64,
    exp: F64 -> F64,
    sin: F64 -> F64,
    cos: F64 -> F64,
    tan: F64 -> F64,
    log10: F64 -> F64,
    ln: F64 -> F64,
    toRadians: F64 -> F64)
}
