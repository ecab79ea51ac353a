/** The C integer conversions that the modelled code relies on. */
module CInt {
  /** (int) applied to an unsigned value, on a machine with 32-bit two's complement int. */
  function ToInt(n: nat): int {
    var m := n % 0x1_0000_0000;
    if m < 0x8000_0000 then m else m - 0x1_0000_0000
  }

  /** How callers' counts become LIMIT values: zero asks for the default of 100. */
  function LimitOf(count: nat): int {
    if count > 0 then ToInt(count) else 100
  }

  /** A count goes through as it is up to the largest int, and zero stands for 100. */
  lemma LimitMeans(count: nat)
    ensures LimitOf(0) == 100
    ensures 0 < count < 0x8000_0000 ==> LimitOf(count) == count
    ensures 0x8000_0000 <= count < 0x1_0000_0000 ==> LimitOf(count) == count - 0x1_0000_0000
  {
  }

  /** LIMIT n in SQLite: a negative limit is no limit. */
  function Limited<T>(rows: seq<T>, limit: int): seq<T> {
    if limit < 0 || limit > |rows| then rows else rows[..limit]
  }
}
