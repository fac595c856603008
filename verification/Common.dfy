/** Vocabulary shared by every module: optional values, results, time and identifiers. */
module Common {

  datatype Option<+T> = None | Some(value: T)

  datatype Result<+T, +E> = Ok(value: T) | Err(error: E)

  // Clock readings are UTC instants counted in microseconds, the resolution of the source's timestamps.
  type Time = int

  function Seconds(n: int): Time {
    n * 1_000_000
  }

  // A UUID is a 128-bit number; the database orders identifiers by it.
  const UUID_LIMIT: nat := 0x1_0000_0000_0000_0000_0000_0000_0000_0000

  type Uuid = n: nat | n < UUID_LIMIT witness 0
}
