/** Values shared by every part of the model. */
module Types {

  /** A UUID read as a 128-bit number; PostgreSQL orders UUIDs the same way. */
  type Uuid = n: nat | n < 0x1_0000_0000_0000_0000_0000_0000_0000_0000

  /** A SHA-256 digest read as a 256-bit number. */
  type Hash = n: nat
    | n < 0x1_0000_0000_0000_0000_0000_0000_0000_0000_0000_0000_0000_0000_0000_0000_0000_0000

  const NIL: Uuid := 0

  /** A point in time, in nanoseconds; 0 stands for Go's zero time. */
  type Time = nat

  const MICROSECOND: nat := 1000
  const MAX_INT32: nat := 0x7fff_ffff

  /** A Go time.Duration: nanoseconds in 64 bits, so arithmetic on it is checked against overflow. */
  newtype int64 = n: int | -0x8000_0000_0000_0000 <= n <= 0x7fff_ffff_ffff_ffff

  datatype Option<+T> = None | Some(value: T)

  /** What the network makes of COMMIT; a lost reply leaves the caller with an error and the rows in place. */
  datatype Commit = Committed | RolledBack | ReplyLost
}
