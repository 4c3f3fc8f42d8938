/** The limits both decoders put on an IDL type and the data it describes. */
module IdlLimits {
  const MAX_DEPTH := 32
  const MAX_LENGTH := 100_000

  /** What is left of the depth budget. */
  function Left(depth: nat): nat {
    if depth > MAX_DEPTH then 0 else MAX_DEPTH + 1 - depth
  }
}
