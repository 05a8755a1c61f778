// The sizes that more than one part of the kernel depends on (param.h).
module Params {
  const MAXOPBLOCKS: int := 10
  const LOGSIZE: int := MAXOPBLOCKS * 3
  const NBUF: int := MAXOPBLOCKS * 3
}
