/** The parameters of kernel/param.h that several parts share. */
module Param {
  const MAXOPBLOCKS: nat := 10
  const LOGSIZE: nat := MAXOPBLOCKS * 3
}
