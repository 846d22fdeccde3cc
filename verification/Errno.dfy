/** The Linux error numbers the drivers return, as the negative values a caller sees. */
module Errno {
  const E2BIG: int := -7
  const EAGAIN: int := -11
  const ENOMEM: int := -12
  const EEXIST: int := -17
  const EINVAL: int := -22
  const ERESTARTSYS: int := -512
  const EPROBE_DEFER: int := -517
}
