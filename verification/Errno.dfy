/** The error numbers that the channels return. */
module Errno {
  const EIO := 5
  const EACCES := 13
  const EBUSY := 16
  const EINVAL := 22
  const EPROTO := 71
  const EILSEQ := 84
  const EMSGSIZE := 90
  const ETIMEDOUT := 110
  const EALREADY := 114
  const ESTALE := 116
  const ECANCELED := 125
}
