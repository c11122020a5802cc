// Result codes, as the kernel calls return them.
module Errno {
  const OK := 0
  const EPERM := -1
  const ENOENT := -2
  const EFAULT := -14
  const EEXIST := -17
  const EINVAL := -22
  const EALREADY := -114

  lemma CodesInNumbers()
    ensures OK == 0 && EPERM == -1 && ENOENT == -2 && EFAULT == -14
    ensures EEXIST == -17 && EINVAL == -22 && EALREADY == -114
  {
  }
}
