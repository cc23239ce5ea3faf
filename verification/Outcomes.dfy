/** Optional values and the results of calls that can fail. */
module Outcomes {
  datatype Option<+T> = None | Some(value: T)

  datatype Errno = EINVAL | ENOENT | ENOMEM | EBUSY | EDEADLK

  datatype Status = Ok | Failed(errno: Errno)
}
