/** Names shared by the parts of the model. */
module LockTypes {
  const MAX_NODES := 16   // UB_MAX_NODES
  const NO_NODE := 0xFF
  const U32 := 0x1_0000_0000
  const FREE := 65536     // X_LOCK_DECR: the shared word of a lock nobody holds
  const HALF := 32768     // X_LOCK_HALF_DECR

  /** ub_lock_mode_t; I means no lock. */
  datatype LockMode = S | SX | X | I

  datatype Option<T> = None | Some(value: T)
}
