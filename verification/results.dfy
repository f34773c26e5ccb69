/** Result codes and numeric limits shared by every component. */
module Results {
  datatype Option<+T> = None | Some(value: T)

  const SUCCESS := 0
  const INCOMPLETE := 5
  const ERROR_MEMORY_MAP_FAILED := -5
  const ERROR_UNKNOWN := -13
  const ERROR_INVALID_ARGUMENT := -320000000
  const ERROR_GUEST_MEMORY := -320000001
  const ERROR_INVALID_HANDLE := -320000002
  const ERROR_LOADER_UNAVAILABLE := -320000003
  const ERROR_UNSUPPORTED_OPERATION := -320000004

  const U32: nat := 0x1_0000_0000
  const U64: nat := 0x1_0000_0000_0000_0000
}
