/** Outcomes of operations (include/minikv/status.hpp); Busy stands for waiting on the background worker. */
module Statuses {
  datatype Status = Success | InvalidArgument | Corruption | IOError | VersionMismatch | Closed | Busy
}
