/**
 * The outside world of a component: the steps that can fail for reasons of their own, and how many have. An operation
 * that reports an error while nothing outside failed would be at fault itself.
 */
module Faults {
  class Io {
    ghost var failed: nat

    constructor ()
      ensures failed == 0
    {
      failed := 0;
    }

    /** One write, sync, request or install: whether it succeeds is not for the caller to choose. */
    method Try() returns (ok: bool)
      modifies this
      ensures failed == old(failed) + if ok then 0 else 1
    {
      ok := *;
      if !ok {
        failed := failed + 1;
      }
    }
  }
}
