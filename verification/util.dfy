/** The read helper of epd/util.go. */
module Util {
  import opened Wrappers

  /**
   Collapses Go's `(value, error)` pair into a plain reading: a failed read is
   logged (not modelled) and reported as 0, so the error never reaches the caller.
   */
  function MustRead(val: int, err: Option<string>): (r: int)
    ensures err.None? ==> r == val
    ensures err.Some? ==> r == 0
    ensures r != 0 <==> err.None? && val != 0
  {
    if err.Some? then 0 else val
  }
}
