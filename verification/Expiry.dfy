/** When an entry set with a time to live goes stale. */
module Expiry {
  import opened Options

  /** A zero `expire` means none, as no `expire` does. */
  function ExpiryTime(expire: Option<int>, now: int): Option<int> {
    if expire.Some? && expire.value != 0 then Some(now + expire.value) else None
  }
}
