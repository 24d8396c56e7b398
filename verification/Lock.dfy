/** The per-user lock key of store/lock.py: SET NX EX, EXISTS and the compare-and-delete script. */
module Lock {
  import opened Prelude

  /** A stored token and the instant its key expires. */
  datatype Hold = Hold(token: int, deadline: int)

  /** is_locked: the key exists, that is, was set and has not expired. */
  predicate Live(cell: Option<Hold>, now: int) { cell.Some? && now < cell.value.deadline }

  /** SET key token NX EX ttl. */
  function SetNxEx(cell: Option<Hold>, now: int, token: int, ttl: int): Option<Hold> {
    if Live(cell, now) then cell else Some(Hold(token, now + ttl))
  }

  /** The release script: DEL only if GET still answers the caller's token. */
  function CompareAndDelete(cell: Option<Hold>, now: int, token: int): Option<Hold> {
    if Live(cell, now) && cell.value.token == token then None else cell
  }
}
