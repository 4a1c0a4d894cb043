/** Rows of a transactional table, as sessions that read committed rows and their own see them. */
module Transactions {

  datatype Fate = Committed | Uncommitted(owner: nat) | RolledBack

  /** A session sees what is committed and what it wrote itself. */
  predicate SeenBy(fate: Fate, session: nat) { fate == Committed || fate == Uncommitted(session) }

  /** What the end of a session makes of a row's fate: its own rows take the fate of the session. */
  function Settled(fate: Fate, session: nat, end: Fate): Fate {
    if fate == Uncommitted(session) then end else fate
  }
}
