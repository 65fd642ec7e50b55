/** Resources handed out by the environment, to state that nothing leaks or is released twice. */
module Ledger {
  import opened Common

  /** Handles not yet released, the next fresh handle, and whether a handle was ever released
      that was not live at that moment. */
  datatype Pool = Pool(live: set<nat>, next: nat, misused: bool)

  const Empty := Pool({}, 0, false)

  /** Acquire the handle `p.next`. */
  function Acquire(p: Pool): Pool {
    p.(live := p.live + {p.next}, next := p.next + 1)
  }

  function Release(p: Pool, h: nat): Pool {
    p.(live := p.live - {h}, misused := p.misused || h !in p.live)
  }

  /** Release what a field holds, if anything. */
  function ReleaseAny(p: Pool, field: Option<nat>): Pool {
    if field.Some? then Release(p, field.value) else p
  }

  function HandleOf(field: Option<nat>): set<nat> {
    if field.Some? then {field.value} else {}
  }

  predicate Sound(p: Pool) {
    !p.misused && forall h :: h in p.live ==> h < p.next
  }
}
