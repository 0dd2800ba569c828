/**
 * The reference-counted socket of socket/manager.go as a value: what each critical section
 * under `fmu` does to `refs` and `cached`. The class in manager_class.dfy and the interleaving
 * machine in machine.dfy are both built from these functions.
 */
module Shared {
  import opened Basics

  /** `conn` is the underlying connection `s`; None is Go's nil interface. */
  datatype Shared = Shared(refs: nat, cached: bool, conn: Option<nat>)

  /** What a critical section decided: keep the connection, release it, or report that it was closed already. */
  datatype Verdict = Kept | Release | AlreadyClosed

  /** Neither a client nor the cache holds a reference. */
  predicate Closed(s: Shared) {
    !s.cached && s.refs == 0
  }

  function Inc(s: Shared): Shared {
    if Closed(s) then s else s.(refs := s.refs + 1)
  }

  function Cache(s: Shared): Shared {
    if Closed(s) then s else s.(cached := true)
  }

  function Uncache(s: Shared): (Shared, Verdict) {
    if !s.cached then (s, if s.refs == 0 then AlreadyClosed else Kept)
    else (s.(cached := false), if s.refs == 0 then Release else Kept)
  }

  function Close(s: Shared): (Shared, Verdict) {
    if s.refs == 0 then (s, AlreadyClosed)
    else
      var s' := s.(refs := s.refs - 1);
      (s', if Closed(s') then Release else Kept)
  }
}
