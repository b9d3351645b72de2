/** The deferred write at the end of every pass over an owner object: first the status, then,
    after putting the pass's spec and finalizers back into the object that the status response
    has just overwritten, the object itself. */
module WriteBack {
  import opened Wrappers
  import opened ApiServer

  /** The stored object after the two calls. */
  function WrittenBack<S, T>(stored: Stored<S, T>, mem: Stored<S, T>, admitted: bool, statusFault: Fault,
                             specFault: Fault): Stored<S, T>
  {
    match UpdateStatus(stored, mem, statusFault)
    case None => stored
    case Some(response) =>
      match UpdateObject(response, Restored(response, mem), admitted, specFault)
      case None => response
      case Some(final) => final
  }

  /** The response of the status call with the pass's spec and finalizers put back. */
  function Restored<S, T>(response: Stored<S, T>, mem: Stored<S, T>): Stored<S, T>
  {
    response.(spec := mem.spec, meta := response.meta.(finalizers := mem.meta.finalizers))
  }

  /** One atomic write of everything a pass may change. */
  function AtomicWrite<S, T>(stored: Stored<S, T>, mem: Stored<S, T>): Stored<S, T>
  {
    stored.(spec := mem.spec, status := mem.status, meta := stored.meta.(finalizers := mem.meta.finalizers))
  }

  /** The two calls amount to one atomic write, version apart, exactly when neither fails and
      the pass worked on the stored version and its result is admitted or changes nothing; a
      stale object or a failed first call stores nothing, and a failed second call keeps the
      old spec and finalizers under the new status. */
  lemma TwoPhaseRefinesAtomic<S, T>(stored: Stored<S, T>, mem: Stored<S, T>, admitted: bool, statusFault: Fault,
                                    specFault: Fault)
    ensures var after := WrittenBack(stored, mem, admitted, statusFault, specFault);
            var first := !statusFault.WriteFails? && mem.version == stored.version;
            var second := first && admitted && !specFault.WriteFails?;
            && (!first ==> after == stored)
            && (first && !second ==> after == stored.(version := stored.version + 1, status := mem.status))
            && (second ==> after == AtomicWrite(stored, mem).(version := stored.version + 2))
            && (after.(version := 0) == AtomicWrite(stored, mem).(version := 0) <==>
                  second
                  || (mem.spec == stored.spec && mem.meta.finalizers == stored.meta.finalizers &&
                      (first || mem.status == stored.status)))
  {
  }

  /** Without the restore the second call would undo the pass: it would store the old spec. */
  lemma RestoreIsNeeded<S, T>(stored: Stored<S, T>, mem: Stored<S, T>)
    requires mem.version == stored.version
    ensures var response := UpdateStatus(stored, mem, Works);
            && response.Some?
            && UpdateObject(response.value, response.value, true, Works) ==
               Some(stored.(version := stored.version + 2, status := mem.status))
            && UpdateObject(response.value, mem, true, Works) == None
  {
  }
}
