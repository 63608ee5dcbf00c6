/** Resolution of the provider's current session to a tracked session. */
module Focus {
  import opened Wrappers
  import opened State

  /** The manager after resolving, and the tracked session found, if any. */
  datatype Resolution = Resolution(reg: Registry, focus: Option<Session>)

  /**
   * Looks the provider's current session up by id. A provider call that
   * throws is logged and counts as no current session; an id that is not
   * tracked (yet, or any more) yields none without any report.
   */
  function ResolveFocus(reg: Registry, current: Fetch<Option<string>>): (r: Resolution)
    ensures r.focus.Some? <==>
      current.Success? && current.value.Some? && current.value.value in reg.sessions
    ensures r.focus.Some? ==> r.focus.value == reg.sessions[current.value.value]
    ensures current.Success? ==> r.reg == reg
    ensures current.Failure? ==>
      r.reg == reg.(trace := reg.trace + [Logged(Error, CurrentSessionUnavailable(current.error))])
  {
    match current
    case Failure(message) =>
      Resolution(reg.(trace := reg.trace + [Logged(Error, CurrentSessionUnavailable(message))]), None)
    case Success(None) => Resolution(reg, None)
    case Success(Some(id)) =>
      Resolution(reg, if id in reg.sessions then Some(reg.sessions[id]) else None)
  }

  /**
   * Handles a focus change: emits exactly one focus-changed event carrying
   * the resolved session, or none when resolution found nothing.
   */
  function CurrentSessionChanged(reg: Registry, current: Fetch<Option<string>>): (r: Registry)
    ensures Extends(reg, r) && r == reg.(trace := r.trace)
    ensures Focuses(Added(reg, r)) == [ResolveFocus(reg, current).focus]
    ensures Ids(Added(reg, r), Opening) == [] && Ids(Added(reg, r), Closing) == []
    ensures FiredWhile(Added(reg, r), reg.started)
  {
    var resolved := ResolveFocus(reg, current);
    var r := Fire(resolved.reg, reg.handlers.focusChanged, FocusedSessionChanged(resolved.focus));
    FocusTrace(reg, current, resolved, r);
    r
  }

  lemma FocusTrace(reg: Registry, current: Fetch<Option<string>>, resolved: Resolution, r: Registry)
    requires resolved == ResolveFocus(reg, current)
    requires r == Fire(resolved.reg, reg.handlers.focusChanged, FocusedSessionChanged(resolved.focus))
    ensures Extends(reg, r)
    ensures Focuses(Added(reg, r)) == [resolved.focus]
    ensures Ids(Added(reg, r), Opening) == [] && Ids(Added(reg, r), Closing) == []
    ensures FiredWhile(Added(reg, r), reg.started)
  {
    var log := Added(reg, resolved.reg);
    var emission := Emission(reg.handlers.focusChanged, FocusedSessionChanged(resolved.focus), reg.started);
    EmissionProjections(reg.handlers.focusChanged, FocusedSessionChanged(resolved.focus), reg.started);
    LogsOnly(log, reg.started);
    assert Added(resolved.reg, r) == emission;
    AddedChain(reg, resolved.reg, r);
    IdsConcat(log, emission, Opening);
    IdsConcat(log, emission, Closing);
    FocusesConcat(log, emission);
    FiredWhileConcat(log, emission, reg.started);
  }
}
