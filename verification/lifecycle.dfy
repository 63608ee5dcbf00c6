/**
 * The media manager's public lifecycle: start, forced update, focused
 * session query and disposal.
 */
module Lifecycle {
  import opened Wrappers
  import opened State
  import opened Reconcile
  import opened Focus

  /** Lifecycle misuse, surfaced to the caller as an invalid-operation error. */
  datatype Misuse = AlreadyStarted | NotStarted

  /**
   * The lifecycle guard. `starting` asks for a manager that has not started
   * yet; otherwise the caller needs a started one.
   */
  function CheckStarted(started: bool, starting: bool): (r: Option<Misuse>)
    ensures r == Some(AlreadyStarted) <==> started && starting
    ensures r == Some(NotStarted) <==> !started && !starting
    ensures r == None <==> started != starting
  {
    if started && starting then Some(AlreadyStarted)
    else if !started && !starting then Some(NotStarted)
    else None
  }

  /**
   * A provider call made through the manager's session manager: a manager
   * that holds none dereferences null, so the call throws.
   */
  function ViaSessionManager<T>(reg: Registry, call: Fetch<T>): (r: Fetch<T>) {
    if reg.connected then call else Failure(NullReference)
  }

  /**
   * Runs a reconciliation pass and then a focus change, whether or not the
   * manager has started. A manager without a session manager enumerates
   * nothing and reports no focused session.
   */
  method ForceUpdate(reg: Registry, sessionsNow: Fetch<seq<string>>, current: Fetch<Option<string>>)
    returns (r: Registry)
    requires Valid(reg)
    ensures Valid(r) && Extends(reg, r)
    ensures r.handlers == reg.handlers && r.started == reg.started && r.connected == reg.connected
    ensures !(reg.connected && sessionsNow.Success?) ==>
      && r.sessions == reg.sessions
      && Ids(Added(reg, r), Opening) == []
      && Ids(Added(reg, r), Closing) == []
    ensures reg.connected && sessionsNow.Success? ==>
      && r.sessions.Keys == Elems(sessionsNow.value)
      && (forall k :: k in reg.sessions && k in r.sessions ==> r.sessions[k] == reg.sessions[k])
      && Ids(Added(reg, r), Opening) == NewIds(reg.sessions.Keys, sessionsNow.value)
      && Distinct(Ids(Added(reg, r), Closing))
      && Elems(Ids(Added(reg, r), Closing)) == reg.sessions.Keys - Elems(sessionsNow.value)
    ensures |Focuses(Added(reg, r))| == 1
    ensures Focuses(Added(reg, r))[0].Some? <==>
      reg.connected && current.Success? && current.value.Some? && current.value.value in r.sessions
    ensures Focuses(Added(reg, r))[0].Some? ==>
      Focuses(Added(reg, r))[0].value == r.sessions[current.value.value]
    ensures OpensBeforeCloses(Added(reg, r)) && FocusLast(Added(reg, r))
    ensures FiredWhile(Added(reg, r), reg.started)
  {
    var mid := SessionsChanged(reg, ViaSessionManager(reg, sessionsNow));
    r := CurrentSessionChanged(mid, ViaSessionManager(reg, current));
    PassThenFocus(reg, mid, r);
    if !(reg.connected && sessionsNow.Success?) {
      LogsOnly(Added(reg, mid), reg.started);
    }
  }

  /** How the trace of a reconciliation pass and that of the following focus change combine. */
  lemma PassThenFocus(reg: Registry, mid: Registry, r: Registry)
    requires Extends(reg, mid) && Extends(mid, r)
    requires Focuses(Added(reg, mid)) == [] && OpensBeforeCloses(Added(reg, mid))
    requires Ids(Added(mid, r), Opening) == [] && Ids(Added(mid, r), Closing) == []
    requires FiredWhile(Added(reg, mid), reg.started) && FiredWhile(Added(mid, r), reg.started)
    ensures Extends(reg, r)
    ensures Ids(Added(reg, r), Opening) == Ids(Added(reg, mid), Opening)
    ensures Ids(Added(reg, r), Closing) == Ids(Added(reg, mid), Closing)
    ensures Focuses(Added(reg, r)) == Focuses(Added(mid, r))
    ensures OpensBeforeCloses(Added(reg, r)) && FocusLast(Added(reg, r))
    ensures FiredWhile(Added(reg, r), reg.started)
  {
    AddedChain(reg, mid, r);
    IdsConcat(Added(reg, mid), Added(mid, r), Opening);
    IdsConcat(Added(reg, mid), Added(mid, r), Closing);
    FocusesConcat(Added(reg, mid), Added(mid, r));
    FiredWhileConcat(Added(reg, mid), Added(mid, r), reg.started);
    OpensBeforeClosesExtend(Added(reg, mid), Added(mid, r));
    FocusLastConcat(Added(reg, mid), Added(mid, r));
  }

  /**
   * Starts the manager: fails when it has already started; otherwise takes
   * the provider's session manager and completes the start.
   */
  method Start(reg: Registry, sessionsNow: Fetch<seq<string>>, current: Fetch<Option<string>>)
    returns (r: Result<Registry, Misuse>)
    requires Valid(reg)
    ensures r.Failure? <==> reg.started
    ensures r.Failure? ==> r.error == AlreadyStarted
    ensures r.Success? ==>
      && Valid(r.value) && Extends(reg, r.value)
      && r.value.started && r.value.connected
      && r.value.handlers == reg.handlers
      && FiredWhile(Added(reg, r.value), false)
      && OpensBeforeCloses(Added(reg, r.value)) && FocusLast(Added(reg, r.value))
    ensures r.Success? && sessionsNow.Failure? ==>
      && r.value.sessions == reg.sessions
      && Ids(Added(reg, r.value), Opening) == []
      && Ids(Added(reg, r.value), Closing) == []
    ensures r.Success? && sessionsNow.Success? ==>
      && r.value.sessions.Keys == Elems(sessionsNow.value)
      && (forall k :: k in reg.sessions && k in r.value.sessions ==> r.value.sessions[k] == reg.sessions[k])
      && Ids(Added(reg, r.value), Opening) == NewIds(reg.sessions.Keys, sessionsNow.value)
      && Distinct(Ids(Added(reg, r.value), Closing))
      && Elems(Ids(Added(reg, r.value), Closing)) == reg.sessions.Keys - Elems(sessionsNow.value)
    ensures r.Success? ==> |Focuses(Added(reg, r.value))| == 1
    ensures r.Success? ==>
      (Focuses(Added(reg, r.value))[0].Some? <==>
         current.Success? && current.value.Some? && current.value.value in r.value.sessions)
    ensures r.Success? && Focuses(Added(reg, r.value))[0].Some? ==>
      Focuses(Added(reg, r.value))[0].value == r.value.sessions[current.value.value]
  {
    var refused := CheckStarted(reg.started, true);
    if refused.Some? {
      return Failure(refused.value);
    }
    var acquired := reg.(connected := true);
    var completed := CompleteStart(acquired, sessionsNow, current);
    assert Added(reg, completed) == Added(acquired, completed);
    r := Success(completed);
  }

  /**
   * Completes a start: a forced update, then the subscription to the
   * provider's notifications, and only then the started flag, so every event
   * of the update is emitted with the flag as it was before.
   */
  method CompleteStart(reg: Registry, sessionsNow: Fetch<seq<string>>, current: Fetch<Option<string>>)
    returns (r: Registry)
    requires Valid(reg) && reg.connected
    ensures Valid(r) && Extends(reg, r)
    ensures r.started && r.connected && r.handlers == reg.handlers
    ensures FiredWhile(Added(reg, r), reg.started)
    ensures OpensBeforeCloses(Added(reg, r)) && FocusLast(Added(reg, r))
    ensures sessionsNow.Failure? ==>
      && r.sessions == reg.sessions
      && Ids(Added(reg, r), Opening) == []
      && Ids(Added(reg, r), Closing) == []
    ensures sessionsNow.Success? ==>
      && r.sessions.Keys == Elems(sessionsNow.value)
      && (forall k :: k in reg.sessions && k in r.sessions ==> r.sessions[k] == reg.sessions[k])
      && Ids(Added(reg, r), Opening) == NewIds(reg.sessions.Keys, sessionsNow.value)
      && Distinct(Ids(Added(reg, r), Closing))
      && Elems(Ids(Added(reg, r), Closing)) == reg.sessions.Keys - Elems(sessionsNow.value)
    ensures |Focuses(Added(reg, r))| == 1
    ensures Focuses(Added(reg, r))[0].Some? <==>
      current.Success? && current.value.Some? && current.value.value in r.sessions
    ensures Focuses(Added(reg, r))[0].Some? ==>
      Focuses(Added(reg, r))[0].value == r.sessions[current.value.value]
  {
    var updated := ForceUpdate(reg, sessionsNow, current);
    r := updated.(started := true);
    assert Added(reg, r) == Added(reg, updated);
  }

  /**
   * Starting a fresh manager whose provider enumerates distinct ids tracks
   * exactly those ids, announces each as opened in enumeration order,
   * announces nothing as closed, and then reports the provider's current
   * session as the focus when it is one of them.
   */
  method StartFresh(handlers: Handlers, ids: seq<string>, current: Fetch<Option<string>>)
    returns (r: Registry)
    requires Distinct(ids)
    ensures r.started && r.connected && r.handlers == handlers
    ensures r.sessions.Keys == Elems(ids)
    ensures forall k :: k in r.sessions ==> r.sessions[k].id == k && r.sessions[k].bound
    ensures Ids(r.trace, Opening) == ids
    ensures Ids(r.trace, Closing) == []
    ensures Focuses(r.trace) ==
      [if current.Success? && current.value.Some? && current.value.value in Elems(ids)
       then Some(r.sessions[current.value.value]) else None]
    ensures forall i :: 0 <= i < |r.trace| && r.trace[i].Fired? ==> !r.trace[i].started
  {
    var initial := Fresh(handlers);
    var started := Start(initial, Success(ids), current);
    r := started.value;
    assert Added(initial, r) == r.trace;
    assert initial.sessions.Keys == {};
    FreshIdsAllNew({}, ids);
    assert Elems(Ids(r.trace, Closing)) == {};
    ElemsEmpty(Ids(r.trace, Closing));
    var focus := Focuses(r.trace)[0];
    assert Focuses(r.trace) == [focus];
  }

  /**
   * The focused session of a started manager: the tracked session under the
   * provider's current id, or none when there is no current session, the
   * provider call throws, or the id is not tracked.
   */
  function GetFocusedSession(reg: Registry, current: Fetch<Option<string>>): (r: Result<Resolution, Misuse>)
    ensures r.Failure? <==> !reg.started
    ensures r.Failure? ==> r.error == NotStarted
    ensures r.Success? ==>
      && r.value.reg.sessions == reg.sessions
      && (r.value.focus.Some? <==>
            reg.connected && current.Success? && current.value.Some? && current.value.value in reg.sessions)
      && (r.value.focus.Some? ==> r.value.focus.value == reg.sessions[current.value.value])
  {
    var refused := CheckStarted(reg.started, false);
    if refused.Some? then Failure(refused.value)
    else Success(ResolveFocus(reg, ViaSessionManager(reg, current)))
  }

  /**
   * Disposes the manager: drops the opened, closed, media, playback and
   * focus listeners (not the timeline ones), disposes every tracked session,
   * which therefore announces its closing to nobody, empties the map and
   * clears the started flag. Unsubscribing from the provider's session
   * manager then throws when the manager never held one.
   */
  method Dispose(reg: Registry) returns (r: Registry, thrown: bool)
    requires Valid(reg)
    ensures Valid(r) && Extends(reg, r)
    ensures r.sessions == map[] && !r.started && !r.connected
    ensures r.handlers == Handlers([], [], [], [], [], reg.handlers.anyTimeline)
    ensures thrown <==> !reg.connected
    ensures Silent(Added(reg, r))
    ensures Distinct(Ids(Added(reg, r), Closing))
    ensures Elems(Ids(Added(reg, r), Closing)) == reg.sessions.Keys
  {
    var unhooked := reg.(handlers := Handlers([], [], [], [], [], reg.handlers.anyTimeline));
    var swept := Sweep(unhooked, []);
    assert Elems([]) == {};
    assert swept.sessions.Keys == {};
    assert Added(reg, swept) == Added(unhooked, swept);
    thrown := !reg.connected;
    r := swept.(started := false, connected := false);
  }
}
