/**
 * Removal of a session from the manager, and a session's own disposal,
 * which goes through that removal.
 */
module Removal {
  import opened Fanout
  import opened State

  datatype Removed = Removed(reg: Registry, removed: bool)

  /**
   * Removes the entry under `s`'s id, whichever session object it holds,
   * and announces `s` as closed; an absent id changes nothing.
   */
  function RemoveSource(reg: Registry, s: Session): (r: Removed)
    ensures r.removed <==> s.id in reg.sessions
    ensures r.reg.sessions == reg.sessions - {s.id}
    ensures r.reg.handlers == reg.handlers && r.reg.started == reg.started
    ensures r.reg.connected == reg.connected && r.reg.nextSerial == reg.nextSerial
    ensures Extends(reg, r.reg)
    ensures !r.removed ==> r.reg == reg
    ensures r.removed ==> Added(reg, r.reg) == Emission(reg.handlers.anyClosed, SessionClosed(s), reg.started)
    ensures Valid(reg) ==> Valid(r.reg)
  {
    if s.id in reg.sessions then
      Removed(Fire(reg.(sessions := reg.sessions - {s.id}), reg.handlers.anyClosed, SessionClosed(s)), true)
    else
      Removed(reg, false)
  }

  /**
   * The result of disposing a session: the manager afterwards, the session
   * object afterwards, and whether the disposal threw once the manager's
   * entry was already gone.
   */
  datatype Disposal = Disposal(reg: Registry, session: Session, thrown: bool)

  /**
   * Disposes `s`. Only when the manager still holds an entry under `s.id` does
   * anything happen: the entry is removed and announced, `s`'s playback, media
   * and closed listeners are dropped, it is unsubscribed from its provider
   * session, and its own closed event is raised on the now empty list. A
   * session that was already unbound has no provider session to unsubscribe
   * from, so that step throws.
   */
  function DisposeSession(reg: Registry, s: Session): (d: Disposal)
    ensures d.reg.sessions == reg.sessions - {s.id}
    ensures d.reg.handlers == reg.handlers && d.reg.started == reg.started
    ensures d.reg.connected == reg.connected && d.reg.nextSerial == reg.nextSerial
    ensures Extends(reg, d.reg)
    ensures Valid(reg) ==> Valid(d.reg)
    ensures s.id !in reg.sessions ==> d == Disposal(reg, s, false)
    ensures d.thrown <==> s.id in reg.sessions && !s.bound
    ensures s.id in reg.sessions ==>
      d.session == s.(bound := false, onClosed := [], onPlayback := [], onMedia := [])
  {
    var r := RemoveSource(reg, s);
    if !r.removed then
      Disposal(reg, s, false)
    else
      var released := s.(onClosed := [], onPlayback := [], onMedia := [], bound := false);
      if !s.bound then
        Disposal(r.reg, released, true)
      else
        Disposal(Fire(r.reg, released.onClosed, OwnSessionClosed(released)), released, false)
  }

  /**
   * What a disposal that finds its entry appends: the any-session closed
   * announcement of `s`, and, unless it threw, the session's own closed event
   * reaching nobody, since its listeners were dropped just before.
   */
  lemma DisposalTrace(reg: Registry, s: Session)
    requires s.id in reg.sessions
    ensures var d := DisposeSession(reg, s);
      Added(reg, d.reg)
        == Emission(reg.handlers.anyClosed, SessionClosed(s), reg.started)
         + (if s.bound then [Fired(OwnSessionClosed(d.session), [], reg.started)] else [])
  {
    var r := RemoveSource(reg, s);
    var d := DisposeSession(reg, s);
    var announced := Emission(reg.handlers.anyClosed, SessionClosed(s), reg.started);
    assert r.reg.trace == reg.trace + announced;
    if s.bound {
      var own := [Fired(OwnSessionClosed(d.session), [], reg.started)];
      assert Emission(d.session.onClosed, OwnSessionClosed(d.session), reg.started) == own;
      assert d.reg.trace == reg.trace + announced + own;
    }
  }

  /** The projections of a closed announcement, possibly followed by a silent own closed event. */
  lemma ClosingProjections(listeners: seq<Listener>, s: Session, o: Session, own: bool, started: bool)
    ensures var t := Emission(listeners, SessionClosed(s), started)
                   + (if own then [Fired(OwnSessionClosed(o), [], started)] else []);
      && Ids(t, Closing) == [s.id]
      && Ids(t, Opening) == []
      && Quiet(t, started)
  {
    var announced := Emission(listeners, SessionClosed(s), started);
    var tail: seq<Entry> := if own then [Fired(OwnSessionClosed(o), [], started)] else [];
    EmissionProjections(listeners, SessionClosed(s), started);
    if own {
      EmissionProjections([], OwnSessionClosed(o), started);
      assert Emission([], OwnSessionClosed(o), started) == tail;
    }
    IdsConcat(announced, tail, Closing);
    IdsConcat(announced, tail, Opening);
    QuietConcat(announced, tail, started);
  }

  /**
   * A disposal that finds its entry announces exactly `s` as closed, nothing
   * as opened and no focus change, while keeping the started flag, and its
   * own closed event reaches nobody.
   */
  lemma DisposalAnnounces(reg: Registry, s: Session)
    requires s.id in reg.sessions
    ensures var d := DisposeSession(reg, s);
      && Ids(Added(reg, d.reg), Closing) == [s.id]
      && Ids(Added(reg, d.reg), Opening) == []
      && Quiet(Added(reg, d.reg), reg.started)
  {
    var d := DisposeSession(reg, s);
    DisposalTrace(reg, s);
    ClosingProjections(reg.handlers.anyClosed, s, d.session, s.bound, reg.started);
  }

  /** With no any-session closed listeners, a disposal is heard by nobody. */
  lemma DisposalSilent(reg: Registry, s: Session)
    requires s.id in reg.sessions && reg.handlers.anyClosed == []
    ensures Silent(Added(reg, DisposeSession(reg, s).reg))
  {
    DisposalTrace(reg, s);
    assert Emission([], SessionClosed(s), reg.started) == [Fired(SessionClosed(s), [], reg.started)];
  }

  /** A second disposal of the same session object changes nothing. */
  lemma DisposeTwiceIsNoOp(reg: Registry, s: Session)
    ensures var d := DisposeSession(reg, s);
            DisposeSession(d.reg, d.session) == Disposal(d.reg, d.session, false)
  {
  }

  /**
   * Removal is keyed by id: disposing a stale, already released session
   * whose id now names another tracked session removes that other session,
   * announces the stale one as closed, and then throws.
   */
  lemma StaleDisposalRemovesLiveEntry(reg: Registry, stale: Session)
    requires stale.id in reg.sessions && reg.sessions[stale.id] != stale && !stale.bound
    ensures var d := DisposeSession(reg, stale);
            && d.thrown
            && stale.id !in d.reg.sessions
            && |d.reg.trace| > |reg.trace|
            && d.reg.trace[|reg.trace|] == Fired(SessionClosed(stale), Reached(reg.handlers.anyClosed), reg.started)
  {
  }
}
