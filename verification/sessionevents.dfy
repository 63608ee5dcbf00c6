/**
 * A tracked session's handlers for the provider's per-session
 * notifications: playback changes and media property changes.
 */
module SessionEvents {
  import opened Wrappers
  import opened State
  import opened Removal
  import opened Text

  /** The manager and the session object after a handler ran. */
  datatype Step = Step(reg: Registry, session: Session)

  /** `t` holds no playback event, per-session or any-session. */
  predicate NoPlayback(t: seq<Entry>) {
    forall i :: 0 <= i < |t| && t[i].Fired? ==>
      !t[i].signal.PlaybackStateChanged? && !t[i].signal.AnyPlaybackChanged?
  }

  /**
   * Handles a playback change of `s`. A failed fetch is logged and nothing
   * else happens. A `Closed` status disposes the session; a disposal that
   * throws is caught by the same handler and logged like a failed fetch.
   * Any other status goes to the session's own listeners, then, in a
   * separate emission, to the manager's any-session listeners.
   */
  function OnPlaybackInfoChanged(reg: Registry, s: Session, info: Fetch<PlaybackStatus>): (r: Step)
    ensures Extends(reg, r.reg)
    ensures r.reg == reg.(sessions := r.reg.sessions, trace := r.reg.trace)
    ensures Valid(reg) ==> Valid(r.reg)
    ensures info.Failure? ==>
      r == Step(reg.(trace := reg.trace + [Logged(Error, PlaybackInfoUnavailable(info.error))]), s)
    ensures info == Success(Closed) ==>
      && r.reg.sessions == reg.sessions - {s.id}
      && NoPlayback(Added(reg, r.reg))
      && (s.id !in reg.sessions ==> r == Step(reg, s))
      && (s.id in reg.sessions ==>
            Ids(Added(reg, r.reg), Closing) == [s.id] && Ids(Added(reg, r.reg), Opening) == [])
      && (s.id in reg.sessions && !s.bound ==>
            r.reg.trace[|r.reg.trace| - 1] == Logged(Error, PlaybackInfoUnavailable(NullReference)))
    ensures info.Success? && info.value != Closed ==>
      && r.reg.sessions == reg.sessions && r.session == s
      && Added(reg, r.reg)
           == Emission(s.onPlayback, PlaybackStateChanged(s, info.value), reg.started)
            + Emission(reg.handlers.anyPlayback, AnyPlaybackChanged(s, info.value), reg.started)
  {
    match info
    case Failure(message) =>
      Step(reg.(trace := reg.trace + [Logged(Error, PlaybackInfoUnavailable(message))]), s)
    case Success(status) =>
      if status == Closed then CloseOnPlayback(reg, s)
      else ForwardPlayback(reg, s, status)
  }

  /** The `Closed` branch: dispose, and log a disposal that throws. */
  function CloseOnPlayback(reg: Registry, s: Session): (r: Step)
    ensures Extends(reg, r.reg)
    ensures r.reg == reg.(sessions := r.reg.sessions, trace := r.reg.trace)
    ensures Valid(reg) ==> Valid(r.reg)
    ensures r.reg.sessions == reg.sessions - {s.id}
    ensures NoPlayback(Added(reg, r.reg))
    ensures s.id !in reg.sessions ==> r == Step(reg, s)
    ensures s.id in reg.sessions ==>
      Ids(Added(reg, r.reg), Closing) == [s.id] && Ids(Added(reg, r.reg), Opening) == []
    ensures s.id in reg.sessions && !s.bound ==>
      r.reg.trace[|r.reg.trace| - 1] == Logged(Error, PlaybackInfoUnavailable(NullReference))
  {
    var d := DisposeSession(reg, s);
    ClosedPlaybackTrace(reg, s);
    if d.thrown then
      var failure := [Logged(Error, PlaybackInfoUnavailable(NullReference))];
      var logged := d.reg.(trace := d.reg.trace + failure);
      LogKeepsAnnouncements(reg, d.reg, failure[0]);
      Step(logged, d.session)
    else
      Step(d.reg, d.session)
  }

  /** Appending a diagnostic announces no session. */
  lemma LogKeepsAnnouncements(reg: Registry, mid: Registry, e: Entry)
    requires Extends(reg, mid) && e.Logged?
    ensures var logged := mid.(trace := mid.trace + [e]);
      && Extends(reg, logged)
      && Added(reg, logged) == Added(reg, mid) + [e]
      && Ids(Added(reg, logged), Opening) == Ids(Added(reg, mid), Opening)
      && Ids(Added(reg, logged), Closing) == Ids(Added(reg, mid), Closing)
  {
    var logged := mid.(trace := mid.trace + [e]);
    assert Added(reg, logged) == Added(reg, mid) + [e];
    IdsConcat(Added(reg, mid), [e], Opening);
    IdsConcat(Added(reg, mid), [e], Closing);
  }

  /** Any other status: the per-session emission, then the any-session one. */
  function ForwardPlayback(reg: Registry, s: Session, status: PlaybackStatus): (r: Step)
    ensures Extends(reg, r.reg) && r == Step(reg.(trace := r.reg.trace), s)
    ensures Added(reg, r.reg)
      == Emission(s.onPlayback, PlaybackStateChanged(s, status), reg.started)
       + Emission(reg.handlers.anyPlayback, AnyPlaybackChanged(s, status), reg.started)
  {
    var own := Fire(reg, s.onPlayback, PlaybackStateChanged(s, status));
    var any := Fire(own, reg.handlers.anyPlayback, AnyPlaybackChanged(s, status));
    assert any.trace == reg.trace
      + Emission(s.onPlayback, PlaybackStateChanged(s, status), reg.started)
      + Emission(reg.handlers.anyPlayback, AnyPlaybackChanged(s, status), reg.started);
    Step(any, s)
  }

  /** A disposal emits no playback event, and one that throws emits only the closed announcement. */
  lemma ClosedPlaybackTrace(reg: Registry, s: Session)
    ensures NoPlayback(Added(reg, DisposeSession(reg, s).reg))
    ensures NoPlayback(Added(reg, DisposeSession(reg, s).reg) + [Logged(Error, PlaybackInfoUnavailable(NullReference))])
    ensures s.id in reg.sessions ==>
      && Ids(Added(reg, DisposeSession(reg, s).reg), Closing) == [s.id]
      && Ids(Added(reg, DisposeSession(reg, s).reg), Opening) == []
  {
    var d := DisposeSession(reg, s);
    if s.id in reg.sessions {
      DisposalTrace(reg, s);
      DisposalAnnounces(reg, s);
    } else {
      assert Added(reg, d.reg) == [];
    }
  }

  /** Substrings of the two provider errors that are benign on a media fetch. */
  const RpcServerUnavailable: string := "0x800706BA"
  const DeviceNotReady: string := "0x80070015"

  /** A failed media fetch is benign when its message names either code. */
  function IsIgnorable(message: string): (r: bool)
    ensures r <==> Occurs(message, RpcServerUnavailable) || Occurs(message, DeviceNotReady)
  {
    ContainsIsOccurs(message, RpcServerUnavailable);
    ContainsIsOccurs(message, DeviceNotReady);
    Contains(message, RpcServerUnavailable) || Contains(message, DeviceNotReady)
  }

  /**
   * Handles the completion of a media properties fetch for `s`. A success
   * goes to the session's own listeners, then, in a separate emission, to the
   * any-session listeners. A failure emits nothing and is logged as a warning
   * exactly when it is benign, as an error otherwise.
   */
  function OnMediaFetched(reg: Registry, s: Session, media: Fetch<()>): (r: Registry)
    ensures Extends(reg, r) && r == reg.(trace := r.trace)
    ensures media.Failure? ==>
      && |Added(reg, r)| == 1
      && Added(reg, r)[0].Logged?
      && Added(reg, r)[0].origin == MediaPropertiesUnavailable(media.error)
      && (Added(reg, r)[0].level == Warning <==>
            Occurs(media.error, RpcServerUnavailable) || Occurs(media.error, DeviceNotReady))
    ensures media.Success? ==>
      Added(reg, r)
        == Emission(s.onMedia, MediaPropertyChanged(s), reg.started)
         + Emission(reg.handlers.anyMedia, AnyMediaChanged(s), reg.started)
  {
    match media
    case Failure(message) =>
      var level := if IsIgnorable(message) then Warning else Error;
      reg.(trace := reg.trace + [Logged(level, MediaPropertiesUnavailable(message))])
    case Success(_) =>
      var own := Fire(reg, s.onMedia, MediaPropertyChanged(s));
      var any := Fire(own, reg.handlers.anyMedia, AnyMediaChanged(s));
      assert any.trace == reg.trace
        + Emission(s.onMedia, MediaPropertyChanged(s), reg.started)
        + Emission(reg.handlers.anyMedia, AnyMediaChanged(s), reg.started);
      any
  }
}
