/**
 * The state of a media manager: its tracked sessions keyed by source id,
 * its lifecycle flags, its any-session listener lists, and the trace of
 * everything it has emitted or reported so far.
 */
module State {
  import opened Wrappers
  import opened Fanout

  /** Playback states the provider reports for a source; `Closed` is terminal. */
  datatype PlaybackStatus = Closed | Opened | Changing | Stopped | Playing | Paused

  /**
   * A tracked media session. `serial` stands for object identity: the
   * manager gives every session it creates a serial no earlier session had.
   * `bound` holds while the session still owns its provider session and is
   * subscribed to that session's change notifications. The four lists are
   * the listeners of the session's own events.
   */
  datatype Session = Session(
    id: string,
    serial: nat,
    bound: bool,
    onClosed: seq<Listener>,
    onPlayback: seq<Listener>,
    onMedia: seq<Listener>,
    onTimeline: seq<Listener>)

  /** A session as the manager creates it for a newly enumerated source. */
  function NewSession(id: string, serial: nat): (s: Session) {
    Session(id, serial, true, [], [], [], [])
  }

  /** What an emission announces: any-session events, then per-session events. */
  datatype Signal =
    | SessionOpened(session: Session)
    | SessionClosed(session: Session)
    | FocusedSessionChanged(focus: Option<Session>)
    | AnyPlaybackChanged(session: Session, status: PlaybackStatus)
    | AnyMediaChanged(session: Session)
    | PlaybackStateChanged(session: Session, status: PlaybackStatus)
    | MediaPropertyChanged(session: Session)
    | OwnSessionClosed(session: Session)

  datatype Level = Warning | Error

  /** Why a diagnostic was reported. */
  datatype Origin =
    | InvokeFailed(signal: Signal)
    | SessionsUnavailable(message: string)
    | CurrentSessionUnavailable(message: string)
    | PlaybackInfoUnavailable(message: string)
    | MediaPropertiesUnavailable(message: string)

  /**
   * One step of the observable history. `Fired` is an emission site that was
   * reached: `reached` lists the listeners it called (empty for a null
   * delegate) and `started` is the manager's started flag at that moment.
   * `Logged` is a diagnostic handed to the logger.
   */
  datatype Entry =
    | Fired(signal: Signal, reached: seq<nat>, started: bool)
    | Logged(level: Level, origin: Origin)

  /** The manager's any-session and focus listener lists. */
  datatype Handlers = Handlers(
    anyOpened: seq<Listener>,
    anyClosed: seq<Listener>,
    focusChanged: seq<Listener>,
    anyPlayback: seq<Listener>,
    anyMedia: seq<Listener>,
    anyTimeline: seq<Listener>)

  /**
   * The media manager. `connected` holds while it holds the provider's
   * session manager; `nextSerial` is the identity the next created session gets.
   */
  datatype Registry = Registry(
    sessions: map<string, Session>,
    started: bool,
    connected: bool,
    handlers: Handlers,
    nextSerial: nat,
    trace: seq<Entry>)

  /** A provider call: its value, or the message of the exception it threw. */
  type Fetch<T> = Result<T, string>

  /** The message of the exception raised by calling through a null reference. */
  const NullReference: string := "Object reference not set to an instance of an object."

  /**
   * Every key names its own session, every tracked session is still bound to
   * its provider session, and every tracked session's identity was handed out.
   */
  predicate Valid(reg: Registry) {
    forall k :: k in reg.sessions ==>
      && reg.sessions[k].id == k
      && reg.sessions[k].bound
      && reg.sessions[k].serial < reg.nextSerial
  }

  /** The manager a fresh instance starts from: nothing tracked, nothing emitted. */
  function Fresh(handlers: Handlers): (r: Registry)
    ensures Valid(r) && !r.started && !r.connected && r.sessions == map[]
  {
    Registry(map[], false, false, handlers, 0, [])
  }

  function Elems(s: seq<string>): (e: set<string>) {
    set x | x in s
  }

  /** A sequence holds no id exactly when it is empty. */
  lemma ElemsEmpty(s: seq<string>)
    ensures Elems(s) == {} <==> s == []
  {
    if s != [] {
      assert s[0] in Elems(s);
    }
  }

  predicate Distinct(s: seq<string>) {
    forall i, j :: 0 <= i < j < |s| ==> s[i] != s[j]
  }

  /** The entries one invocation of `listeners` with `signal` appends. */
  function Emission(listeners: seq<Listener>, signal: Signal, started: bool): (t: seq<Entry>) {
    [Fired(signal, Reached(listeners), started)]
      + (if Faults(listeners) then [Logged(Error, InvokeFailed(signal))] else [])
  }

  /**
   * One emission with its own try/catch: a throwing listener is logged and
   * goes no further than the emission itself.
   */
  function Fire(reg: Registry, listeners: seq<Listener>, signal: Signal): (r: Registry) {
    reg.(trace := reg.trace + Emission(listeners, signal, reg.started))
  }

  /** `after` has `before`'s trace as a prefix. */
  predicate Extends(before: Registry, after: Registry) {
    |before.trace| <= |after.trace| && after.trace[..|before.trace|] == before.trace
  }

  /** What `after` appended to `before`'s trace. */
  function Added(before: Registry, after: Registry): (t: seq<Entry>)
    requires Extends(before, after)
  {
    after.trace[|before.trace|..]
  }

  /** Appending in two steps appends the two parts, in order. */
  lemma AddedChain(a: Registry, b: Registry, c: Registry)
    requires Extends(a, b) && Extends(b, c)
    ensures Extends(a, c)
    ensures Added(a, c) == Added(a, b) + Added(b, c)
  {
    assert c.trace[..|a.trace|] == c.trace[..|b.trace|][..|a.trace|];
    assert c.trace[|a.trace|..] == c.trace[|a.trace|..|b.trace|] + c.trace[|b.trace|..];
    assert c.trace[|a.trace|..|b.trace|] == b.trace[|a.trace|..];
  }

  /** The two lifecycle announcements. */
  datatype Kind = Opening | Closing

  /** `e` is an emission of the any-session opened (or closed) event. */
  predicate Is(e: Entry, k: Kind) {
    e.Fired? && match k
      case Opening => e.signal.SessionOpened?
      case Closing => e.signal.SessionClosed?
  }

  /** `e` is an emission of the focus-changed event. */
  predicate IsFocus(e: Entry) {
    e.Fired? && e.signal.FocusedSessionChanged?
  }

  /** The ids of the sessions announced as opened (closed) in `t`, in order. */
  function Ids(t: seq<Entry>, k: Kind): (ids: seq<string>)
    decreases |t|
  {
    if t == [] then []
    else (if Is(t[0], k) then [t[0].signal.session.id] else []) + Ids(t[1..], k)
  }

  /** The targets of the focus-changed emissions in `t`, in order. */
  function Focuses(t: seq<Entry>): (fs: seq<Option<Session>>)
    decreases |t|
  {
    if t == [] then []
    else (if IsFocus(t[0]) then [t[0].signal.focus] else []) + Focuses(t[1..])
  }

  /** No session is announced as opened after one is announced as closed. */
  predicate OpensBeforeCloses(t: seq<Entry>) {
    forall i, j :: 0 <= i < j < |t| && Is(t[i], Closing) ==> !Is(t[j], Opening)
  }

  /** No session is announced as opened or closed after a focus change. */
  predicate FocusLast(t: seq<Entry>) {
    forall i, j :: 0 <= i < j < |t| && IsFocus(t[i]) ==> !Is(t[j], Opening) && !Is(t[j], Closing)
  }

  /** Every emission in `t` happened while the started flag was `flag`. */
  predicate FiredWhile(t: seq<Entry>, flag: bool) {
    forall i :: 0 <= i < |t| && t[i].Fired? ==> t[i].started == flag
  }

  /** Every entry of `t` is an emission that reached no listener. */
  predicate Silent(t: seq<Entry>) {
    forall i :: 0 <= i < |t| ==> t[i].Fired? && t[i].reached == []
  }

  /** No per-session closed emission in `t` reached a listener. */
  predicate OwnClosedUnheard(t: seq<Entry>) {
    forall i :: 0 <= i < |t| && t[i].Fired? && t[i].signal.OwnSessionClosed? ==> t[i].reached == []
  }

  /**
   * `t` changes no focus, was emitted while the started flag was `flag`,
   * and no per-session closed event in it reached a listener.
   */
  predicate Quiet(t: seq<Entry>, flag: bool) {
    Focuses(t) == [] && FiredWhile(t, flag) && OwnClosedUnheard(t)
  }

  lemma {:induction false} IdsConcat(a: seq<Entry>, b: seq<Entry>, k: Kind)
    ensures Ids(a + b, k) == Ids(a, k) + Ids(b, k)
    decreases |a|
  {
    if a != [] {
      var head := if Is(a[0], k) then [a[0].signal.session.id] else [];
      assert (a + b)[0] == a[0];
      assert (a + b)[1..] == a[1..] + b;
      assert Ids(a + b, k) == head + Ids(a[1..] + b, k);
      IdsConcat(a[1..], b, k);
      assert Ids(a, k) == head + Ids(a[1..], k);
    } else {
      assert a + b == b;
    }
  }

  lemma {:induction false} FocusesConcat(a: seq<Entry>, b: seq<Entry>)
    ensures Focuses(a + b) == Focuses(a) + Focuses(b)
    decreases |a|
  {
    if a != [] {
      assert (a + b)[0] == a[0];
      assert (a + b)[1..] == a[1..] + b;
      FocusesConcat(a[1..], b);
    } else {
      assert a + b == b;
    }
  }

  /** A trace announces no opened (closed) session exactly when it holds no such emission. */
  lemma {:induction false} NoIdsIsAbsent(t: seq<Entry>, k: Kind)
    ensures Ids(t, k) == [] <==> forall i :: 0 <= i < |t| ==> !Is(t[i], k)
    decreases |t|
  {
    if t != [] {
      NoIdsIsAbsent(t[1..], k);
      assert forall i :: 1 <= i < |t| ==> t[i] == t[1..][i - 1];
    }
  }

  /** A trace without focus targets holds no focus emission. */
  lemma {:induction false} NoFocusesIsAbsent(t: seq<Entry>)
    ensures Focuses(t) == [] <==> forall i :: 0 <= i < |t| ==> !IsFocus(t[i])
    decreases |t|
  {
    if t != [] {
      NoFocusesIsAbsent(t[1..]);
      assert forall i :: 1 <= i < |t| ==> t[i] == t[1..][i - 1];
    }
  }

  /** Announcements of a trace with no closings, followed by one with no openings, are ordered. */
  lemma OpensBeforeClosesConcat(a: seq<Entry>, b: seq<Entry>)
    requires Ids(a, Closing) == [] && Ids(b, Opening) == []
    ensures OpensBeforeCloses(a + b)
  {
    NoIdsIsAbsent(a, Closing);
    NoIdsIsAbsent(b, Opening);
    var t := a + b;
    assert forall i :: 0 <= i < |a| ==> t[i] == a[i];
    assert forall j :: |a| <= j < |t| ==> t[j] == b[j - |a|];
  }

  lemma FiredWhileConcat(a: seq<Entry>, b: seq<Entry>, flag: bool)
    requires FiredWhile(a, flag) && FiredWhile(b, flag)
    ensures FiredWhile(a + b, flag)
  {
    assert forall i :: |a| <= i < |a + b| ==> (a + b)[i] == b[i - |a|];
  }

  lemma UnheardConcat(a: seq<Entry>, b: seq<Entry>)
    requires OwnClosedUnheard(a) && OwnClosedUnheard(b)
    ensures OwnClosedUnheard(a + b)
  {
    assert forall i :: |a| <= i < |a + b| ==> (a + b)[i] == b[i - |a|];
  }

  lemma SilentConcat(a: seq<Entry>, b: seq<Entry>)
    requires Silent(a) && Silent(b)
    ensures Silent(a + b)
  {
    assert forall i :: |a| <= i < |a + b| ==> (a + b)[i] == b[i - |a|];
  }

  lemma DistinctCons(a: string, t: seq<string>)
    requires Distinct(t) && a !in Elems(t)
    ensures Distinct([a] + t)
  {
    var u := [a] + t;
    assert forall i :: 1 <= i < |u| ==> u[i] == t[i - 1];
  }

  lemma DistinctSnoc(t: seq<string>, a: string)
    requires Distinct(t) && a !in Elems(t)
    ensures Distinct(t + [a])
  {
    var u := t + [a];
    assert forall i :: 0 <= i < |t| ==> u[i] == t[i];
  }

  lemma QuietConcat(a: seq<Entry>, b: seq<Entry>, flag: bool)
    requires Quiet(a, flag) && Quiet(b, flag)
    ensures Quiet(a + b, flag)
  {
    FocusesConcat(a, b);
    FiredWhileConcat(a, b, flag);
    UnheardConcat(a, b);
  }

  lemma ElemsSnoc(t: seq<string>, a: string)
    ensures Elems(t + [a]) == Elems(t) + {a}
  {
    assert forall x :: x in t + [a] <==> x in t || x == a;
  }

  /** Appending no openings keeps openings ahead of closings. */
  lemma OpensBeforeClosesExtend(a: seq<Entry>, b: seq<Entry>)
    requires OpensBeforeCloses(a) && Ids(b, Opening) == []
    ensures OpensBeforeCloses(a + b)
  {
    NoIdsIsAbsent(b, Opening);
    var t := a + b;
    assert forall i :: 0 <= i < |a| ==> t[i] == a[i];
    assert forall j :: |a| <= j < |t| ==> t[j] == b[j - |a|];
  }

  /** A part without focus changes followed by a part without announcements puts focus last. */
  lemma FocusLastConcat(a: seq<Entry>, b: seq<Entry>)
    requires Focuses(a) == [] && Ids(b, Opening) == [] && Ids(b, Closing) == []
    ensures FocusLast(a + b)
  {
    NoFocusesIsAbsent(a);
    NoIdsIsAbsent(b, Opening);
    NoIdsIsAbsent(b, Closing);
    var t := a + b;
    assert forall i :: 0 <= i < |a| ==> t[i] == a[i];
    assert forall j :: |a| <= j < |t| ==> t[j] == b[j - |a|];
  }

  /** Diagnostics alone announce nothing and are quiet. */
  lemma LogsOnly(t: seq<Entry>, flag: bool)
    requires forall i :: 0 <= i < |t| ==> t[i].Logged?
    ensures Ids(t, Opening) == [] && Ids(t, Closing) == [] && Quiet(t, flag)
  {
    NoIdsIsAbsent(t, Opening);
    NoIdsIsAbsent(t, Closing);
    NoFocusesIsAbsent(t);
  }

  /** What one emission contributes to the announcement and focus projections. */
  lemma EmissionProjections(listeners: seq<Listener>, signal: Signal, started: bool)
    ensures Ids(Emission(listeners, signal, started), Opening)
         == (if signal.SessionOpened? then [signal.session.id] else [])
    ensures Ids(Emission(listeners, signal, started), Closing)
         == (if signal.SessionClosed? then [signal.session.id] else [])
    ensures Focuses(Emission(listeners, signal, started))
         == (if signal.FocusedSessionChanged? then [signal.focus] else [])
    ensures FiredWhile(Emission(listeners, signal, started), started)
    ensures !signal.OwnSessionClosed? || listeners == [] ==> OwnClosedUnheard(Emission(listeners, signal, started))
  {
    var e := Emission(listeners, signal, started);
    var tail := if Faults(listeners) then [Logged(Error, InvokeFailed(signal))] else [];
    assert e == [e[0]] + tail;
    IdsConcat([e[0]], tail, Opening);
    IdsConcat([e[0]], tail, Closing);
    FocusesConcat([e[0]], tail);
  }
}
