# Media session registry of WindowsMediaController, in Dafny

This project models the core of WindowsMediaController's `MediaManager`
(`WindowsMediaController/Main.cs`). The manager keeps a dictionary of the
media sessions that Windows reports, keyed by each source's
`SourceAppUserModelId`. It reconciles that dictionary with the provider's
enumeration. It also hands lifecycle and property events to listeners.

The model is a functional state machine. A `State.Registry` value holds:

- the dictionary, as `map<string, Session>`;
- the `IsStarted` flag (`started`);
- whether a provider session manager is held (`connected`);
- the any-session listener lists;
- a counter that gives every created session its own identity (`serial`);
- the trace of everything observable so far.

Each operation is a function or method from a registry and the provider's
answers to a new registry. The Windows provider is reduced to its answers:

- an enumeration of ids, or the message of the exception it threw;
- the current session's id, none, or a failure;
- a playback status, or a failure;
- a media fetch that succeeded or failed with a message.

The trace has two kinds of entries. `Fired(signal, reached, started)` is an
emission site the code reached. `reached` lists the listeners the multicast
invocation called, so a null delegate reaches nobody. `started` is the
`IsStarted` value at that moment. `Logged(level, origin)` is a diagnostic
handed to the logger.

A multicast invocation calls its listeners in order and stops at the first
one that throws (`Fanout.Reached`). Each `?.Invoke` has its own `try`/`catch`.
So a throwing listener is contained only at the level of its list: the
per-session list, the any-session list and the manager's bookkeeping.

The model keeps these behaviours of the code:

- `MediaSession.Dispose` sets `OnSessionClosed` to null before it invokes
  it, so the per-session closed event never reaches a listener.
- `RemoveSource` is keyed by id only. Disposing a stale session object whose
  id has since been reused removes the new entry. The stale session no longer
  holds a provider session, so unsubscribing then throws.
- `MediaManager.Dispose` clears the any-session listeners (except the
  timeline ones) before it disposes the sessions. Those disposals are heard
  by nobody.
- `IsStarted` is set only after the initial forced update. Every event of a
  start is emitted while the flag is still false.
- `ForceUpdate` has no started check. Before `Start` the manager holds no
  provider session manager, so both provider calls throw inside their `try`
  blocks: the failures are logged and a focus change to none is emitted.
- `Dispose` on a manager that never started throws at the unsubscribe, after
  it has already cleared everything.

Modules: `Wrappers` (Option, Result), `Text` (substring search), `Fanout`
(multicast delivery), `State` (data model, trace projections), `Removal`
(`RemoveSource`, `MediaSession.Dispose`), `Reconcile` (`SessionsChanged`),
`Focus` (focus resolution), `Lifecycle` (start, forced update, focused
session, manager disposal), `SessionEvents` (playback and media handlers).

## Model

| member | source | states |
|---|---|---|
| `Fanout.ReachedIsPrefix` | WindowsMediaController/Main.cs:186-193 | a delegate invocation calls every listener when none throws, and otherwise exactly the listeners up to and including the first that throws |
| `Text.ContainsIsOccurs` | WindowsMediaController/Main.cs:376 | the left-to-right scan answers true exactly when the pattern occurs somewhere in the message |
| `Removal.RemoveSource` | WindowsMediaController/Main.cs:223-241 | returns true iff the id is tracked; removes only that key, whichever object it holds; on removal appends one closed announcement of the given session; on an absent id changes nothing |
| `Removal.DisposeSession` | WindowsMediaController/Main.cs:417-438 | disposal removes the session's key and nothing else; with the id absent it is a no-op; otherwise it drops the playback, media and closed listeners and unbinds the session; it throws exactly when the id is present and the session was already unbound |
| `Removal.DisposalTrace` | WindowsMediaController/Main.cs:419-431 | a disposal that finds its entry appends the any-session closed announcement and then, unless it threw, the session's own closed event reaching no listener |
| `Removal.DisposalAnnounces` | WindowsMediaController/Main.cs:417-438 | a disposal that finds its entry announces exactly that id as closed, opens nothing, changes no focus, keeps the started flag, and its own closed event is unheard |
| `Removal.DisposalSilent` | WindowsMediaController/Main.cs:229-236 | with no any-session closed listeners, every entry a disposal appends reaches nobody |
| `Removal.DisposeTwiceIsNoOp` | WindowsMediaController/Main.cs:417-420 | disposing the session object a disposal returned changes nothing and does not throw |
| `Removal.StaleDisposalRemovesLiveEntry` | WindowsMediaController/Main.cs:223-227 | disposing an unbound stale session whose id names another tracked session removes that other entry, announces the stale object as closed, and throws |
| `Reconcile.NewIdsElems` | WindowsMediaController/Main.cs:179-184 | the ids that get new sessions are exactly the enumerated ids not already tracked |
| `Reconcile.NewIdsDistinct` | WindowsMediaController/Main.cs:179-184 | an id repeated in the enumeration gets one session and one opened announcement |
| `Reconcile.NoNewIds` | WindowsMediaController/Main.cs:179-181 | when every enumerated id is tracked, no new session is created |
| `Reconcile.FreshIdsAllNew` | WindowsMediaController/Main.cs:179-188 | distinct ids, none tracked, are all announced as opened, in enumeration order |
| `Reconcile.AddNew` | WindowsMediaController/Main.cs:179-198 | after the additions the keys are the old keys plus the enumerated ids; tracked sessions stay the same objects; new sessions are new identities whose id equals their key (Main.cs:306); nothing changes when every id is tracked |
| `Reconcile.Open` | WindowsMediaController/Main.cs:183-184 | tracking a new id adds exactly that key, holding a session with a new identity, and leaves every other entry the same object |
| `Reconcile.OpenAnnounces` | WindowsMediaController/Main.cs:183-193 | tracking one new id adds exactly that key and announces exactly that id as opened |
| `Reconcile.AddNewAnnounces` | WindowsMediaController/Main.cs:179-198 | the additions announce as opened exactly the new ids, in enumeration order, and nothing as closed |
| `Reconcile.SweepStep` | WindowsMediaController/Main.cs:217-220 | disposing one more vanished session keeps this true: the disposed ids are removed and announced as closed once each, and nothing else changed |
| `Reconcile.Sweep` | WindowsMediaController/Main.cs:200-220 | removes exactly the tracked ids absent from the enumeration, announcing each as closed once and opening nothing; a no-op when every tracked id is enumerated |
| `Reconcile.SessionsChanged` | WindowsMediaController/Main.cs:165-221 | a failed enumeration only logs an error; otherwise the keys become the enumerated ids, surviving sessions stay the same objects, new ids are opened once each in enumeration order before any closing, vanished ids are closed once each, and a pass over an unchanged enumeration changes nothing |
| `Focus.ResolveFocus` | WindowsMediaController/Main.cs:145-163 | yields the tracked session under the provider's current id, and none when there is no current session, the call throws (logged) or the id is untracked |
| `Focus.CurrentSessionChanged` | WindowsMediaController/Main.cs:131-143 | emits exactly one focus change carrying the resolution, whether or not a session was found, and announces no opening or closing |
| `Focus.FocusTrace` | WindowsMediaController/Main.cs:131-143 | the focus handler's additions carry exactly one focus change, the resolved session or none, announce no opening or closing, and are emitted under the current started flag |
| `Lifecycle.CheckStarted` | WindowsMediaController/Main.cs:111-121 | fails with "already started" exactly for a started manager asked to start, and with "has not started" exactly for a stopped manager asked to serve |
| `Lifecycle.ForceUpdate` | WindowsMediaController/Main.cs:96-100 | runs on any manager, started or not; reconciles when a provider is held, else changes no key; then emits exactly one focus change, resolved against the reconciled map, after all openings and closings |
| `Lifecycle.Start` | WindowsMediaController/Main.cs:71-78 | fails with "already started" exactly when started; otherwise ends started and holding the provider, with every event emitted while the flag was false. A failed enumeration leaves the map as it was and announces nothing; a successful one makes the keys the enumerated ids, keeps surviving sessions, opens the new ids in order and closes each vanished id once. Exactly one focus change follows, carrying the tracked session under the provider's current id, or none |
| `Lifecycle.CompleteStart` | WindowsMediaController/Main.cs:123-129 | the forced update's events, with everything the forced update promises about the map, the openings, the closings and the single focus change, are emitted before the started flag is set, which is set afterwards |
| `Lifecycle.StartFresh` | WindowsMediaController/Main.cs:71-78 | starting a new manager on distinct enumerated ids tracks exactly those ids, announces each as opened in enumeration order, announces nothing as closed, and emits one focus change to the current session when it is among them, else to none; all with the flag still false |
| `Lifecycle.GetFocusedSession` | WindowsMediaController/Main.cs:105-109 | fails with "has not started" exactly when not started; otherwise returns the tracked session under the current id or none, leaving the map unchanged |
| `Lifecycle.Dispose` | WindowsMediaController/Main.cs:244-264 | ends with an empty map, not started, no provider, only the timeline listeners kept; every tracked session is closed once and nobody hears it; it throws exactly when no provider was held |
| `SessionEvents.OnPlaybackInfoChanged` | WindowsMediaController/Main.cs:312-347 | a failed fetch only logs; `Closed` removes the session's key with one closed announcement and no playback event; any other status keeps the map and emits the per-session event, then the any-session event |
| `SessionEvents.CloseOnPlayback` | WindowsMediaController/Main.cs:318-321 | a terminal status disposes the session; a disposal that throws is logged as a playback fetch error |
| `SessionEvents.ForwardPlayback` | WindowsMediaController/Main.cs:322-341 | the any-session emission happens whatever the per-session listeners do |
| `SessionEvents.ClosedPlaybackTrace` | WindowsMediaController/Main.cs:318-321 | the disposal done for a terminal status emits no playback event |
| `SessionEvents.IsIgnorable` | WindowsMediaController/Main.cs:375-376 | a media fetch failure is ignorable exactly when its message contains "0x800706BA" or "0x80070015" |
| `SessionEvents.OnMediaFetched` | WindowsMediaController/Main.cs:349-385 | a failed fetch emits nothing and logs one entry, a warning exactly when ignorable and an error otherwise; a success emits the per-session event, then the any-session event |

## Left out

- The Windows provider API (`RequestAsync`, `GetSessions`, `GetCurrentSession`, `GetPlaybackInfo`, `TryGetMediaPropertiesAsync`) is replaced by its answers as parameters. A failing `RequestAsync` is not modelled.
- `StartAsync` (Main.cs:84-91) is `Start` with an awaited provider request. It is covered by `Lifecycle.Start`.
- The payloads of playback, media and timeline info are dropped, except the playback status.
- The timeline handler (Main.cs:387-415) is not modelled. It has the same fetch-then-emit-twice shape as the media handler.
- The refresh calls for each new session (Main.cs:195-196) are not part of the reconciliation's trace. The media fetch is `async void`. The timeline fetch is left out as above. Neither changes the map.
- `async void`, threads and provider-thread callbacks are not modelled. The code takes no locks.
- The logger is not modelled as a sink. Every diagnostic is a trace entry, whether or not a logger is set, and `Logger = null` in Dispose is not represented.
- Subscribing and unsubscribing listeners (`+=`, `-=`) are not operations of the model. The listener lists are part of the state. A session's provider subscription is the `bound` flag. The manager's provider subscription is the `connected` flag.
- `Reconcile.Sweep`: the order of the closed announcements is not stated, because the dictionary's enumeration order is not specified.
- `Lifecycle.Dispose`: models the end state over a snapshot of the keys. Removing entries while enumerating the live `Keys` collection (Main.cs:252-256) throws on older runtimes and not on newer ones. The order of the silent closings is not stated.
- `Lifecycle.Dispose`: `OnAnyTimelinePropertyChanged` is not cleared by the code, and the model keeps it. No timeline event is modelled.
- Listeners are modelled by their position and by whether they throw. A listener that calls back into the manager while it is being invoked (for example `ForceUpdate` or `Dispose` from `OnAnySessionOpened`) is not modelled: every listener is assumed to affect the manager only by throwing. With such a listener the reconciliation and sweep contracts need not hold.
- The sample applications and the console test driver are not part of this model.
