/**
 * The reconciliation pass the manager runs whenever the provider reports
 * that its set of sessions changed, and on every forced update.
 */
module Reconcile {
  import opened State
  import opened Removal

  /**
   * Reference: the ids of `ids`, in order, that are neither in `known` nor
   * earlier in `ids`.
   */
  function NewIds(known: set<string>, ids: seq<string>): (unseen: seq<string>)
    decreases |ids|
  {
    if ids == [] then []
    else if ids[0] in known then NewIds(known, ids[1..])
    else [ids[0]] + NewIds(known + {ids[0]}, ids[1..])
  }

  /** The new ids are exactly the enumerated ids not yet known. */
  lemma {:induction false} NewIdsElems(known: set<string>, ids: seq<string>)
    ensures Elems(NewIds(known, ids)) == Elems(ids) - known
    decreases |ids|
  {
    if ids != [] {
      var a := ids[0];
      assert Elems(ids) == {a} + Elems(ids[1..]);
      if a in known {
        NewIdsElems(known, ids[1..]);
      } else {
        NewIdsElems(known + {a}, ids[1..]);
        assert Elems([a] + NewIds(known + {a}, ids[1..])) == {a} + Elems(NewIds(known + {a}, ids[1..]));
      }
    }
  }

  /** Each new id is announced once, however often the enumeration repeats it. */
  lemma {:induction false} NewIdsDistinct(known: set<string>, ids: seq<string>)
    ensures Distinct(NewIds(known, ids))
    decreases |ids|
  {
    if ids != [] {
      var a := ids[0];
      if a in known {
        NewIdsDistinct(known, ids[1..]);
      } else {
        var rest := NewIds(known + {a}, ids[1..]);
        NewIdsDistinct(known + {a}, ids[1..]);
        NewIdsElems(known + {a}, ids[1..]);
        assert a !in Elems(rest);
        DistinctCons(a, rest);
      }
    }
  }

  /** When every enumerated id is already known, there is nothing new. */
  lemma {:induction false} NoNewIds(known: set<string>, ids: seq<string>)
    requires Elems(ids) <= known
    ensures NewIds(known, ids) == []
    decreases |ids|
  {
    if ids != [] {
      assert ids[0] in Elems(ids);
      assert Elems(ids[1..]) <= Elems(ids);
      NoNewIds(known, ids[1..]);
    }
  }

  /**
   * When no enumerated id is known and none repeats, every id is new, in
   * enumeration order: a first pass over an empty map announces them all.
   */
  lemma {:induction false} FreshIdsAllNew(known: set<string>, ids: seq<string>)
    requires Distinct(ids) && Elems(ids) !! known
    ensures NewIds(known, ids) == ids
    decreases |ids|
  {
    if ids != [] {
      var a := ids[0];
      assert a in Elems(ids);
      assert Distinct(ids[1..]) by {
        forall i, j | 0 <= i < j < |ids[1..]|
          ensures ids[1..][i] != ids[1..][j]
        {
          assert ids[1..][i] == ids[i + 1] && ids[1..][j] == ids[j + 1];
        }
      }
      assert a !in Elems(ids[1..]) by {
        forall i | 0 <= i < |ids[1..]|
          ensures ids[1..][i] != a
        {
          assert ids[1..][i] == ids[i + 1];
        }
      }
      assert Elems(ids[1..]) <= Elems(ids);
      FreshIdsAllNew(known + {a}, ids[1..]);
    }
  }

  /** Tracks a new session under `id` and announces it as opened. */
  function Open(reg: Registry, id: string): (r: Registry)
    requires Valid(reg)
    ensures Valid(r) && Extends(reg, r)
    ensures r.sessions.Keys == reg.sessions.Keys + {id}
    ensures id !in reg.sessions ==> forall k :: k in reg.sessions ==> r.sessions[k] == reg.sessions[k]
    ensures r.sessions[id].serial == reg.nextSerial < r.nextSerial
    ensures r.handlers == reg.handlers && r.started == reg.started && r.connected == reg.connected
  {
    var s := NewSession(id, reg.nextSerial);
    Fire(reg.(sessions := reg.sessions[id := s], nextSerial := reg.nextSerial + 1),
         reg.handlers.anyOpened, SessionOpened(s))
  }

  /**
   * The first half of the pass: every enumerated id not yet tracked gets a
   * new session. Sessions already tracked stay the same objects.
   */
  function AddNew(reg: Registry, ids: seq<string>): (r: Registry)
    requires Valid(reg)
    ensures Valid(r) && Extends(reg, r)
    ensures r.sessions.Keys == reg.sessions.Keys + Elems(ids)
    ensures forall k :: k in reg.sessions ==> r.sessions[k] == reg.sessions[k]
    ensures forall k :: k in r.sessions && k !in reg.sessions ==> reg.nextSerial <= r.sessions[k].serial
    ensures reg.nextSerial <= r.nextSerial
    ensures r.handlers == reg.handlers && r.started == reg.started && r.connected == reg.connected
    ensures Elems(ids) <= reg.sessions.Keys ==> r == reg
    decreases |ids|
  {
    if ids == [] then reg
    else
      assert Elems(ids) == {ids[0]} + Elems(ids[1..]);
      if ids[0] in reg.sessions then AddNew(reg, ids[1..])
      else AddNew(Open(reg, ids[0]), ids[1..])
  }

  /** Opening one new id announces it, and only it, as opened. */
  lemma OpenAnnounces(reg: Registry, id: string)
    requires Valid(reg)
    ensures var mid := Open(reg, id);
      && Extends(reg, mid)
      && mid.sessions.Keys == reg.sessions.Keys + {id}
      && Ids(Added(reg, mid), Opening) == [id]
      && Ids(Added(reg, mid), Closing) == []
      && Quiet(Added(reg, mid), reg.started)
  {
    var s := NewSession(id, reg.nextSerial);
    var head := Emission(reg.handlers.anyOpened, SessionOpened(s), reg.started);
    EmissionProjections(reg.handlers.anyOpened, SessionOpened(s), reg.started);
    assert Added(reg, Open(reg, id)) == head;
  }

  /**
   * The first half of the pass announces exactly the new ids as opened, in
   * enumeration order and once each, and announces nothing as closed.
   */
  lemma {:induction false} AddNewAnnounces(reg: Registry, ids: seq<string>)
    requires Valid(reg)
    ensures var r := AddNew(reg, ids);
      && Ids(Added(reg, r), Opening) == NewIds(reg.sessions.Keys, ids)
      && Ids(Added(reg, r), Closing) == []
      && Quiet(Added(reg, r), reg.started)
    decreases |ids|
  {
    if ids != [] {
      var a := ids[0];
      if a in reg.sessions {
        AddNewAnnounces(reg, ids[1..]);
      } else {
        var mid := Open(reg, a);
        var r := AddNew(mid, ids[1..]);
        OpenAnnounces(reg, a);
        AddNewAnnounces(mid, ids[1..]);
        AddedChain(reg, mid, r);
        IdsConcat(Added(reg, mid), Added(mid, r), Opening);
        IdsConcat(Added(reg, mid), Added(mid, r), Closing);
        QuietConcat(Added(reg, mid), Added(mid, r), reg.started);
      }
    }
  }

  /**
   * Progress of the second half of the pass: the ids of `vanished` not in
   * `pending` have been disposed, announced as closed once each in the order
   * `closed`, and nothing else has changed.
   */
  ghost predicate Swept(reg: Registry, vanished: set<string>, pending: set<string>, closed: seq<string>, r: Registry) {
    SweptMap(reg, vanished, pending, r) && SweptTrace(reg, vanished, pending, closed, r)
  }

  /** The map half of the progress: exactly the ids of `vanished` not in `pending` are gone. */
  ghost predicate SweptMap(reg: Registry, vanished: set<string>, pending: set<string>, r: Registry) {
    && pending <= vanished
    && Valid(r)
    && r.sessions == reg.sessions - (vanished - pending)
    && r == reg.(sessions := r.sessions, trace := r.trace)
  }

  /** The trace half of the progress: those ids were announced as closed, once each, in the order `closed`. */
  ghost predicate SweptTrace(reg: Registry, vanished: set<string>, pending: set<string>, closed: seq<string>, r: Registry) {
    && Extends(reg, r)
    && Ids(Added(reg, r), Opening) == []
    && Ids(Added(reg, r), Closing) == closed
    && Distinct(closed) && Elems(closed) == vanished - pending
    && Quiet(Added(reg, r), reg.started)
    && (reg.handlers.anyClosed == [] ==> Silent(Added(reg, r)))
  }

  /** Disposing one more pending session keeps the progress description true. */
  lemma SweepStep(reg: Registry, vanished: set<string>, pending: set<string>, closed: seq<string>, r: Registry, k: string)
    requires Valid(reg) && vanished <= reg.sessions.Keys
    requires Swept(reg, vanished, pending, closed, r) && k in pending
    ensures Swept(reg, vanished, pending - {k}, closed + [k], DisposeSession(r, reg.sessions[k]).reg)
  {
    assert reg.sessions[k].id == k && k in r.sessions;
    SweepStepMap(reg, vanished, pending, r, k);
    SweepStepTrace(reg, vanished, pending, closed, r, reg.sessions[k]);
  }

  /** The map half of one sweep step. */
  lemma SweepStepMap(reg: Registry, vanished: set<string>, pending: set<string>, r: Registry, k: string)
    requires Valid(reg) && vanished <= reg.sessions.Keys
    requires SweptMap(reg, vanished, pending, r) && k in pending
    ensures SweptMap(reg, vanished, pending - {k}, DisposeSession(r, reg.sessions[k]).reg)
  {
    var d := DisposeSession(r, reg.sessions[k]);
    assert reg.sessions[k].id == k;
    assert vanished - (pending - {k}) == (vanished - pending) + {k};
    assert d.reg.sessions == reg.sessions - ((vanished - pending) + {k});
  }

  /** The trace half of one sweep step: disposing the tracked session `s` announces its id, once. */
  lemma SweepStepTrace(reg: Registry, vanished: set<string>, pending: set<string>, closed: seq<string>, r: Registry, s: Session)
    requires SweptTrace(reg, vanished, pending, closed, r)
    requires pending <= vanished && s.id in pending && s.id in r.sessions && r.started == reg.started && r.handlers == reg.handlers
    ensures SweptTrace(reg, vanished, pending - {s.id}, closed + [s.id], DisposeSession(r, s).reg)
  {
    var d := DisposeSession(r, s);
    DisposalAnnounces(r, s);
    AddedChain(reg, r, d.reg);
    IdsConcat(Added(reg, r), Added(r, d.reg), Opening);
    IdsConcat(Added(reg, r), Added(r, d.reg), Closing);
    QuietConcat(Added(reg, r), Added(r, d.reg), reg.started);
    if reg.handlers.anyClosed == [] {
      DisposalSilent(r, s);
      SilentConcat(Added(reg, r), Added(r, d.reg));
    }
    DistinctSnoc(closed, s.id);
    ElemsSnoc(closed, s.id);
    assert vanished - (pending - {s.id}) == (vanished - pending) + {s.id};
  }

  /** Before the first disposal, nothing has been swept. */
  lemma SweptStart(reg: Registry, vanished: set<string>)
    requires Valid(reg)
    ensures Swept(reg, vanished, vanished, [], reg)
  {
    assert Added(reg, reg) == [];
    assert reg.sessions - (vanished - vanished) == reg.sessions;
  }

  /** Once nothing is pending, exactly the vanished ids have been disposed and announced. */
  lemma SweptDone(reg: Registry, vanished: set<string>, closed: seq<string>, r: Registry)
    requires Swept(reg, vanished, {}, closed, r)
    ensures Valid(r) && Extends(reg, r)
    ensures r.sessions == reg.sessions - vanished
    ensures r == reg.(sessions := r.sessions, trace := r.trace)
    ensures Ids(Added(reg, r), Opening) == []
    ensures Ids(Added(reg, r), Closing) == closed
    ensures Distinct(closed) && Elems(closed) == vanished
    ensures Quiet(Added(reg, r), reg.started)
    ensures reg.handlers.anyClosed == [] ==> Silent(Added(reg, r))
  {
    assert vanished - {} == vanished;
  }

  /**
   * The second half of the pass: every tracked session whose id is not in
   * `ids` is disposed, each announced as closed once. The order is the
   * dictionary's enumeration order, which nothing here relies on.
   */
  method Sweep(reg: Registry, ids: seq<string>) returns (r: Registry)
    requires Valid(reg)
    ensures Valid(r) && Extends(reg, r)
    ensures r.sessions == reg.sessions - (reg.sessions.Keys - Elems(ids))
    ensures r == reg.(sessions := r.sessions, trace := r.trace)
    ensures Ids(Added(reg, r), Opening) == []
    ensures Distinct(Ids(Added(reg, r), Closing))
    ensures Elems(Ids(Added(reg, r), Closing)) == reg.sessions.Keys - Elems(ids)
    ensures Quiet(Added(reg, r), reg.started)
    ensures reg.handlers.anyClosed == [] ==> Silent(Added(reg, r))
    ensures reg.sessions.Keys <= Elems(ids) ==> r == reg
  {
    var vanished := reg.sessions.Keys - Elems(ids);
    var pending := vanished;
    ghost var closed: seq<string> := [];
    r := reg;
    SweptStart(reg, vanished);
    while pending != {}
      invariant Swept(reg, vanished, pending, closed, r)
      invariant pending == vanished ==> r == reg
      decreases pending
    {
      var k :| k in pending;
      SweepStep(reg, vanished, pending, closed, r, k);
      r := DisposeSession(r, reg.sessions[k]).reg;
      closed := closed + [k];
      pending := pending - {k};
    }
    SweptDone(reg, vanished, closed, r);
  }

  /**
   * The reconciliation pass. A failed enumeration is logged and changes
   * nothing else. Otherwise the tracked ids become exactly the enumerated
   * ids: new ids are announced as opened first, in enumeration order, then
   * vanished ids are disposed and announced as closed.
   */
  method SessionsChanged(reg: Registry, enumeration: Fetch<seq<string>>) returns (r: Registry)
    requires Valid(reg)
    ensures Valid(r) && Extends(reg, r)
    ensures r.handlers == reg.handlers && r.started == reg.started && r.connected == reg.connected
    ensures enumeration.Failure? ==>
      r == reg.(trace := reg.trace + [Logged(Error, SessionsUnavailable(enumeration.error))])
    ensures enumeration.Success? ==> r.sessions.Keys == Elems(enumeration.value)
    ensures enumeration.Success? ==>
      forall k :: k in reg.sessions && k in r.sessions ==> r.sessions[k] == reg.sessions[k]
    ensures enumeration.Success? ==>
      forall k :: k in r.sessions && k !in reg.sessions ==> reg.nextSerial <= r.sessions[k].serial
    ensures enumeration.Success? ==>
      Ids(Added(reg, r), Opening) == NewIds(reg.sessions.Keys, enumeration.value)
    ensures enumeration.Success? ==>
      && Distinct(Ids(Added(reg, r), Closing))
      && Elems(Ids(Added(reg, r), Closing)) == reg.sessions.Keys - Elems(enumeration.value)
    ensures OpensBeforeCloses(Added(reg, r))
    ensures Quiet(Added(reg, r), reg.started)
    ensures enumeration.Success? && reg.sessions.Keys == Elems(enumeration.value) ==> r == reg
  {
    if enumeration.Failure? {
      r := reg.(trace := reg.trace + [Logged(Error, SessionsUnavailable(enumeration.error))]);
      assert Added(reg, r) == [Logged(Error, SessionsUnavailable(enumeration.error))];
      return;
    }
    var ids := enumeration.value;
    var mid := AddNew(reg, ids);
    AddNewAnnounces(reg, ids);
    r := Sweep(mid, ids);
    AddedChain(reg, mid, r);
    IdsConcat(Added(reg, mid), Added(mid, r), Opening);
    IdsConcat(Added(reg, mid), Added(mid, r), Closing);
    QuietConcat(Added(reg, mid), Added(mid, r), reg.started);
    OpensBeforeClosesConcat(Added(reg, mid), Added(mid, r));
    assert Ids(Added(reg, r), Closing) == Ids(Added(mid, r), Closing);
    assert mid.sessions.Keys - Elems(ids) == reg.sessions.Keys - Elems(ids);
    if reg.sessions.Keys == Elems(ids) {
      NoNewIds(reg.sessions.Keys, ids);
    }
  }
}
