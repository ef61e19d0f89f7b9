/**
  The registry of login attempts. Every stretch of code between two awaits is one method; between them
  anything else may happen, so a start, a submission or a self-completing flow may find on its return
  that its session was superseded, cancelled, reaped or reset.
*/
module SessionManager {
  import opened Options

  /** A login attempt: its adapter handle and, once it is registered, the session id made for it. */
  type Id = nat

  datatype Status = Pending | Authorized | Failed | Cancelled

  /** `waits`: a flow that concludes by itself and takes no submission. */
  datatype Session = Session(
    engine: string, status: Status, waits: bool, submitting: bool, generation: Option<string>)

  datatype Reservation = Reservation(handle: Id, generation: Option<string>)

  datatype Flight = Flight(engine: string, waits: bool, generation: Option<string>)

  datatype Error = UnknownSession | NotPending | NotSupported | SubmissionRunning | Superseded | StartFailed

  datatype Result = Ok(status: Status) | Err(error: Error)

  /** A credential put into the token store, and the session whose outcome brought it. */
  datatype Stored = Stored(engine: string, credential: string, session: Id)

  /**
    The registry. `records` are all session objects ever made, `byId` the registered ones, `flights` the
    starts still awaited. The last three are history: failed starts, the engine each attempt was made
    for, and how often each session's adapter was asked to submit.
  */
  datatype Registry = Registry(
    records: map<Id, Session>, byId: set<Id>, byEngine: map<string, Id>, starting: map<string, Reservation>,
    flights: map<Id, Flight>, cancelled: set<Id>, failed: set<Id>, engineOf: map<Id, string>, driven: multiset<Id>)
  {
    ghost predicate IsPending(s: Id) { s in byId && s in records && records[s].status.Pending? }

    /** An engine's entry is its one pending session, and it has none while one starts. */
    ghost predicate Indexed() {
      && byId <= records.Keys
      && (forall e | e in byEngine :: IsPending(byEngine[e]) && records[byEngine[e]].engine == e)
      && (forall s | IsPending(s) :: Lookup(byEngine, records[s].engine) == Some(s))
      && (forall e | e in starting :: e !in byEngine)
    }

    ghost predicate HeldByStart(h: Id) {
      h in engineOf && engineOf[h] in starting && starting[engineOf[h]].handle == h
    }

    /** No child is forgotten: it was killed, it never started, or somebody still answers for it. */
    ghost predicate Reachable() {
      forall h | h in engineOf :: h in cancelled || h in failed || HeldByStart(h) || h in byId
    }

    /** Reservations, awaited starts and sessions belong to the attempts they came from. */
    ghost predicate Linked() {
      && cancelled <= engineOf.Keys && failed <= engineOf.Keys
      && (forall e | e in starting :: starting[e].handle in flights && flights[starting[e].handle].engine == e)
      && (forall h | h in flights :: h !in records && h !in failed && Lookup(engineOf, h) == Some(flights[h].engine))
      && (forall s | s in records :: Lookup(engineOf, s) == Some(records[s].engine))
    }

    /** No adapter is driven twice, and a session still open to a submission was not driven at all. */
    ghost predicate DrivenOnce() {
      && (forall s :: driven[s] <= 1 && (driven[s] > 0 ==> s in records))
      && (forall s :: IsPending(s) && !records[s].submitting ==> driven[s] == 0)
    }

    ghost predicate Valid() { Indexed() && Reachable() && Linked() && DrivenOnce() }

    /** Nothing registered as pending has had its child killed. */
    ghost predicate Live() {
      && (forall s | IsPending(s) :: s !in cancelled)
      && forall e | e in starting :: starting[e].handle !in cancelled
    }
  }

  function Disposed(r: Registry, s: Id, status: Status): Registry
    requires s in r.records
  {
    var session := r.records[s];
    r.(records := r.records[s := session.(status := status)],
       byId := r.byId - {s},
       byEngine := if Lookup(r.byEngine, session.engine) == Some(s) then r.byEngine - {session.engine} else r.byEngine,
       cancelled := r.cancelled + {s})
  }

  /** The engine's reservation is taken away and its child killed. */
  function Unreserved(r: Registry, engine: string): Registry {
    if engine in r.starting then
      r.(starting := r.starting - {engine}, cancelled := r.cancelled + {r.starting[engine].handle})
    else r
  }

  function Freed(r: Registry, engine: string): Registry {
    if engine in r.byEngine && r.byEngine[engine] in r.byId && r.byEngine[engine] in r.records then
      Disposed(r, r.byEngine[engine], Cancelled)
    else r
  }

  function Reserved(r: Registry, engine: string, h: Id, waits: bool, generation: Option<string>): Registry {
    r.(starting := r.starting[engine := Reservation(h, generation)],
       flights := r.flights[h := Flight(engine, waits, generation)],
       engineOf := r.engineOf[h := engine])
  }

  /** A start is over: its own reservation goes, another one's stays. */
  function Landed(r: Registry, h: Id): Registry
    requires h in r.flights
  {
    var e := r.flights[h].engine;
    r.(flights := r.flights - {h},
       starting := if e in r.starting && r.starting[e].handle == h then r.starting - {e} else r.starting)
  }

  predicate Taken(r: Registry, engine: string) { engine in r.starting || engine in r.byEngine }

  function Registered(r: Registry, h: Id, f: Flight): Registry {
    r.(records := r.records[h := Session(f.engine, Pending, f.waits, false, f.generation)],
       byId := r.byId + {h}, byEngine := r.byEngine[f.engine := h])
  }

  function Resolved(r: Registry, h: Id): Registry
    requires h in r.flights
  {
    var landed := Landed(r, h);
    if Taken(landed, r.flights[h].engine) then landed.(cancelled := landed.cancelled + {h})
    else Registered(landed, h, r.flights[h])
  }

  function Rejected(r: Registry, h: Id): Registry
    requires h in r.flights
  {
    Landed(r, h).(failed := r.failed + {h})
  }

  function Driving(r: Registry, s: Id): Registry
    requires s in r.records
  {
    r.(records := r.records[s := r.records[s].(submitting := true)], driven := r.driven + multiset{s})
  }

  /** A pending session concludes but stays registered, and its engine is free again. */
  function Concluded(r: Registry, s: Id, status: Status): Registry
    requires s in r.records
  {
    var session := r.records[s];
    r.(records := r.records[s := session.(status := status)],
       byEngine := if Lookup(r.byEngine, session.engine) == Some(s) then r.byEngine - {session.engine} else r.byEngine)
  }

  function Undriven(r: Registry, s: Id): Registry
    requires s in r.records
  {
    r.(records := r.records[s := r.records[s].(submitting := false)])
  }

  lemma DisposedIndexed(r: Registry, s: Id, status: Status)
    requires r.Indexed() && s in r.byId
    ensures Disposed(r, s, status).Indexed()
  {
    var d := Disposed(r, s, status);
    forall e | e in d.byEngine ensures d.IsPending(d.byEngine[e]) && d.records[d.byEngine[e]].engine == e {
      assert r.IsPending(r.byEngine[e]) && r.byEngine[e] == d.byEngine[e];
      assert d.byEngine[e] != s;
    }
    forall t | d.IsPending(t) ensures Lookup(d.byEngine, d.records[t].engine) == Some(t) {
      assert r.IsPending(t) && t != s;
    }
  }

  lemma DisposedLinked(r: Registry, s: Id, status: Status)
    requires r.Reachable() && r.Linked() && s in r.byId && s in r.records
    ensures Disposed(r, s, status).Reachable() && Disposed(r, s, status).Linked()
  {
  }

  lemma DisposedLive(r: Registry, s: Id, status: Status)
    requires r.Linked() && r.Live() && s in r.byId && s in r.records
    ensures Disposed(r, s, status).Live()
  {
  }

  lemma DisposedKeeps(r: Registry, s: Id, status: Status)
    requires r.Valid() && s in r.byId
    ensures Disposed(r, s, status).Valid() && (r.Live() ==> Disposed(r, s, status).Live())
  {
    DisposedIndexed(r, s, status);
    DisposedLinked(r, s, status);
    if r.Live() {
      DisposedLive(r, s, status);
    }
  }

  lemma UnreservedReachable(r: Registry, engine: string)
    requires r.Reachable()
    ensures Unreserved(r, engine).Reachable()
  {
    var u := Unreserved(r, engine);
    forall h | h in u.engineOf && h !in u.cancelled && h !in u.failed && h !in u.byId ensures u.HeldByStart(h) {
      assert r.HeldByStart(h);
    }
  }

  lemma UnreservedKeeps(r: Registry, engine: string)
    requires r.Valid()
    ensures Unreserved(r, engine).Valid() && (r.Live() ==> Unreserved(r, engine).Live())
  {
    UnreservedReachable(r, engine);
  }

  lemma ReservedIndexed(r: Registry, engine: string, h: Id, waits: bool, generation: Option<string>)
    requires r.Indexed() && !Taken(r, engine)
    ensures Reserved(r, engine, h, waits, generation).Indexed()
  {
  }

  lemma ReservedReachable(r: Registry, engine: string, h: Id, waits: bool, generation: Option<string>)
    requires r.Reachable() && !Taken(r, engine) && h !in r.engineOf
    ensures Reserved(r, engine, h, waits, generation).Reachable()
  {
    var d := Reserved(r, engine, h, waits, generation);
    forall k | k in d.engineOf && k !in d.cancelled && k !in d.failed && k !in d.byId ensures d.HeldByStart(k) {
      assert k == h || r.HeldByStart(k);
    }
  }

  lemma ReservedLinked(r: Registry, engine: string, h: Id, waits: bool, generation: Option<string>)
    requires r.Linked() && h !in r.engineOf
    ensures Reserved(r, engine, h, waits, generation).Linked()
  {
  }

  lemma ReservedKeeps(r: Registry, engine: string, h: Id, waits: bool, generation: Option<string>)
    requires r.Valid() && !Taken(r, engine) && h !in r.engineOf
    ensures Reserved(r, engine, h, waits, generation).Valid()
    ensures r.Live() ==> Reserved(r, engine, h, waits, generation).Live()
  {
    ReservedIndexed(r, engine, h, waits, generation);
    ReservedReachable(r, engine, h, waits, generation);
    ReservedLinked(r, engine, h, waits, generation);
  }

  lemma LandedKeeps(r: Registry, h: Id)
    requires r.Indexed() && r.Linked() && h in r.flights
    ensures Landed(r, h).Indexed() && Landed(r, h).Linked()
    ensures forall e | e in Landed(r, h).starting :: Landed(r, h).starting[e].handle != h
  {
  }

  lemma LandedReachable(r: Registry, h: Id)
    requires r.Reachable() && r.Linked() && h in r.flights
    ensures forall k | k in r.engineOf && k != h ::
      k in r.cancelled || k in r.failed || Landed(r, h).HeldByStart(k) || k in r.byId
  {
    forall k | k in r.engineOf && k != h && r.HeldByStart(k) ensures Landed(r, h).HeldByStart(k) {
    }
  }

  lemma RegisteredKeeps(r: Registry, h: Id, f: Flight)
    requires r.Indexed() && r.Linked() && h !in r.records && h !in r.flights
    requires !Taken(r, f.engine) && Lookup(r.engineOf, h) == Some(f.engine)
    ensures Registered(r, h, f).Indexed() && Registered(r, h, f).Linked()
  {
  }

  lemma RegisteredDriven(r: Registry, h: Id, f: Flight)
    requires r.DrivenOnce() && h !in r.records
    ensures Registered(r, h, f).DrivenOnce()
  {
  }

  lemma ResolvedReachable(r: Registry, h: Id)
    requires r.Reachable() && r.Linked() && h in r.flights
    ensures Resolved(r, h).Reachable()
  {
    LandedReachable(r, h);
  }

  lemma ResolvedIndexes(r: Registry, h: Id)
    requires r.Indexed() && r.Linked() && h in r.flights
    ensures Resolved(r, h).Indexed() && Resolved(r, h).Linked()
  {
    LandedKeeps(r, h);
    var landed, f := Landed(r, h), r.flights[h];
    if !Taken(landed, f.engine) {
      RegisteredKeeps(landed, h, f);
    } else {
      SameButKilled(landed, h);
    }
  }

  lemma SameButKilled(r: Registry, h: Id)
    requires r.Indexed() && r.Linked() && h in r.engineOf
    ensures r.(cancelled := r.cancelled + {h}).Indexed() && r.(cancelled := r.cancelled + {h}).Linked()
  {
  }

  lemma ResolvedOnce(r: Registry, h: Id)
    requires r.DrivenOnce() && h in r.flights && h !in r.records
    ensures Resolved(r, h).DrivenOnce()
  {
    var landed, f := Landed(r, h), r.flights[h];
    if !Taken(landed, f.engine) {
      RegisteredDriven(landed, h, f);
    }
  }

  lemma ResolvedLive(r: Registry, h: Id)
    requires r.Live() && h in r.flights && h !in r.records && h !in r.cancelled
    requires forall e | e in Landed(r, h).starting :: Landed(r, h).starting[e].handle != h
    ensures Resolved(r, h).Live()
  {
    var d := Resolved(r, h);
    assert forall s | d.IsPending(s) :: s == h || r.IsPending(s);
    assert !d.IsPending(h) || d.cancelled == r.cancelled;
  }

  /** A start that comes back is registered or killed; if killed starts never come back, it is not a dead one. */
  lemma ResolvedKeeps(r: Registry, h: Id)
    requires r.Valid() && h in r.flights
    ensures Resolved(r, h).Valid()
    ensures r.Live() && h !in r.cancelled ==> Resolved(r, h).Live()
  {
    LandedKeeps(r, h);
    assert h !in r.records;
    hide Registry.Indexed, Registry.Linked, Registry.Reachable, Registry.DrivenOnce, Registry.Live;
    ResolvedReachable(r, h);
    ResolvedIndexes(r, h);
    ResolvedOnce(r, h);
    if r.Live() && h !in r.cancelled {
      ResolvedLive(r, h);
    }
  }

  lemma RejectedKeeps(r: Registry, h: Id)
    requires r.Valid() && h in r.flights
    ensures Rejected(r, h).Valid() && (r.Live() ==> Rejected(r, h).Live())
  {
    LandedKeeps(r, h);
    LandedReachable(r, h);
  }

  /** The submission mark is in nobody else's way. */
  lemma MarkedKeeps(r: Registry, s: Id, session: Session)
    requires r.Indexed() && r.Linked() && s in r.records && session == r.records[s].(submitting := session.submitting)
    ensures r.(records := r.records[s := session]).Indexed() && r.(records := r.records[s := session]).Linked()
    ensures forall t :: r.(records := r.records[s := session]).IsPending(t) <==> r.IsPending(t)
  {
  }

  lemma DrivingOnce(r: Registry, s: Id)
    requires r.DrivenOnce() && r.IsPending(s) && !r.records[s].submitting
    ensures Driving(r, s).DrivenOnce()
  {
  }

  lemma DrivingKeeps(r: Registry, s: Id)
    requires r.Valid() && r.IsPending(s) && !r.records[s].submitting
    ensures Driving(r, s).Valid() && (r.Live() ==> Driving(r, s).Live())
  {
    MarkedKeeps(r, s, r.records[s].(submitting := true));
    DrivingOnce(r, s);
    assert forall t :: Driving(r, s).IsPending(t) <==> r.IsPending(t);
    hide Registry.Indexed, Registry.Linked, Registry.DrivenOnce, Registry.IsPending;
    SameIndexes(r.(records := Driving(r, s).records), Driving(r, s));
  }

  /** What the counter of submissions does not touch. */
  lemma SameIndexes(a: Registry, b: Registry)
    requires b == a.(driven := b.driven)
    ensures (a.Indexed() ==> b.Indexed()) && (a.Linked() ==> b.Linked())
  {
  }

  lemma UndrivenKeeps(r: Registry, s: Id)
    requires r.Valid() && s in r.records && !r.IsPending(s)
    ensures Undriven(r, s).Valid() && (r.Live() ==> Undriven(r, s).Live())
  {
    MarkedKeeps(r, s, r.records[s].(submitting := false));
  }

  lemma ConcludedIndexed(r: Registry, s: Id, status: Status)
    requires r.Indexed() && r.IsPending(s) && !status.Pending?
    ensures Concluded(r, s, status).Indexed()
  {
    var d := Concluded(r, s, status);
    forall e | e in d.byEngine ensures d.IsPending(d.byEngine[e]) && d.records[d.byEngine[e]].engine == e {
      assert r.IsPending(r.byEngine[e]);
    }
    forall t | d.IsPending(t) ensures Lookup(d.byEngine, d.records[t].engine) == Some(t) {
      assert r.IsPending(t) && t != s;
    }
  }

  lemma ConcludedKeeps(r: Registry, s: Id, status: Status)
    requires r.Valid() && r.IsPending(s) && !status.Pending?
    ensures Concluded(r, s, status).Valid() && (r.Live() ==> Concluded(r, s, status).Live())
  {
    ConcludedIndexed(r, s, status);
    ConcludedLinked(r, s, status);
    ConcludedOnce(r, s, status);
    hide Registry.Indexed, Registry.Reachable, Registry.Linked, Registry.DrivenOnce, Registry.Live;
  }

  lemma ConcludedOnce(r: Registry, s: Id, status: Status)
    requires r.DrivenOnce() && r.IsPending(s) && !status.Pending?
    ensures Concluded(r, s, status).DrivenOnce() && (r.Live() ==> Concluded(r, s, status).Live())
  {
  }

  lemma ConcludedLinked(r: Registry, s: Id, status: Status)
    requires r.Reachable() && r.Linked() && s in r.records
    ensures Concluded(r, s, status).Reachable() && Concluded(r, s, status).Linked()
  {
  }

  /** The slot of an engine after a newer attempt has pushed out its session and its reservation. */
  function Superseding(r: Registry, engine: string): Registry {
    Unreserved(Freed(r, engine), engine)
  }

  /** The private generations the caller of a new attempt is told about, in order. */
  function SupersededGenerations(r: Registry, engine: string): seq<string> {
    (if engine in r.byEngine && r.byEngine[engine] in r.records && r.records[r.byEngine[engine]].generation.Some?
       then [r.records[r.byEngine[engine]].generation.value] else []) +
    (if engine in r.starting && r.starting[engine].generation.Some? then [r.starting[engine].generation.value] else [])
  }

  lemma SupersedingKeeps(r: Registry, engine: string)
    requires r.Valid()
    ensures Superseding(r, engine).Valid() && !Taken(Superseding(r, engine), engine)
    ensures engine !in Freed(r, engine).byEngine
    ensures r.Live() ==> Superseding(r, engine).Live()
  {
    if engine in r.byEngine {
      assert r.IsPending(r.byEngine[engine]);
      DisposedKeeps(r, r.byEngine[engine], Cancelled);
    }
    UnreservedKeeps(Freed(r, engine), engine);
  }

  /** What a submission's return may do: nothing at all unless its session is still registered and pending. */
  function Submitted(r: Registry, s: Id, success: bool): Registry
    requires s in r.records
  {
    if !(s in r.byId && r.records[s].status.Pending?) then Undriven(r, s)
    else if success then
      var done := Concluded(r, s, Authorized);
      Undriven(done.(cancelled := done.cancelled + {s}), s)
    else Undriven(Disposed(r, s, Failed), s)
  }

  /** The session is out of the registry with its last status, its child is killed, and it holds its engine no more. */
  lemma DisposedMeans(r: Registry, s: Id, status: Status)
    requires s in r.records
    ensures
      var d, session := Disposed(r, s, status), r.records[s];
      && d.records == r.records[s := session.(status := status)]
      && d.byId == r.byId - {s} && d.cancelled == r.cancelled + {s}
      && d.byEngine == (
           if Lookup(r.byEngine, session.engine) == Some(s) then r.byEngine - {session.engine} else r.byEngine)
      && d.starting == r.starting && d.flights == r.flights
  {
  }

  /**
    What becomes of a session whose submission returned: one that is still pending is authorized and stays registered,
    or fails and goes; either way its child is killed and its engine is free. Another one keeps its status.
  */
  lemma SubmittedMeans(r: Registry, s: Id, success: bool)
    requires r.Indexed() && s in r.records
    ensures
      var d, session, ended := Submitted(r, s, success), r.records[s], r.IsPending(s);
      var status := if !ended then session.status else if success then Authorized else Failed;
      && d.records == r.records[s := session.(submitting := false, status := status)]
      && d.byId == (if ended && !success then r.byId - {s} else r.byId)
      && d.byEngine == (if ended then r.byEngine - {session.engine} else r.byEngine)
      && d.cancelled == (if ended then r.cancelled + {s} else r.cancelled)
      && d.starting == r.starting && d.flights == r.flights
  {
    assert r.IsPending(s) ==> Lookup(r.byEngine, r.records[s].engine) == Some(s);
  }

  /** A self-completing flow that concludes stays registered with the status it earned, and frees its engine. */
  lemma ConcludedMeans(r: Registry, s: Id, status: Status)
    requires r.Indexed() && r.IsPending(s)
    ensures
      var d, session := Concluded(r, s, status), r.records[s];
      && d.records == r.records[s := session.(status := status)] && d.byEngine == r.byEngine - {session.engine}
      && d.byId == r.byId && d.cancelled == r.cancelled && d.starting == r.starting && d.flights == r.flights
  {
    assert Lookup(r.byEngine, r.records[s].engine) == Some(s);
  }

  /**
    What a new start does: its engine is reserved for it, and the pending session and the earlier reservation of that
    engine are gone and their children killed. No other engine and no other session notices.
  */
  lemma CreatedMeans(r: Registry, engine: string, h: Id, waits: bool, generation: Option<string>)
    requires r.Indexed()
    ensures
      var d := Reserved(Superseding(r, engine), engine, h, waits, generation);
      && d.flights == r.flights[h := Flight(engine, waits, generation)]
      && d.starting == r.starting[engine := Reservation(h, generation)] && d.byEngine == r.byEngine - {engine}
      && d.engineOf == r.engineOf[h := engine]
      && d.cancelled == r.cancelled
           + (if engine in r.byEngine then {r.byEngine[engine]} else {})
           + (if engine in r.starting then {r.starting[engine].handle} else {})
      && if engine in r.byEngine then
           var pushed := r.byEngine[engine];
           && pushed in r.records && d.byId == r.byId - {pushed}
           && d.records == r.records[pushed := r.records[pushed].(status := Cancelled)]
         else
           d.records == r.records && d.byId == r.byId
  {
    if engine in r.byEngine {
      assert r.IsPending(r.byEngine[engine]) && r.records[r.byEngine[engine]].engine == engine;
    }
  }

  /**
    What a start that comes back does: its own reservation is gone, and it is registered as it was asked for, or, if the
    engine went to another one meanwhile, only killed.
  */
  lemma ResolvedMeans(r: Registry, h: Id)
    requires h in r.flights
    ensures
      var d, f := Resolved(r, h), r.flights[h];
      var own := f.engine in r.starting && r.starting[f.engine].handle == h;
      && d.flights == r.flights - {h} && d.starting == (if own then r.starting - {f.engine} else r.starting)
      && (Taken(Landed(r, h), f.engine) <==> f.engine in r.byEngine || (f.engine in r.starting && !own))
      && if f.engine !in r.byEngine && (f.engine in r.starting ==> own) then
           && d.records == r.records[h := Session(f.engine, Pending, f.waits, false, f.generation)]
           && d.byId == r.byId + {h} && d.byEngine == r.byEngine[f.engine := h] && d.cancelled == r.cancelled
         else
           && d.records == r.records && d.byId == r.byId && d.byEngine == r.byEngine
           && d.cancelled == r.cancelled + {h}
  {
  }

  lemma KilledKeeps(r: Registry, s: Id)
    requires r.Valid() && !r.IsPending(s) && s in r.records
    ensures r.(cancelled := r.cancelled + {s}).Valid() && (r.Live() ==> r.(cancelled := r.cancelled + {s}).Live())
  {
    var d := r.(cancelled := r.cancelled + {s});
    assert d.Indexed() && d.DrivenOnce() by {
      assert forall t :: d.IsPending(t) <==> r.IsPending(t);
    }
    hide Registry.Indexed, Registry.DrivenOnce;
  }

  /** An engine has at most one child that is neither killed nor finished. */
  lemma OneChildAnEngine(r: Registry, g: Id, h: Id)
    requires r.Valid() && Lookup(r.engineOf, g) == Lookup(r.engineOf, h) != None
    requires forall k | k in {g, h} :: k !in r.cancelled && k !in r.failed && (k in r.byId ==> r.IsPending(k))
    ensures g == h
  {
    var e := r.engineOf[g];
    assert r.IsPending(g) ==> Lookup(r.byEngine, e) == Some(g);
    assert r.IsPending(h) ==> Lookup(r.byEngine, e) == Some(h);
    assert g in {g, h} && h in {g, h};
  }

  datatype Event =
    | Creating(engine: string, waits: bool, generation: Option<string>)
    | StartBack(handle: Id, success: bool)
    | Submitting(engine: string, session: Id)
    | SubmitBack(session: Id, success: bool, credential: Option<string>)
    | WaitBack(session: Id, success: bool, credential: Option<string>)
    | Cancelling(engine: string, session: Id)
    | Expiring(session: Id)
    | Resetting

  class Sessions {
    var records: map<Id, Session>
    var byId: set<Id>
    var byEngine: map<string, Id>
    var starting: map<string, Reservation>
    var flights: map<Id, Flight>
    var cancelled: set<Id>
    var tokens: seq<Stored>
    var next: Id
    ghost var failed: set<Id>
    ghost var engineOf: map<Id, string>
    ghost var driven: multiset<Id>

    ghost function State(): Registry
      reads this
    {
      Registry(records, byId, byEngine, starting, flights, cancelled, failed, engineOf, driven)
    }

    ghost predicate Valid()
      reads this
    {
      State().Valid() && forall h | h in engineOf :: h < next
    }

    constructor ()
      ensures Valid() && State().Live() && tokens == []
      ensures State() == Registry(map[], {}, map[], map[], map[], {}, {}, map[], multiset{})
    {
      records, byId, byEngine, starting, flights, cancelled := map[], {}, map[], map[], map[], {};
      tokens, next := [], 0;
      failed, engineOf, driven := {}, map[], multiset{};
    }

    /** Drop a session and kill whatever it was holding. */
    method Dispose(s: Id, status: Status)
      requires Valid() && s in byId && s in records
      modifies this`records, this`byId, this`byEngine, this`cancelled
      ensures Valid() && State() == Disposed(old(State()), s, status) && (old(State()).Live() ==> State().Live())
    {
      hide Registry.Indexed, Registry.Linked, Registry.Reachable, Registry.DrivenOnce, Registry.Live;
      DisposedKeeps(State(), s, status);
      var session := records[s];
      records := records[s := session.(status := status)];
      cancelled := cancelled + {s};
      byId := byId - {s};
      if Lookup(byEngine, session.engine) == Some(s) {
        byEngine := byEngine - {session.engine};
      }
    }

    /** Push out the pending session of an engine, telling the caller which private generation it had. */
    method Free(engine: string) returns (superseded: seq<string>)
      requires Valid()
      modifies this`records, this`byId, this`byEngine, this`cancelled
      ensures Valid() && State() == Freed(old(State()), engine) && (old(State()).Live() ==> State().Live())
      ensures superseded + SupersededGenerations(State(), engine) == SupersededGenerations(old(State()), engine)
    {
      assert engine in byEngine ==> State().IsPending(byEngine[engine]) && records[byEngine[engine]].engine == engine;
      hide Registry.Indexed, Registry.Linked, Registry.Reachable, Registry.DrivenOnce, Registry.Live;
      superseded := [];
      if engine in byEngine && byEngine[engine] in byId {
        var existing := byEngine[engine];
        if records[existing].generation.Some? {
          superseded := [records[existing].generation.value];
        }
        Dispose(existing, Cancelled);
      }
    }

    /** Take away the reservation of a start that has not come back, and kill its child now. */
    method Unreserve(engine: string) returns (superseded: seq<string>)
      requires Valid()
      modifies this`starting, this`cancelled
      ensures Valid() && State() == Unreserved(old(State()), engine) && (old(State()).Live() ==> State().Live())
      ensures engine !in old(byEngine) ==> superseded == SupersededGenerations(old(State()), engine)
    {
      hide Registry.Indexed, Registry.Linked, Registry.Reachable, Registry.DrivenOnce, Registry.Live;
      UnreservedKeeps(State(), engine);
      superseded := [];
      if engine in starting {
        var reservation := starting[engine];
        starting := starting - {engine};
        if reservation.generation.Some? {
          superseded := [reservation.generation.value];
        }
        cancelled := cancelled + {reservation.handle};
      }
    }

    /** A pending session concludes, and its engine is free for the next attempt. */
    method Conclude(s: Id, status: Status)
      requires Valid() && State().IsPending(s) && !status.Pending?
      modifies this`records, this`byEngine
      ensures Valid() && State() == Concluded(old(State()), s, status) && (old(State()).Live() ==> State().Live())
    {
      hide Registry.Indexed, Registry.Linked, Registry.Reachable, Registry.DrivenOnce, Registry.Live;
      ConcludedKeeps(State(), s, status);
      var session := records[s];
      records := records[s := session.(status := status)];
      if Lookup(byEngine, session.engine) == Some(s) {
        byEngine := byEngine - {session.engine};
      }
    }

    /** Kill the child of a session that is no longer pending. */
    method Kill(s: Id)
      requires Valid() && s in records && !State().IsPending(s)
      modifies this`cancelled
      ensures Valid() && State() == old(State()).(cancelled := old(cancelled) + {s})
      ensures old(State()).Live() ==> State().Live()
    {
      hide Registry.Indexed, Registry.Linked, Registry.Reachable, Registry.DrivenOnce, Registry.Live;
      KilledKeeps(State(), s);
      cancelled := cancelled + {s};
    }

    /** The submission is no longer running. */
    method Unmark(s: Id)
      requires Valid() && s in records && !State().IsPending(s)
      modifies this`records
      ensures Valid() && State() == Undriven(old(State()), s) && (old(State()).Live() ==> State().Live())
    {
      hide Registry.Indexed, Registry.Linked, Registry.Reachable, Registry.DrivenOnce, Registry.Live;
      UndrivenKeeps(State(), s);
      records := records[s := records[s].(submitting := false)];
    }

    /** The first part of a start, up to the await: supersede what holds the engine, then reserve it. */
    method Create(engine: string, waits: bool, generation: Option<string>) returns (h: Id, superseded: seq<string>)
      requires Valid()
      modifies this
      ensures Valid() && (old(State()).Live() ==> State().Live()) && tokens == old(tokens)
      ensures h == old(next) && next == h + 1
      ensures State() == Reserved(Superseding(old(State()), engine), engine, h, waits, generation)
      ensures superseded == SupersededGenerations(old(State()), engine)
    {
      hide Registry.Indexed, Registry.Linked, Registry.Reachable, Registry.DrivenOnce, Registry.Live;
      SupersedingKeeps(State(), engine);
      superseded := Free(engine);
      var more := Unreserve(engine);
      superseded := superseded + more;
      h := next;
      next := next + 1;
      ReservedKeeps(State(), engine, h, waits, generation);
      starting := starting[engine := Reservation(h, generation)];
      flights := flights[h := Flight(engine, waits, generation)];
      engineOf := engineOf[h := engine];
    }

    /** The rest of a start, when it succeeds: register it, unless the engine was taken in the meantime. */
    method StartResolved(h: Id) returns (r: Result)
      requires Valid() && h in flights
      modifies this
      ensures Valid() && State() == Resolved(old(State()), h) && tokens == old(tokens)
      ensures old(State()).Live() && h !in old(cancelled) ==> State().Live()
      ensures r == if Taken(Landed(old(State()), h), old(flights)[h].engine) then Err(Superseded) else Ok(Pending)
    {
      hide Registry.Indexed, Registry.Linked, Registry.Reachable, Registry.DrivenOnce, Registry.Live;
      ResolvedKeeps(State(), h);
      var f := flights[h];
      flights := flights - {h};
      if f.engine in starting && starting[f.engine].handle == h {
        starting := starting - {f.engine};
      }
      if f.engine in starting || f.engine in byEngine {
        cancelled := cancelled + {h};
        return Err(Superseded);
      }
      records := records[h := Session(f.engine, Pending, f.waits, false, f.generation)];
      byId := byId + {h};
      byEngine := byEngine[f.engine := h];
      return Ok(Pending);
    }

    /** The rest of a start, when it throws. Whoever lost the slot is told so, not why the child died. */
    method StartRejected(h: Id) returns (r: Result)
      requires Valid() && h in flights
      modifies this
      ensures Valid() && State() == Rejected(old(State()), h)
      ensures (old(State()).Live() ==> State().Live()) && tokens == old(tokens)
      ensures r == if old(State()).HeldByStart(h) then Err(StartFailed) else Err(Superseded)
    {
      assert Lookup(engineOf, h) == Some(flights[h].engine);
      hide Registry.Indexed, Registry.Linked, Registry.Reachable, Registry.DrivenOnce, Registry.Live;
      RejectedKeeps(State(), h);
      var f := flights[h];
      r := Err(Superseded);
      if f.engine in starting && starting[f.engine].handle == h {
        starting := starting - {f.engine};
        r := Err(StartFailed);
      }
      flights := flights - {h};
      failed := failed + {h};
    }

    /** From here on the adapter is being driven. */
    method Drive(s: Id)
      requires Valid() && State().IsPending(s) && !records[s].submitting
      modifies this`records, this`driven
      ensures Valid() && State() == Driving(old(State()), s)
      ensures old(driven)[s] == 0 && (old(State()).Live() ==> State().Live())
    {
      assert driven[s] == 0;
      hide Registry.Indexed, Registry.Linked, Registry.Reachable, Registry.DrivenOnce, Registry.Live;
      DrivingKeeps(State(), s);
      records := records[s := records[s].(submitting := true)];
      driven := driven + multiset{s};
    }

    /** A submission up to its await: an answer at once, or the adapter is driven. */
    method SubmitBegun(engine: string, s: Id) returns (answer: Option<Result>)
      requires Valid()
      modifies this`records, this`driven
      ensures Valid() && (old(State()).Live() ==> State().Live())
      ensures answer.None? <==>
        && old(State()).IsPending(s) && old(records)[s].engine == engine
        && !old(records)[s].waits && !old(records)[s].submitting
      ensures answer.None? ==>
        && State() == Driving(old(State()), s) && old(driven)[s] == 0
        && s in old(records) && records == old(records)[s := old(records)[s].(submitting := true)]
      ensures answer.Some? ==> State() == old(State())
      ensures answer == Some(Ok(Authorized)) <==>
        s in byId && s in records && records[s].engine == engine && records[s].status.Authorized? && !records[s].waits
    {
      hide Registry.Indexed, Registry.Linked, Registry.Reachable, Registry.DrivenOnce, Registry.Live;
      if s !in byId || s !in records || records[s].engine != engine {
        return Some(Err(UnknownSession));
      }
      if records[s].status.Authorized? && !records[s].waits {
        return Some(Ok(Authorized));
      }
      if !records[s].status.Pending? {
        return Some(Err(NotPending));
      }
      if records[s].waits {
        return Some(Err(NotSupported));
      }
      if records[s].submitting {
        return Some(Err(SubmissionRunning));
      }
      Drive(s);
      return None;
    }

    /**
      A submission after its await. The credential is stored, and the session authorized, exactly when
      the adapter succeeded and the session is still registered and pending.
    */
    method SubmitReturned(s: Id, success: bool, credential: Option<string>) returns (r: Result)
      requires Valid() && s in records && records[s].submitting
      modifies this
      ensures Valid() && State() == Submitted(old(State()), s, success) && (old(State()).Live() ==> State().Live())
      ensures tokens == old(tokens) +
        if old(State()).IsPending(s) && success && credential.Some?
        then [Stored(old(records)[s].engine, credential.value, s)] else []
      ensures r == Ok(Authorized) <==> old(State()).IsPending(s) && success
      ensures r == Ok(Failed) <==> old(State()).IsPending(s) && !success
      ensures r == Err(Superseded) <==> !old(State()).IsPending(s)
    {
      hide Registry.Indexed, Registry.Linked, Registry.Reachable, Registry.DrivenOnce, Registry.Live;
      if s !in byId || !records[s].status.Pending? {
        Unmark(s);
        return Err(Superseded);
      }
      if success {
        if credential.Some? {
          tokens := tokens + [Stored(records[s].engine, credential.value, s)];
        }
        Conclude(s, Authorized);
        Kill(s);
        r := Ok(Authorized);
      } else {
        Dispose(s, Failed);
        r := Ok(Failed);
      }
      Unmark(s);
    }

    /**
      A self-completing flow comes to its end. Its session concludes only if it is still registered and
      pending, but a credential it returns is stored in any case.
    */
    method Settled(s: Id, success: bool, credential: Option<string>)
      requires Valid() && s in records && records[s].waits
      modifies this`records, this`byEngine, this`tokens
      ensures Valid() && (old(State()).Live() ==> State().Live())
      ensures State() == if old(State()).IsPending(s)
        then Concluded(old(State()), s, if success then Authorized else Failed) else old(State())
      ensures tokens == old(tokens) +
        if success && credential.Some? then [Stored(old(records)[s].engine, credential.value, s)] else []
    {
      hide Registry.Indexed, Registry.Linked, Registry.Reachable, Registry.DrivenOnce, Registry.Live;
      if success && credential.Some? {
        tokens := tokens + [Stored(records[s].engine, credential.value, s)];
      }
      if s in byId && records[s].status.Pending? {
        var status := if success then Authorized else Failed;
        Conclude(s, status);
      }
    }

    /** Cancel on request. A concluded session keeps the status it earned. */
    method Cancel(engine: string, s: Id) returns (r: Result)
      requires Valid()
      modifies this`records, this`byId, this`byEngine, this`cancelled
      ensures Valid() && (old(State()).Live() ==> State().Live())
      ensures r == Err(UnknownSession) <==> s !in old(byId) || s !in old(records) || old(records)[s].engine != engine
      ensures r.Err? ==> r.error.UnknownSession? && State() == old(State())
      ensures r.Ok? ==>
        && r.status == (if old(records)[s].status.Pending? then Cancelled else old(records)[s].status)
        && State() == Disposed(old(State()), s, r.status)
    {
      if s !in byId || s !in records || records[s].engine != engine {
        return Err(UnknownSession);
      }
      var status := if records[s].status.Pending? then Cancelled else records[s].status;
      Dispose(s, status);
      return Ok(status);
    }

    /** The lifetime of a session is over. */
    method Expire(s: Id)
      requires Valid()
      modifies this`records, this`byId, this`byEngine, this`cancelled
      ensures Valid() && (old(State()).Live() ==> State().Live())
      ensures State() == if s in old(byId) && s in old(records) then Disposed(old(State()), s, Failed) else old(State())
    {
      if s in byId && s in records {
        Dispose(s, Failed);
      }
    }

    /** Drop every registered session and kill its child. */
    method DropSessions()
      requires Valid()
      modifies this`records, this`byId, this`byEngine, this`cancelled
      ensures Valid() && (old(State()).Live() ==> State().Live())
      ensures byId == {} && byEngine == map[] && old(byId) + old(cancelled) <= cancelled
    {
      assert byId <= records.Keys;
      while byId != {}
        invariant Valid() && (old(State()).Live() ==> State().Live()) && byId <= old(byId) && byId <= records.Keys
        invariant old(cancelled) + (old(byId) - byId) <= cancelled
        decreases |byId|
      {
        hide Registry.Indexed, Registry.Linked, Registry.Reachable, Registry.DrivenOnce, Registry.Live;
        var s :| s in byId;
        Dispose(s, Cancelled);
      }
      assert forall e :: e !in byEngine;
    }

    /** Take every reservation away and kill its child. */
    method DropStarts()
      requires Valid()
      modifies this`starting, this`cancelled
      ensures Valid() && (old(State()).Live() ==> State().Live())
      ensures starting == map[] && old(cancelled) <= cancelled
      ensures forall e | e in old(starting) :: old(starting)[e].handle in cancelled
    {
      hide Registry.Indexed, Registry.Linked, Registry.Reachable, Registry.DrivenOnce, Registry.Live;
      while starting.Keys != {}
        invariant Valid() && (old(State()).Live() ==> State().Live()) && old(cancelled) <= cancelled
        invariant forall e | e in old(starting) ::
          old(starting)[e].handle in cancelled || Lookup(starting, e) == Some(old(starting)[e])
        decreases |starting.Keys|
      {
        var e :| e in starting.Keys;
        var told := Unreserve(e);
      }
    }

    /** Drop everything, and kill every child it held. */
    method Reset()
      requires Valid()
      modifies this`records, this`byId, this`byEngine, this`starting, this`cancelled
      ensures Valid() && (old(State()).Live() ==> State().Live())
      ensures byId == {} && byEngine == map[] && starting == map[]
      ensures old(byId) + old(cancelled) <= cancelled
      ensures forall e | e in old(starting) :: old(starting)[e].handle in cancelled
    {
      DropSessions();
      DropStarts();
    }

    /** One thing that happens to the registry; what cannot happen in this state does not. */
    method Step(e: Event, obedient: bool)
      requires Valid()
      modifies this
      ensures Valid() && (obedient && old(State()).Live() ==> State().Live())
    {
      match e
      case Creating(engine, waits, generation) =>
        var h, told := Create(engine, waits, generation);
      case StartBack(h, success) =>
        if h in flights {
          var r;
          if success && !(obedient && h in cancelled) {
            r := StartResolved(h);
          } else {
            r := StartRejected(h);
          }
        }
      case Submitting(engine, s) =>
        var answer := SubmitBegun(engine, s);
      case SubmitBack(s, success, credential) =>
        if s in records && records[s].submitting {
          var r := SubmitReturned(s, success, credential);
        }
      case WaitBack(s, success, credential) =>
        if s in records && records[s].waits {
          Settled(s, success, credential);
        }
      case Cancelling(engine, s) =>
        var r := Cancel(engine, s);
      case Expiring(s) =>
        Expire(s);
      case Resetting =>
        Reset();
    }

    /**
      Any interleaving: an engine's entry is its one pending session, every child is accounted for, and
      no session's adapter is driven twice. If killed starts never succeed, no pending session is dead.
    */
    method Run(events: seq<Event>, obedient: bool)
      requires Valid()
      modifies this
      ensures State().Indexed() && State().Reachable() && forall s :: driven[s] <= 1
      ensures obedient && old(State()).Live() ==> State().Live()
    {
      var i := 0;
      while i < |events|
        invariant i <= |events| && Valid() && (obedient && old(State()).Live() ==> State().Live())
      {
        Step(events[i], obedient);
        i := i + 1;
      }
      assert State().DrivenOnce();
    }
  }
}
