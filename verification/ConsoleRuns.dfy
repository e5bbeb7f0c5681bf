/** Whole runs of the console hub: any interleaving of starts, stops, reader loops and clients. */
module ConsoleRuns {
  import opened Bytes
  import opened Faults
  import opened SerialConsole
  import opened ConsoleHub

  /** How far a start that fails, or a stop, has come with its `close`. */
  datatype Phase = Begun | Signalled | Ended

  /** An operation that is between two of its critical sections. */
  datatype Flight =
    | Starting(id: string, session: Session, phase: Phase)
    | Stopping(session: Session, phase: Phase)

  ghost function SessionsOf(flights: seq<Flight>, starting: bool): set<Session> {
    set f <- flights | f.Starting? == starting :: f.session
  }

  /** No session is started twice, nor stopped twice. */
  ghost predicate Once(flights: seq<Flight>) {
    forall i, j :: 0 <= i < j < |flights| && flights[i].Starting? == flights[j].Starting? ==>
      flights[i].session != flights[j].session
  }

  /** The sessions that one operation accounts for. */
  ghost function Alone(flight: Flight, starting: bool): set<Session> {
    if flight.Starting? == starting then {flight.session} else {}
  }

  lemma OneMore(flights: seq<Flight>, flight: Flight, starting: bool)
    ensures SessionsOf(flights + [flight], starting) == SessionsOf(flights, starting) + Alone(flight, starting)
    ensures Once(flights) && flight.session !in SessionsOf(flights, flight.Starting?) ==> Once(flights + [flight])
  {
    forall f | f in flights
      ensures f in flights + [flight]
    {
    }
    assert flight in flights + [flight];
  }

  lemma OneLess(flights: seq<Flight>, which: nat, starting: bool)
    requires Once(flights) && which < |flights|
    ensures Once(flights[..which] + flights[which + 1..])
    ensures SessionsOf(flights[..which] + flights[which + 1..], starting)
            == SessionsOf(flights, starting) - Alone(flights[which], starting)
  {
    var left := flights[..which] + flights[which + 1..];
    forall i | 0 <= i < |flights| && i != which
      ensures flights[i] in left
    {
      assert left[if i < which then i else i - 1] == flights[i];
    }
    forall s | s in SessionsOf(flights, starting) - Alone(flights[which], starting)
      ensures s in SessionsOf(left, starting)
    {
      var i :| 0 <= i < |flights| && flights[i].Starting? == starting && flights[i].session == s;
      assert flights[i] in left;
    }
  }

  lemma OneMoved(flights: seq<Flight>, which: nat, flight: Flight, starting: bool)
    requires Once(flights) && which < |flights|
    requires flight.session == flights[which].session && flight.Starting? == flights[which].Starting?
    ensures Once(flights[which := flight])
    ensures SessionsOf(flights[which := flight], starting) == SessionsOf(flights, starting)
  {
    var moved := flights[which := flight];
    forall i | 0 <= i < |flights|
      ensures moved[i] in moved && moved[i].Starting? == flights[i].Starting? && moved[i].session == flights[i].session
    {
    }
    forall s | s in SessionsOf(flights, starting)
      ensures s in SessionsOf(moved, starting)
    {
      var i :| 0 <= i < |flights| && flights[i].Starting? == starting && flights[i].session == s;
      assert moved[i] in moved;
    }
  }

  ghost predicate OnCourse(flight: Flight)
    reads flight.session
  {
    && (flight.phase != Begun ==> flight.session.stopped)
    && (flight.phase == Ended ==> flight.session.upstream == Disconnected)
  }

  /** The flights are exactly the operations the hub counts, each once, and `known` lists every session. */
  ghost predicate Tracked(hub: Hub, known: seq<Session>, flights: seq<Flight>)
    reads hub, set f <- flights :: f.session
  {
    && hub.created == (set s <- known)
    && SessionsOf(flights, true) == hub.starting && SessionsOf(flights, false) == hub.closing
    && Once(flights) && (forall f <- flights :: OnCourse(f))
  }

  ghost function Clients(hub: Hub): set<object>
    reads hub, hub.created
  {
    set s <- hub.created, a <- s.attachments :: a
  }

  /** The hub and each of its sessions are consistent, and no client belongs to two sessions. */
  ghost predicate Sound(hub: Hub)
    reads hub, hub.created, Clients(hub)
  {
    && hub.Valid() && (forall s <- hub.created :: s.Valid())
    && (forall s, t :: s in hub.created && t in hub.created && s != t ==> s.attachments !! t.attachments)
  }

  datatype Event =
    | StartBegin(id: string)
    | StopBegin(id: string)
    | CloseBegin
    | Advance(which: nat, dialled: Option<nat>)
    | Attach(id: string)
    | Output(which: nat, contents: bytes)
    | Lost(which: nat, connection: nat)
    | Reconnected(which: nat, connection: nat)

  /**
   * Under any interleaving the hub forgets a session only when a stop or a
   * failed start is about to close it, so that with none in flight every
   * session that is not listed has neither upstream nor client.
   */
  method Run(hub: Hub, events: seq<Event>) returns (known: seq<Session>, flights: seq<Flight>)
    requires hub.Valid() && hub.created == {}
    modifies hub
    ensures Sound(hub) && Tracked(hub, known, flights)
    ensures flights == [] ==>
              forall s <- hub.created :: !Lists(hub.sessions, s) ==>
                s.upstream == Disconnected && s.attached == null && s.stopped
  {
    known, flights := [], [];
    for k := 0 to |events|
      invariant Sound(hub) && Tracked(hub, known, flights)
      invariant fresh(hub.created) && fresh(Clients(hub))
    {
      known, flights := Perform(hub, known, flights, events[k]);
    }
    if flights == [] {
      assert SessionsOf(flights, true) == {} && SessionsOf(flights, false) == {};
      forall s | s in hub.created && !Lists(hub.sessions, s)
        ensures s.upstream == Disconnected && s.attached == null && s.stopped
      {
        hub.NothingLeaks(s);
      }
    }
  }

  method Perform(hub: Hub, known: seq<Session>, flights: seq<Flight>, event: Event)
    returns (known': seq<Session>, flights': seq<Flight>)
    requires Sound(hub) && Tracked(hub, known, flights)
    modifies hub, hub.created, Clients(hub)
    ensures Sound(hub) && Tracked(hub, known', flights')
    ensures fresh(hub.created - old(hub.created)) && fresh(Clients(hub) - old(Clients(hub)))
  {
    known', flights' := known, flights;
    match event {
      case StartBegin(id) =>
        known', flights' := BeginStart(hub, known, flights, id);
      case StopBegin(id) =>
        flights' := BeginStop(hub, known, flights, id);
      case CloseBegin =>
        flights' := BeginClose(hub, known, flights);
      case Advance(which, dialled) =>
        if which < |flights| {
          InFlight(hub, known, flights, which);
          flights' := Advance(hub, known, flights, which, dialled);
        }
      case Attach(id) =>
        AttachTo(hub, known, flights, id);
      case _ =>
        PerformReader(hub, known, flights, event);
    }
  }

  // ---- the hub's own critical sections

  method BeginStart(hub: Hub, known: seq<Session>, flights: seq<Flight>, id: string)
    returns (known': seq<Session>, flights': seq<Flight>)
    requires Sound(hub) && Tracked(hub, known, flights)
    modifies hub
    ensures Sound(hub) && Tracked(hub, known', flights')
    ensures fresh(hub.created - old(hub.created)) && fresh(Clients(hub) - old(Clients(hub)))
  {
    known', flights' := known, flights;
    var started := StartOne(hub, id);
    if started.Some? {
      var flight := Starting(id, started.value, Begun);
      known', flights' := known + [started.value], flights + [flight];
      OneMore(flights, flight, true);
      OneMore(flights, flight, false);
    }
  }

  method StartOne(hub: Hub, id: string) returns (started: Option<Session>)
    requires Sound(hub)
    modifies hub
    ensures Sound(hub) && Clients(hub) == old(Clients(hub)) && hub.closing == old(hub.closing)
    ensures started.Some? ==>
              && fresh(started.value)
              && hub.created == old(hub.created) + {started.value}
              && hub.starting == old(hub.starting) + {started.value}
    ensures started.None? ==> hub.created == old(hub.created) && hub.starting == old(hub.starting)
  {
    started := hub.StartBegin(id);
  }

  method BeginStop(hub: Hub, ghost known: seq<Session>, flights: seq<Flight>, id: string)
    returns (flights': seq<Flight>)
    requires Sound(hub) && Tracked(hub, known, flights)
    modifies hub`sessions, hub`closing
    ensures Sound(hub) && Tracked(hub, known, flights')
  {
    flights' := flights;
    var stopped := StopOne(hub, id);
    if stopped.Some? {
      var flight := Stopping(stopped.value, Begun);
      flights' := flights + [flight];
      OneMore(flights, flight, true);
      OneMore(flights, flight, false);
    }
  }

  method StopOne(hub: Hub, id: string) returns (stopped: Option<Session>)
    requires Sound(hub)
    modifies hub`sessions, hub`closing
    ensures Sound(hub) && hub.closing == old(hub.closing) + if stopped.Some? then {stopped.value} else {}
    ensures stopped.Some? ==> stopped.value !in old(hub.closing)
  {
    stopped := hub.StopBegin(id);
  }

  method BeginClose(hub: Hub, ghost known: seq<Session>, flights: seq<Flight>) returns (flights': seq<Flight>)
    requires Sound(hub) && Tracked(hub, known, flights)
    modifies hub`sessions, hub`closing
    ensures Sound(hub) && Tracked(hub, known, flights') && hub.sessions == map[]
  {
    var stopped := hub.CloseBegin();
    flights' := AllStopping(flights, stopped);
    AllAreStopping(flights, stopped);
  }

  function AllStopping(flights: seq<Flight>, stopped: seq<Session>): seq<Flight>
    decreases stopped
  {
    if stopped == [] then flights else AllStopping(flights + [Stopping(stopped[0], Begun)], stopped[1..])
  }

  lemma {:induction false} AllAreStopping(flights: seq<Flight>, stopped: seq<Session>)
    requires Once(flights) && forall s <- stopped :: s !in SessionsOf(flights, false)
    requires forall i, j :: 0 <= i < j < |stopped| ==> stopped[i] != stopped[j]
    ensures Once(AllStopping(flights, stopped))
    ensures SessionsOf(AllStopping(flights, stopped), true) == SessionsOf(flights, true)
    ensures SessionsOf(AllStopping(flights, stopped), false) == SessionsOf(flights, false) + set s <- stopped
    ensures forall f <- AllStopping(flights, stopped) :: f in flights || f.phase == Begun
    decreases stopped
  {
    if stopped != [] {
      var flight := Stopping(stopped[0], Begun);
      OneMore(flights, flight, true);
      OneMore(flights, flight, false);
      AllAreStopping(flights + [flight], stopped[1..]);
      assert stopped == [stopped[0]] + stopped[1..];
    }
  }

  // ---- one session moves

  /** A signalled session stays signalled, one that is gone stays gone, and no client comes. */
  twostate predicate Onward(s: Session)
    reads s
  {
    && s.attachments == old(s.attachments)
    && (old(s.stopped) ==> s.stopped && (old(s.upstream) == Disconnected ==> s.upstream == Disconnected))
  }

  /** The next critical section of an operation; `dialled` is the connection a start got, if any. */
  method Advance(hub: Hub, ghost known: seq<Session>, flights: seq<Flight>, which: nat, dialled: Option<nat>)
    returns (flights': seq<Flight>)
    requires Sound(hub) && Tracked(hub, known, flights) && which < |flights|
    modifies hub, flights[which].session, flights[which].session.LiveOne()
    ensures Sound(hub) && Tracked(hub, known, flights')
    ensures hub.created == old(hub.created) && Clients(hub) == old(Clients(hub))
  {
    var flight := flights[which];
    if flight.phase == Ended {
      flights' := Land(hub, known, flights, which);
    } else if flight.Starting? && flight.phase == Begun && dialled.Some? {
      flights' := Dialled(hub, known, flights, which, dialled.value);
    } else {
      flights' := Closing(hub, known, flights, which);
    }
    assert forall s <- hub.created :: s.attachments == old(s.attachments);
  }

  /** A failed start or a stop goes on with its `close`. */
  method Closing(hub: Hub, ghost known: seq<Session>, flights: seq<Flight>, which: nat) returns (flights': seq<Flight>)
    requires Sound(hub) && Tracked(hub, known, flights) && which < |flights| && flights[which].phase != Ended
    modifies flights[which].session`stopped, flights[which].session`upstream, flights[which].session`attached
    modifies flights[which].session`ended, flights[which].session.LiveOne()
    ensures Sound(hub) && Tracked(hub, known, flights')
  {
    hide Sound;
    var flight := flights[which];
    var next := flight.(phase := Next(flight.phase));
    InFlight(hub, known, flights, which);
    OneMoved(flights, which, next, true);
    OneMoved(flights, which, next, false);
    CloseStep(hub, flight.session, flight.phase);
    flights' := flights[which := next];
    forall f | f in flights'
      ensures OnCourse(f)
    {
      assert f == next || (f in flights && old(OnCourse(f)));
    }
  }

  lemma InFlight(hub: Hub, known: seq<Session>, flights: seq<Flight>, which: nat)
    requires Sound(hub) && Tracked(hub, known, flights) && which < |flights|
    ensures flights[which].session in if flights[which].Starting? then hub.starting else hub.closing
    ensures flights[which].session in hub.created && OnCourse(flights[which])
  {
    assert flights[which] in flights;
    assert flights[which].session in SessionsOf(flights, flights[which].Starting?);
  }

  function Next(phase: Phase): Phase {
    if phase == Begun then Signalled else Ended
  }

  /** One of the two steps of a `close`. */
  method CloseStep(hub: Hub, s: Session, phase: Phase)
    requires Sound(hub) && s in hub.starting + hub.closing && phase != Ended && (phase == Signalled ==> s.stopped)
    modifies s`stopped, s`upstream, s`attached, s`ended, s.LiveOne()
    ensures Sound(hub) && Onward(s)
    ensures s.stopped && (phase == Signalled ==> s.upstream == Disconnected)
  {
    hide LastBytes;
    if phase == Begun {
      hub.Signal(s);
    } else {
      hub.CloseSession(s);
    }
  }

  /** The console answered a start. */
  method Dialled(hub: Hub, ghost known: seq<Session>, flights: seq<Flight>, which: nat, connection: nat)
    returns (flights': seq<Flight>)
    requires Sound(hub) && Tracked(hub, known, flights) && which < |flights|
    requires flights[which].Starting? && flights[which].phase == Begun
    modifies hub`starting, flights[which].session`upstream
    ensures Sound(hub) && Tracked(hub, known, flights')
  {
    hide Sound;
    var flight := flights[which];
    InFlight(hub, known, flights, which);
    var ok := InstallOne(hub, flight.session, connection);
    if ok {
      OneLess(flights, which, true);
      OneLess(flights, which, false);
      flights' := flights[..which] + flights[which + 1..];
    } else {
      OneMoved(flights, which, flight.(phase := Ended), true);
      OneMoved(flights, which, flight.(phase := Ended), false);
      flights' := flights[which := flight.(phase := Ended)];
    }
    forall f | f in flights'
      ensures OnCourse(f)
    {
      assert f == flight.(phase := Ended) || (f in flights && old(OnCourse(f)));
    }
  }

  method InstallOne(hub: Hub, s: Session, connection: nat) returns (ok: bool)
    requires Sound(hub) && s in hub.starting
    modifies hub`starting, s`upstream
    ensures Sound(hub) && Onward(s) && ok == !s.stopped
    ensures hub.starting == old(hub.starting) - (if ok then {s} else {})
    ensures !ok ==> s.upstream == Disconnected
  {
    ok := hub.Install(s, connection);
  }

  /** The last step of a failed start, or of a stop. */
  method Land(hub: Hub, ghost known: seq<Session>, flights: seq<Flight>, which: nat) returns (flights': seq<Flight>)
    requires Sound(hub) && Tracked(hub, known, flights) && which < |flights| && flights[which].phase == Ended
    modifies hub`sessions, hub`starting, hub`closing
    ensures Sound(hub) && Tracked(hub, known, flights')
  {
    var flight := flights[which];
    InFlight(hub, known, flights, which);
    OneLess(flights, which, true);
    OneLess(flights, which, false);
    flights' := flights[..which] + flights[which + 1..];
    EndOne(hub, flight);
  }

  method EndOne(hub: Hub, flight: Flight)
    requires Sound(hub) && flight.session in (if flight.Starting? then hub.starting else hub.closing)
             && hub.Gone(flight.session)
    modifies hub`sessions, hub`starting, hub`closing
    ensures Sound(hub)
    ensures hub.starting == old(hub.starting) - Alone(flight, true)
            && hub.closing == old(hub.closing) - Alone(flight, false)
  {
    match flight {
      case Starting(id, s, _) => hub.Drop(id, s);
      case Stopping(s, _) => hub.StopFinish(s);
    }
  }

  method AttachTo(hub: Hub, ghost known: seq<Session>, ghost flights: seq<Flight>, id: string)
    requires Sound(hub) && Tracked(hub, known, flights)
    modifies hub.created
    ensures Sound(hub) && Tracked(hub, known, flights)
    ensures fresh(Clients(hub) - old(Clients(hub)))
  {
    hide LastBytes;
    var _ := hub.Attach(id);
  }

  // ---- the reader loop of a session

  method PerformReader(hub: Hub, known: seq<Session>, flights: seq<Flight>, event: Event)
    requires Sound(hub) && Tracked(hub, known, flights)
    requires event.Output? || event.Lost? || event.Reconnected?
    modifies hub.created, Clients(hub)
    ensures Sound(hub) && Tracked(hub, known, flights) && Clients(hub) == old(Clients(hub))
  {
    var which := event.which;
    if which < |known| {
      var s := known[which];
      var starting := IsStarting(flights, s);
      if !event.Reconnected? || !starting {
        OwnClient(hub, s);
        Read(hub, known, flights, s, event);
      }
    }
    assert forall s <- hub.created :: s.attachments == old(s.attachments);
  }

  lemma OwnClient(hub: Hub, s: Session)
    requires Sound(hub) && s in hub.created
    ensures s.LiveOne() <= Clients(hub)
  {
    assert s.Valid();
  }

  method IsStarting(flights: seq<Flight>, s: Session) returns (starting: bool)
    ensures starting <==> s in SessionsOf(flights, true)
  {
    for k := 0 to |flights|
      invariant forall i :: 0 <= i < k && flights[i].Starting? ==> flights[i].session != s
    {
      if flights[k].Starting? && flights[k].session == s {
        assert flights[k] in flights;
        return true;
      }
    }
    starting := false;
  }

  method Read(hub: Hub, ghost known: seq<Session>, ghost flights: seq<Flight>, s: Session, event: Event)
    requires Sound(hub) && Tracked(hub, known, flights) && s in hub.created
    requires event.Reconnected? ==> s !in hub.starting
    modifies s`upstream, s`history, s`total, s`attached, s.LiveOne()
    ensures Sound(hub) && Tracked(hub, known, flights)
  {
    ReaderStep(hub, s, event);
  }

  method ReaderStep(hub: Hub, s: Session, event: Event)
    requires Sound(hub) && s in hub.created
    requires event.Reconnected? ==> s !in hub.starting
    modifies s`upstream, s`history, s`total, s`attached, s.LiveOne()
    ensures Sound(hub) && Onward(s)
  {
    hide LastBytes;
    NotTheirs(hub, s);
    match event {
      case Output(_, contents) => Publish(hub, s, contents);
      case Lost(_, connection) => Lose(hub, s, connection);
      case Reconnected(_, connection) => var _ := hub.Reconnected(s, connection);
      case _ =>
    }
  }

  /** The client of one session belongs to no other. */
  lemma NotTheirs(hub: Hub, s: Session)
    requires Sound(hub) && s in hub.created
    ensures forall t <- hub.created :: t != s && s.attached != null ==> s.attached !in t.attachments
  {
    assert s.Valid();
  }

  /** A session is consistent while neither it nor a client of it changes. */
  twostate lemma Stays(t: Session)
    requires old(t.Valid()) && unchanged(t) && unchanged(t.attachments)
    ensures t.Valid()
  {
  }

  method Publish(hub: Hub, s: Session, contents: bytes)
    requires Sound(hub) && s in hub.created
    requires forall t <- hub.created :: t != s && s.attached != null ==> s.attached !in t.attachments
    modifies s`history, s`total, s`attached, s.LiveOne()
    ensures Sound(hub)
  {
    Emit(s, contents);
    assert hub.Valid();
    forall t | t in hub.created && t != s
      ensures t.Valid()
    {
      Stays(t);
    }
  }

  method Emit(s: Session, contents: bytes)
    requires s.Valid()
    modifies s`history, s`total, s`attached, s.LiveOne()
    ensures s.Valid()
  {
    s.Publish(contents);
  }

  method Lose(hub: Hub, s: Session, connection: nat)
    requires Sound(hub) && s in hub.created
    requires forall t <- hub.created :: t != s && s.attached != null ==> s.attached !in t.attachments
    modifies s`upstream, s`attached, s.LiveOne()
    ensures Sound(hub) && Onward(s)
  {
    s.LostUpstream(connection);
    assert hub.Valid();
    forall t | t in hub.created && t != s
      ensures t.Valid()
    {
      Stays(t);
    }
  }
}
