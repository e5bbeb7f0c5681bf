/**
 * The hub of console sessions (internal/serialconsole/hub.go:42-112).  Start
 * dials and Stop closes without the hub's lock, and a close signals before it
 * locks the session, so each is a chain of steps that any other step may
 * come between.
 */
module ConsoleHub {
  import opened Faults
  import opened SerialConsole

  const HISTORY_BYTES: nat := 0x10_0000

  ghost predicate Lists(sessions: map<string, Session>, s: Session) {
    exists id :: id in sessions && sessions[id] == s
  }

  /** One more or one less entry leaves the others listed. */
  lemma OthersStayListed(before: map<string, Session>, after: map<string, Session>, id: string, s: Session)
    requires Lists(before, s) && before - {id} == after - {id}
    ensures (id in before && before[id] == s) || Lists(after, s)
  {
    var k :| k in before && before[k] == s;
    if k != id {
      assert k in before - {id};
      assert after[k] == s;
    }
  }

  /** These sessions, each once. */
  ghost predicate Collected(stopped: seq<Session>, gone: set<Session>) {
    (set s <- stopped) == gone && forall i, j :: 0 <= i < j < |stopped| ==> stopped[i] != stopped[j]
  }

  lemma NothingCollected()
    ensures Collected([], {})
  {
  }

  lemma OneCollected(stopped: seq<Session>, gone: set<Session>, s: Session)
    requires Collected(stopped, gone) && s !in gone
    ensures Collected(stopped + [s], gone + {s})
  {
  }

  class Hub {
    var sessions: map<string, Session>
    /** Every session ever created, and those a Start or a Stop is still working on. */
    ghost var created: set<Session>
    ghost var starting: set<Session>
    ghost var closing: set<Session>

    constructor ()
      ensures Valid() && sessions == map[] && created == {}
    {
      sessions := map[];
      created, starting, closing := {}, {}, {};
    }

    /** The session has no upstream and refuses every later one. */
    ghost predicate Gone(s: Session)
      reads s
    {
      s.stopped && s.upstream == Disconnected
    }

    /** A session the hub has forgotten is gone, or a Start or Stop is about to see to it. */
    ghost predicate Valid()
      reads this, created
    {
      && (forall id :: id in sessions ==> sessions[id] in created && sessions[id] !in closing)
      && (forall a, b :: a in sessions && b in sessions && a != b ==> sessions[a] != sessions[b])
      && starting <= created && closing <= created
      && (forall s <- starting :: s.upstream == Disconnected)
      && (forall s <- created :: Lists(sessions, s) || s in closing || Gone(s))
    }

    /** With no Start or Stop in flight, exactly the listed sessions can be connected. */
    lemma NothingLeaks(s: Session)
      requires Valid() && starting == {} && closing == {} && s in created && s.Valid()
      ensures !Lists(sessions, s) ==> s.upstream == Disconnected && s.attached == null && s.stopped
    {
    }

    /** hub.go:44-52: None where the session is already there. */
    method StartBegin(id: string) returns (started: Option<Session>)
      requires Valid()
      modifies this
      ensures Valid()
      ensures started.None? <==> id in old(sessions)
      ensures started.Some? ==>
                && fresh(started.value) && started.value.Valid() && started.value.historyLimit == HISTORY_BYTES
                && started.value.attachments == {} && closing == old(closing)
                && sessions == old(sessions)[id := started.value]
                && created == old(created) + {started.value} && starting == old(starting) + {started.value}
      ensures started.None? ==> unchanged(this)
    {
      if id in sessions {
        return None;
      }
      ghost var before := sessions;
      var s := new Session(HISTORY_BYTES);
      sessions := sessions[id := s];
      created := created + {s};
      starting := starting + {s};
      assert sessions[id] == s;
      forall other | other in created && Lists(before, other)
        ensures Lists(sessions, other)
      {
        OthersStayListed(before, sessions, id, other);
      }
      started := Some(s);
    }

    /** hub.go:64: the console answered; only a session that was not stopped meanwhile gets the connection. */
    method Install(s: Session, connection: nat) returns (ok: bool)
      requires Valid() && s in starting && s.Valid()
      modifies this`starting, s`upstream
      ensures Valid() && s.Valid() && ok == !s.stopped
      ensures ok ==>
                s.upstream == Connected(connection) && starting == old(starting) - {s}
                  && (Lists(sessions, s) || s in closing)
      ensures !ok ==> Gone(s) && starting == old(starting)
    {
      ok := s.SetUpstream(connection);
      if ok {
        starting := starting - {s};
      }
    }

    /** hub.go:269, for the `close` of line 56 or line 84: the stop signal. */
    method Signal(s: Session)
      requires Valid() && s in starting + closing && s.Valid()
      modifies s`stopped
      ensures Valid() && s.Valid() && s.stopped
    {
      s.Stop();
    }

    /** hub.go:270-278: the locked part of the same `close`. */
    method CloseSession(s: Session)
      requires Valid() && s in starting + closing && s.Valid() && s.stopped
      modifies s`upstream, s`attached, s`ended, s.LiveOne()
      ensures Valid() && s.Valid() && Gone(s) && s.attached == null
      ensures OnlyClosed(old(s.attached))
    {
      s.Shutdown();
    }

    /** hub.go:57-61 and 66-70: a start that failed takes its own session off the list, and no other. */
    method Drop(id: string, s: Session)
      requires Valid() && s in starting && Gone(s)
      modifies this`sessions, this`starting
      ensures Valid() && starting == old(starting) - {s}
      ensures sessions == if id in old(sessions) && old(sessions)[id] == s then old(sessions) - {id} else old(sessions)
    {
      starting := starting - {s};
      if id in sessions && sessions[id] == s {
        Forget(id);
      }
    }

    method Forget(id: string)
      requires id in sessions
      modifies this`sessions
      ensures sessions == old(sessions) - {id}
      ensures forall s <- created :: Lists(old(sessions), s) && s != old(sessions)[id] ==> Lists(sessions, s)
    {
      ghost var before := sessions;
      sessions := sessions - {id};
      forall s | s in created && Lists(before, s)
        ensures s == before[id] || Lists(sessions, s)
      {
        OthersStayListed(before, sessions, id, s);
      }
    }

    /** hub.go:79-82. */
    method StopBegin(id: string) returns (stopped: Option<Session>)
      requires Valid()
      modifies this`sessions, this`closing
      ensures Valid()
      ensures stopped == (if id in old(sessions) then Some(old(sessions)[id]) else None)
      ensures sessions == old(sessions) - {id}
      ensures closing == old(closing) + if stopped.Some? then {stopped.value} else {}
    {
      stopped := None;
      if id in sessions {
        stopped := Some(sessions[id]);
        closing := closing + {sessions[id]};
        Forget(id);
      } else {
        assert sessions - {id} == sessions;
      }
    }

    /** hub.go:89-96: every session leaves the list. */
    method CloseBegin() returns (stopped: seq<Session>)
      requires Valid()
      modifies this`sessions, this`closing
      ensures Valid() && sessions == map[] && closing == old(closing) + old(sessions).Values
      ensures Collected(stopped, old(sessions).Values) && old(sessions).Values !! old(closing)
    {
      hide Valid, Collected;
      stopped := [];
      ghost var all, gone := sessions.Values, {};
      NothingCollected();
      ListedIsOpen();
      while sessions != map[]
        invariant Valid() && closing == old(closing) + gone && Collected(stopped, gone)
        invariant gone + sessions.Values == all && gone !! sessions.Values
        decreases sessions.Keys
      {
        var id :| id in sessions;
        OneValueLess(id);
        ghost var before := sessions;
        var s := StopBegin(id);
        OneCollected(stopped, gone, s.value);
        stopped, gone := stopped + [s.value], gone + {s.value};
      }
      assert sessions.Values == {} && gone == all;
    }

    lemma ListedIsOpen()
      requires Valid()
      ensures sessions.Values !! closing
    {
    }

    lemma OneValueLess(id: string)
      requires Valid() && id in sessions
      ensures (sessions - {id}).Values == sessions.Values - {sessions[id]} && sessions[id] in sessions.Values
    {
      forall s | s in sessions.Values && s != sessions[id]
        ensures s in (sessions - {id}).Values
      {
        var k :| k in sessions && sessions[k] == s;
        assert k in sessions - {id};
      }
    }

    /** hub.go:83-85, 97-99: the session is closed. */
    method StopFinish(s: Session)
      requires Valid() && s in closing && Gone(s)
      modifies this`closing
      ensures Valid() && closing == old(closing) - {s}
    {
      closing := closing - {s};
    }

    /** hub.go:178-186: the reader loop of a started session found the console again. */
    method Reconnected(s: Session, connection: nat) returns (ok: bool)
      requires Valid() && s in created && s !in starting && s.Valid()
      modifies s`upstream
      ensures Valid() && s.Valid() && ok == !s.stopped
      ensures s.upstream == if ok then Connected(connection) else old(s.upstream)
    {
      ok := s.SetUpstream(connection);
    }

    /** hub.go:104-112. */
    method Attach(id: string) returns (result: AttachResult)
      requires Valid() && (id in sessions ==> sessions[id].Valid())
      modifies if id in sessions then {sessions[id]} else {}
      ensures Valid()
              && (id in sessions ==>
                  sessions[id].Valid() && fresh(sessions[id].attachments - old(sessions[id].attachments)))
      ensures id in sessions ==>
                sessions[id].upstream == old(sessions[id].upstream) && sessions[id].stopped == old(sessions[id].stopped)
      ensures id !in sessions ==> result == NotConnected
      ensures result.Attached? ==>
                id in sessions && result.stream.session == sessions[id]
                  && sessions[id].attached == result.stream.attachment
    {
      if id !in sessions {
        return NotConnected;
      }
      result := sessions[id].Attach();
    }
  }
}
