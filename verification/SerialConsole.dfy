/**
 * A serial console session: bounded history and one exclusive live stream
 * (internal/serialconsole/hub.go:136-328).  Each method is one critical
 * section, so any sequence of calls is an interleaving of the reader loop,
 * clients and shutdown.
 */
module SerialConsole {
  import opened Bytes

  const QUEUE: nat := 64

  /** hub.go:281-284: the channel of one attachment. */
  class Attachment {
    var queue: seq<bytes>
    var closed: bool
    /** What was taken from the channel. */
    ghost var received: bytes
    /** Where the segment of all output begins and ends that was put in. */
    ghost var from: nat
    ghost var until: nat

    constructor (ghost from: nat)
      ensures queue == [] && !closed && received == [] && this.from == from && until == from
    {
      queue := [];
      closed := false;
      received := [];
      this.from := from;
      until := from;
    }

    /** Taken and waiting bytes together are one segment of all output. */
    ghost predicate Contiguous(total: bytes)
      reads this
    {
      && |queue| <= QUEUE
      && from <= until <= |total| && received + Flatten(queue) == total[from..until]
    }

    /** A send that does not block; the channel must be open. */
    method Send(chunk: bytes) returns (sent: bool)
      requires !closed && |queue| <= QUEUE
      modifies this`queue, this`until
      ensures sent <==> |old(queue)| < QUEUE
      ensures |queue| <= QUEUE
      ensures Flatten(queue) == Flatten(old(queue)) + if sent then chunk else []
      ensures until == old(until) + if sent then |chunk| else 0
    {
      sent := |queue| < QUEUE;
      if sent {
        FlattenAppend(queue, chunk);
        queue := queue + [chunk];
        until := until + |chunk|;
      }
    }

    /** Closing a closed channel would panic; the source guards it with a `Once`. */
    method Close()
      requires !closed
      modifies this`closed
      ensures closed
    {
      closed := true;
    }

    method Receive() returns (chunk: bytes)
      requires queue != []
      modifies this`queue, this`received
      ensures [chunk] + queue == old(queue) && received == old(received) + chunk
      ensures received + Flatten(queue) == old(received) + Flatten(old(queue))
    {
      chunk := queue[0];
      queue := queue[1..];
      received := received + chunk;
    }
  }

  datatype Upstream = Disconnected | Connected(connection: nat)

  datatype AttachResult = Attached(stream: Stream) | NotConnected | InUse

  class Session {
    const historyLimit: nat
    var upstream: Upstream
    var history: bytes
    var attached: Attachment?
    var stopped: bool
    /** Everything the guest wrote since the session began. */
    ghost var total: bytes
    ghost var attachments: set<Attachment>
    /** The locked part of `close` was executed. */
    ghost var ended: bool

    constructor (historyLimit: nat)
      ensures Valid() && this.historyLimit == historyLimit && total == [] && attachments == {}
      ensures attached == null && upstream == Disconnected && !stopped
    {
      this.historyLimit := historyLimit;
      upstream := Disconnected;
      history := [];
      attached := null;
      stopped := false;
      total := [];
      attachments := {};
      ended := false;
    }

    ghost predicate Valid()
      reads this, attachments
    {
      Fed(|total|)
    }

    ghost function LiveOne(): set<object>
      reads this
    {
      if attached == null then {} else {attached}
    }

    /**
     * The session's invariant; a live attachment has an upstream, an open
     * channel, and was sent all output up to `fed`.
     */
    ghost predicate Fed(fed: nat)
      reads this, attachments
    {
      && history == LastBytes(total, historyLimit)
      && (attached != null ==>
          attached in attachments && upstream != Disconnected && !attached.closed && attached.until == fed)
      && (forall a <- attachments :: a.Contiguous(total) && (a != attached ==> a.closed))
      && (ended ==> stopped && upstream == Disconnected && attached == null)
    }

    /** hub.go:147-157. */
    method SetUpstream(connection: nat) returns (ok: bool)
      requires Valid()
      modifies this`upstream
      ensures Valid() && ok == !stopped
      ensures upstream == if ok then Connected(connection) else old(upstream)
    {
      if stopped {
        return false;
      }
      upstream := Connected(connection);
      ok := true;
    }

    /** hub.go:197-213: a client whose channel is full is cut off. */
    method Publish(contents: bytes)
      requires Valid()
      modifies this`history, this`total, this`attached, LiveOne()
      ensures Valid() && total == old(total) + contents
      ensures old(attached) != null ==>
                old(attached).received == old(attached.received) && old(attached).from == old(attached.from)
      ensures attached == if old(attached) != null && |old(attached.queue)| < QUEUE then old(attached) else null
    {
      Remember(contents);
      if attached != null {
        Feed(contents);
      }
    }

    method Remember(contents: bytes)
      requires Valid()
      modifies this`history, this`total
      ensures total == old(total) + contents && Fed(|old(total)|)
    {
      LastBytesOfMore(total, contents, historyLimit);
      history := history + contents;
      var excess := |history| - historyLimit;
      if excess > 0 {
        var shifted := history[excess..] + history[|history| - excess..];
        history := shifted[..historyLimit];
      }
      ghost var before := total;
      total := total + contents;
      forall a | a in attachments
        ensures a.Contiguous(total)
      {
        assert total[a.from..a.until] == before[a.from..a.until];
      }
    }

    method Feed(contents: bytes)
      requires attached != null && |contents| <= |total| && total[|total| - |contents|..] == contents
               && Fed(|total| - |contents|)
      modifies this`attached, attached
      ensures Valid()
      ensures old(attached).received == old(attached.received) && old(attached).from == old(attached.from)
      ensures attached == if |old(attached.queue)| < QUEUE then old(attached) else null
    {
      var sent := attached.Send(contents);
      if sent {
        assert total[attached.from..attached.until] == total[attached.from..|total| - |contents|] + contents;
        assert attached.Contiguous(total);
      } else {
        DetachLocked(attached);
      }
    }

    /** hub.go:215-230: the history is the first thing a new client gets. */
    method Attach() returns (result: AttachResult)
      requires Valid()
      modifies this`attached, this`attachments
      ensures Valid() && old(attachments) <= attachments
      ensures result.NotConnected? <==> upstream == Disconnected
      ensures result.InUse? <==> upstream != Disconnected && old(attached) != null
      ensures !result.Attached? ==> attached == old(attached) && attachments == old(attachments)
      ensures result.Attached? ==>
                && fresh(result.stream) && fresh(result.stream.attachment) && result.stream.session == this
                && attached == result.stream.attachment && attachments == old(attachments) + {result.stream.attachment}
                && attached.from == |total| - |history| && attached.received == [] && result.stream.New()
    {
      if upstream == Disconnected {
        return NotConnected;
      }
      if attached != null {
        return InUse;
      }
      var a := new Attachment(|total| - |history|);
      if |history| > 0 {
        var _ := a.Send(history);
      }
      assert total[a.from..a.until] == history;
      attached := a;
      attachments := attachments + {a};
      var stream := new Stream(this, a);
      result := Attached(stream);
    }

    /** hub.go:244-253. */
    method LostUpstream(connection: nat)
      requires Valid()
      modifies this`upstream, this`attached, LiveOne()
      ensures Valid() && attached == null
      ensures upstream == if old(upstream) == Connected(connection) then Disconnected else old(upstream)
      ensures OnlyClosed(old(attached))
    {
      if upstream == Connected(connection) {
        upstream := Disconnected;
      }
      if attached != null {
        DetachLocked(attached);
      }
    }

    /** hub.go:255-261: a stale attachment leaves a newer one alone. */
    method Detach(a: Attachment)
      requires Valid() && a in attachments
      modifies this`attached, a`closed
      ensures Valid() && attached == if old(attached) == a then null else old(attached)
      ensures a.closed
    {
      if attached == a {
        DetachLocked(a);
      }
    }

    /** hub.go:263-266. */
    method DetachLocked(a: Attachment)
      requires attached == a && !a.closed && a in attachments
      modifies this`attached, a`closed
      ensures attached == null && a.closed
    {
      attached := null;
      a.Close();
    }

    /** hub.go:269: the first step of `close`, without the lock. */
    method Stop()
      requires Valid()
      modifies this`stopped
      ensures Valid() && stopped
    {
      stopped := true;
    }

    /** hub.go:270-278: the second step. */
    method Shutdown()
      requires Valid() && stopped
      modifies this`upstream, this`attached, this`ended, LiveOne()
      ensures Valid() && ended && attached == null && upstream == Disconnected
      ensures OnlyClosed(old(attached))
    {
      upstream := Disconnected;
      if attached != null {
        DetachLocked(attached);
      }
      ended := true;
    }
  }

  twostate predicate OnlyClosed(a: Attachment?)
    reads a
  {
    a != null ==>
      a.closed && a.queue == old(a.queue) && a.received == old(a.received) && a.from == old(a.from)
        && a.until == old(a.until)
  }

  datatype ReadResult = Data(contents: bytes) | EndOfFile | Waiting

  class Stream {
    const session: Session
    const attachment: Attachment
    var current: bytes
    var closed: bool
    ghost var delivered: bytes

    constructor (session: Session, attachment: Attachment)
      ensures this.session == session && this.attachment == attachment && current == [] && !closed && delivered == []
    {
      this.session := session;
      this.attachment := attachment;
      current := [];
      closed := false;
      delivered := [];
    }

    ghost predicate New()
      reads this
    {
      delivered == [] && current == [] && !closed
    }

    /** What was taken from the channel was delivered or is kept for the next read. */
    ghost predicate Valid()
      reads this, session, session.attachments, attachment
    {
      session.Valid() && attachment in session.attachments && attachment.received == delivered + current
    }

    /**
     * hub.go:295-306.  A client gets the next bytes of its segment; it sees
     * the end only when it was given all of it.  `Waiting` is a read that
     * would block.
     */
    method Read(count: nat) returns (result: ReadResult)
      requires Valid()
      modifies this`current, this`delivered, attachment`queue, attachment`received
      ensures Valid() && delivered == old(delivered) + if result.Data? then result.contents else []
      ensures result.Data? ==> |result.contents| <= count && (count > 0 ==> result.contents != [])
      ensures result.EndOfFile? ==> attachment.closed && delivered == session.total[attachment.from..attachment.until]
      ensures result.Waiting? ==> !attachment.closed && delivered == session.total[attachment.from..]
    {
      var filled := Refill();
      if !filled {
        return if attachment.closed then EndOfFile else Waiting;
      }
      var taken := if count < |current| then count else |current|;
      result := Data(current[..taken]);
      delivered := delivered + current[..taken];
      current := current[taken..];
    }

    /** hub.go:296-302: chunks are taken from the channel until one has bytes. */
    method Refill() returns (filled: bool)
      requires Valid()
      modifies this`current, attachment`queue, attachment`received
      ensures Valid() && filled == (current != [])
      ensures !filled ==> attachment.queue == [] && attachment.received == delivered
    {
      while |current| == 0
        invariant Valid()
        decreases |attachment.queue|
      {
        if attachment.queue == [] {
          assert attachment.received == delivered;
          return false;
        }
        TakeChunk();
      }
      filled := true;
    }

    method TakeChunk()
      requires Valid() && current == [] && attachment.queue != []
      modifies this`current, attachment`queue, attachment`received
      ensures Valid() && |attachment.queue| < |old(attachment.queue)|
    {
      current := attachment.Receive();
    }

    /** hub.go:318-328. */
    method Close()
      requires Valid()
      modifies this`closed, session`attached, attachment`closed
      ensures Valid() && closed
      ensures session.attached == if !old(closed) && old(session.attached) == attachment then null
              else old(session.attached)
    {
      if closed {
        return;
      }
      closed := true;
      session.Detach(attachment);
    }
  }

  // ---- whole runs

  datatype Event =
    | Connect(connection: nat)
    | Output(contents: bytes)
    | Lost(connection: nat)
    | Attach
    | Read(client: nat, count: nat)
    | Close(client: nat)
    | Stop
    | Shutdown

  /** Every client was given one contiguous segment of the output, from the history at its attachment on. */
  ghost predicate Served(session: Session, streams: seq<Stream>)
    reads session, session.attachments, streams, set s <- streams :: s.session, set s <- streams :: s.attachment
  {
    && session.Valid()
    && (forall i :: 0 <= i < |streams| ==> OwnStream(session, streams[i]))
    && (forall i, j :: 0 <= i < j < |streams| ==>
        streams[i] != streams[j] && streams[i].attachment != streams[j].attachment)
  }

  ghost predicate OwnStream(session: Session, stream: Stream)
    reads session, session.attachments, stream, stream.attachment
  {
    && stream.session == session && stream.attachment in session.attachments
    && stream.attachment.received == stream.delivered + stream.current
  }

  lemma DeliveredIsContiguous(session: Session, stream: Stream)
    requires session.Valid() && OwnStream(session, stream)
    ensures var from := stream.attachment.from;
            && from + |stream.delivered| <= stream.attachment.until <= |session.total|
            && stream.delivered == session.total[from..from + |stream.delivered|]
  {
    var a := stream.attachment;
    var segment := session.total[a.from..a.until];
    assert stream.delivered == segment[..|stream.delivered|];
  }

  /**
   * Under any interleaving of the reader loop, clients and shutdown: history,
   * exclusiveness and contiguity hold throughout, and after both steps of a
   * close neither upstream nor attachment ever comes back.
   */
  method Run(session: Session, events: seq<Event>) returns (streams: seq<Stream>)
    requires session.Valid() && session.attachments == {}
    modifies session
    ensures Served(session, streams)
    ensures forall s <- streams ::
              && s.attachment.from + |s.delivered| <= |session.total|
              && s.delivered == session.total[s.attachment.from..s.attachment.from + |s.delivered|]
    ensures (exists i, j :: 0 <= i < j < |events| && events[i].Stop? && events[j].Shutdown?) ==>
              session.upstream == Disconnected && session.attached == null
  {
    streams := [];
    for k := 0 to |events|
      invariant Served(session, streams)
      invariant fresh(session.attachments) && forall i :: 0 <= i < |streams| ==> fresh(streams[i])
      invariant forall i :: 0 <= i < k && events[i].Stop? ==> session.stopped
      invariant forall i, j :: 0 <= i < j < k && events[i].Stop? && events[j].Shutdown? ==> session.ended
    {
      streams := Perform(session, streams, events[k]);
    }
    forall s | s in streams {
      DeliveredIsContiguous(session, s);
    }
  }

  method Perform(session: Session, clients: seq<Stream>, event: Event) returns (streams: seq<Stream>)
    requires Served(session, clients)
    modifies session, session.attachments, clients
    ensures Served(session, streams)
    ensures fresh(session.attachments - old(session.attachments)) && old(session.attachments) <= session.attachments
    ensures clients <= streams && forall i :: |clients| <= i < |streams| ==> fresh(streams[i])
    ensures session.stopped == (old(session.stopped) || event.Stop?)
    ensures session.ended == (old(session.ended) || (event.Shutdown? && old(session.stopped)))
  {
    streams := clients;
    match event
    case Attach =>
      var result := session.Attach();
      if result.Attached? {
        streams := streams + [result.stream];
      }
    case Read(client, count) =>
      if client < |streams| {
        ReadAt(session, streams, client, count);
      }
    case Close(client) =>
      if client < |streams| {
        CloseAt(session, streams, client);
      }
    case _ =>
      PerformAlone(session, streams, event);
  }

  /** The events that involve no client. */
  method PerformAlone(session: Session, ghost streams: seq<Stream>, event: Event)
    requires Served(session, streams)
    requires event.Connect? || event.Output? || event.Lost? || event.Stop? || event.Shutdown?
    modifies session, session.LiveOne()
    ensures Served(session, streams) && session.attachments == old(session.attachments)
    ensures session.stopped == (old(session.stopped) || event.Stop?)
    ensures session.ended == (old(session.ended) || (event.Shutdown? && old(session.stopped)))
  {
    match event
    case Connect(connection) =>
      var _ := session.SetUpstream(connection);
    case Output(contents) =>
      session.Publish(contents);
    case Lost(connection) =>
      session.LostUpstream(connection);
    case Stop =>
      session.Stop();
    case Shutdown =>
      if session.stopped {
        session.Shutdown();
      }
  }

  method ReadAt(session: Session, streams: seq<Stream>, client: nat, count: nat)
    requires Served(session, streams) && client < |streams|
    modifies streams[client], streams[client].attachment
    ensures Served(session, streams)
  {
    assert OwnStream(session, streams[client]);
    var _ := streams[client].Read(count);
    forall i | 0 <= i < |streams|
      ensures OwnStream(session, streams[i])
    {
      assert old(OwnStream(session, streams[i]));
      assert i != client ==> streams[i] != streams[client] && streams[i].attachment != streams[client].attachment;
    }
  }

  method CloseAt(session: Session, streams: seq<Stream>, client: nat)
    requires Served(session, streams) && client < |streams|
    modifies session`attached, streams[client], streams[client].attachment
    ensures Served(session, streams)
  {
    streams[client].Close();
  }
}
