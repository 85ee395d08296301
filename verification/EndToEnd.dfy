/** Both ends of a connection together: messages, frames, partial writes, arbitrary receives, messages. */
module EndToEnd {
  import opened Wire
  import opened Framing
  import opened Messages
  import opened Assembly
  import Segments
  import WriteStream
  import WriteWakeup

  /** A frame the reader takes as a whole as soon as its last byte is there. */
  predicate Sendable(c: Config, f: seq<byte>) {
    f != [] && Decide(c, f) == Take(|f|)
  }

  predicate AllSendable(c: Config, fs: seq<seq<byte>>) {
    forall i | 0 <= i < |fs| :: Sendable(c, fs[i])
  }

  lemma FrameSendable(c: Config, tag: byte, fs: seq<Field>)
    requires c.Sane() && c.IsTransaction(tag) && fs != [] && |Frame(tag, fs)| <= c.mtu
    ensures Sendable(c, Frame(tag, fs))
  {
    assert EncFields(fs) != [];
    DecideTlv(c, tag, EncFields(fs), []);
    assert Frame(tag, fs) + [] == Frame(tag, fs);
  }

  lemma LeadSendable(c: Config, m: Msg, d: Option<seq<byte>>, more: bool)
    requires c.Sane() && !m.Pong? && IsSegment(c, d)
    ensures Sendable(c, LeadFrame(c, m, d, more))
  {
    assert |LeadFrame(c, m, d, more)| <= c.mtu;
    FrameSendable(c, if m.End? then c.end else c.cont, Leading(c, m, more) + Piece(c, d, more));
  }

  lemma {:induction false} PartsSendable(c: Config, tag: byte, tid: word, cs: seq<seq<byte>>)
    requires c.Sane() && AreSegments(c, cs)
    ensures AllSendable(c, Parts(c, tag, tid, cs))
    decreases |cs|
  {
    if cs != [] {
      assert |PartFrame(c, tag, tid, cs[0], |cs| > 1)| <= c.mtu;
      FrameSendable(c, c.part, IntField(tag, tid) + Piece(c, Some(cs[0]), |cs| > 1));
      PartsSendable(c, tag, tid, cs[1..]);
      var fs, tail := Parts(c, tag, tid, cs), Parts(c, tag, tid, cs[1..]);
      forall i | 0 < i < |fs| ensures fs[i] == tail[i - 1] {}
    }
  }

  /** No frame of a message is ever refused or waited for past its end. */
  lemma FramesSendable(c: Config, m: Msg)
    requires c.Sane()
    ensures AllSendable(c, Frames(c, m))
  {
    if !m.Pong? {
      if PayloadOf(m).None? {
        LeadSendable(c, m, None, false);
      } else {
        var cs := Segments.Cut(PayloadOf(m).value, c.SegLen());
        CutsAreSegments(c, PayloadOf(m).value);
        LeadSendable(c, m, Some(cs[0]), |cs| > 1);
        PartsSendable(c, c.dtid, m.tid, cs[1..]);
      }
    }
  }

  lemma {:induction false} AllFramesSendable(c: Config, ms: seq<Msg>)
    requires c.Sane()
    ensures AllSendable(c, AllFrames(c, ms))
    decreases |ms|
  {
    if ms != [] {
      FramesSendable(c, ms[0]);
      AllFramesSendable(c, ms[1..]);
    }
  }

  /** The peer's unpacking and handlers accept the frames, one after the other. */
  predicate Welcome(c: Config, h: Handler, past: seq<seq<byte>>, fs: seq<seq<byte>>)
    decreases |fs|
  {
    fs == [] ||
    (fs[0] != [] && Unpacks(c, h, fs[0]) && h.accepts(past, fs[0]) && Welcome(c, h, past + [fs[0]], fs[1..]))
  }

  /** A reader with a larger MTU takes every frame a smaller one takes. */
  lemma SendableWider(c: Config, mtu: int, fs: seq<seq<byte>>)
    requires c.mtu <= mtu && AllSendable(c, fs)
    ensures AllSendable(c.(mtu := mtu), fs)
  {
    forall i | 0 <= i < |fs| ensures Sendable(c.(mtu := mtu), fs[i]) {
      assert Sendable(c, fs[i]);
    }
  }

  /** Parsing a stream of sendable frames gives back the frames. */
  lemma {:induction false} ParseFrames(c: Config, h: Handler, past: seq<seq<byte>>, fs: seq<seq<byte>>)
    requires AllSendable(c, fs) && Welcome(c, h, past, fs)
    ensures Parse(c, h, past, Concat(fs)) == Open(past + fs, [])
    decreases |fs|
  {
    if fs == [] {
      assert past + fs == past;
    } else {
      var f, t := fs[0], Concat(fs[1..]);
      assert Sendable(c, f);
      DecideStable(c, f, t);
      assert (f + t)[..|f|] == f && (f + t)[|f|..] == t;
      assert AllSendable(c, fs[1..]) by {
        forall i | 0 <= i < |fs[1..]| ensures Sendable(c, fs[1..][i]) { assert Sendable(c, fs[i + 1]); }
      }
      ParseFrames(c, h, past + [f], fs[1..]);
      assert past + [f] + fs[1..] == past + fs;
    }
  }

  /** A stream cut off anywhere gives some of the first frames and no refusal. */
  lemma ParsePrefix(c: Config, h: Handler, fs: seq<seq<byte>>, s: seq<byte>)
    requires AllSendable(c, fs) && Welcome(c, h, [], fs) && s <= Concat(fs)
    ensures var o := Parse(c, h, [], s);
      o.Open? && o.frames <= fs && (s == Concat(fs) ==> o == Open(fs, []))
  {
    var t := Concat(fs)[|s|..];
    assert s + t == Concat(fs);
    ParseFrames(c, h, [], fs);
    assert [] + fs == fs;
    ParseAppend(c, h, [], s, t);
    var o := Parse(c, h, [], s);
    if o.Open? { ParseSettles(c, h, o.frames, o.rest + t); }
  }

  /** What a peer with MTU `mtu` has been handed after the given receives. */
  function Received(c: Config, mtu: int, h: Handler, chunks: seq<seq<byte>>): Outcome {
    FeedAll(c.(mtu := mtu), h, Open([], []), chunks)
  }

  lemma ReceivedIsParse(c: Config, mtu: int, h: Handler, chunks: seq<seq<byte>>)
    ensures Received(c, mtu, h, chunks) == Parse(c.(mtu := mtu), h, [], Concat(chunks))
  {
    ChunkIndependence(c.(mtu := mtu), h, Open([], []), chunks);
    assert [] + Concat(chunks) == Concat(chunks);
  }

  /** Safety, whatever the socket answers, whenever write events come, however the bytes are cut on
      arrival and however few arrive: the frames handed to the peer's handlers are a prefix of the
      frames of the messages, and the messages they complete a prefix of the messages. */
  lemma DeliveryIsPrefix(c: Config, mtu: int, h: Handler, ms: seq<Msg>, queueing: bool, k: WriteStream.Kernel,
                         es: seq<WriteStream.Event>, chunks: seq<seq<byte>>)
    requires c.Sane() && c.mtu <= mtu && Welcome(c.(mtu := mtu), h, [], AllFrames(c, ms))
    requires WriteStream.Buffers(es) <= AllFrames(c, ms)
    requires Concat(chunks) <= WriteStream.Run(WriteStream.Fresh(queueing, k), es).accepted
    ensures Received(c, mtu, h, chunks).Open? && Received(c, mtu, h, chunks).frames <= AllFrames(c, ms)
    ensures AcceptAll(c, START, Received(c, mtu, h, chunks).frames).done <= ms
  {
    var fs := AllFrames(c, ms);
    WriteStream.StreamIntegrity(queueing, k, es);
    ConcatPrefixMonotone(WriteStream.Buffers(es), fs);
    AllFramesSendable(c, ms);
    SendableWider(c, mtu, fs);
    ReceivedIsParse(c, mtu, h, chunks);
    ParsePrefix(c.(mtu := mtu), h, fs, Concat(chunks));
    ConversationPrefix(c, ms, Received(c, mtu, h, chunks).frames);
  }

  /** Everything the socket took has arrived: the peer has exactly the frames and the messages. */
  lemma ArrivedIsDelivered(c: Config, mtu: int, h: Handler, ms: seq<Msg>, chunks: seq<seq<byte>>)
    requires c.Sane() && c.mtu <= mtu && Welcome(c.(mtu := mtu), h, [], AllFrames(c, ms))
    requires Concat(chunks) == Concat(AllFrames(c, ms))
    ensures Received(c, mtu, h, chunks) == Open(AllFrames(c, ms), [])
    ensures AcceptAll(c, START, Received(c, mtu, h, chunks).frames) == State(ms, None)
  {
    AllFramesSendable(c, ms);
    SendableWider(c, mtu, AllFrames(c, ms));
    ReceivedIsParse(c, mtu, h, chunks);
    ParsePrefix(c.(mtu := mtu), h, AllFrames(c, ms), Concat(chunks));
    ConversationRoundTrip(c, [], ms);
    assert [] + ms == ms;
  }

  /** Completeness: when the connection survived, nothing is left in its queue and everything the
      socket took has arrived, the peer has been handed exactly the frames sent, has no byte left
      over, and they complete exactly the messages sent. */
  lemma DeliveryIsComplete(c: Config, mtu: int, h: Handler, ms: seq<Msg>, queueing: bool, k: WriteStream.Kernel,
                           es: seq<WriteStream.Event>, chunks: seq<seq<byte>>)
    requires c.Sane() && c.mtu <= mtu && Welcome(c.(mtu := mtu), h, [], AllFrames(c, ms))
    requires WriteStream.Buffers(es) == AllFrames(c, ms)
    requires var conn := WriteStream.Run(WriteStream.Fresh(queueing, k), es);
      conn.est && Concat(conn.wbuf) == [] && Concat(chunks) == conn.accepted
    ensures Received(c, mtu, h, chunks) == Open(AllFrames(c, ms), [])
    ensures AcceptAll(c, START, Received(c, mtu, h, chunks).frames) == State(ms, None)
  {
    WriteStream.StreamIntegrity(queueing, k, es);
    ArrivedIsDelivered(c, mtu, h, ms, chunks);
  }

  // ------------------------------------------------------------------ the calls of an application

  /** What happens on the sending worker: a message is sent by `SendContinue`, `SendEnd` or `EvnPing`, a
      write event is handled, or the connection is closed. */
  datatype Call = Say(m: Msg) | Write | Shut

  /** What the methods of `Sender` and `Connection` do to the connection, one after the other. */
  function Served(c: Config, conn: WriteStream.Conn, calls: seq<Call>): WriteStream.Conn
    requires c.Sane()
    decreases |calls|
  {
    if calls == [] then conn
    else
      var conn' :=
        match calls[0]
        case Say(m) => WriteStream.SendAll(conn, Frames(c, m))
        case Write => if conn.est then WriteStream.EvnWrite(conn) else conn
        case Shut => WriteStream.Lose(conn);
      Served(c, conn', calls[1..])
  }

  function Said(calls: seq<Call>): seq<Msg> {
    if calls == [] then [] else (if calls[0].Say? then [calls[0].m] else []) + Said(calls[1..])
  }

  function EventsOf(c: Config, call: Call): seq<WriteStream.Event>
    requires c.Sane()
  {
    match call
    case Say(m) => WriteStream.Sendings(Frames(c, m))
    case Write => [WriteStream.Writable]
    case Shut => [WriteStream.Closing]
  }

  function AllEvents(c: Config, calls: seq<Call>): seq<WriteStream.Event>
    requires c.Sane()
  {
    if calls == [] then [] else EventsOf(c, calls[0]) + AllEvents(c, calls[1..])
  }

  lemma OneMessage(c: Config, m: Msg)
    requires c.Sane()
    ensures AllFrames(c, [m]) == Frames(c, m)
  {
    assert [m][1..] == [];
    assert Frames(c, m) + [] == Frames(c, m);
  }

  lemma CallIsRun(c: Config, conn: WriteStream.Conn, call: Call)
    requires c.Sane()
    ensures Served(c, conn, [call]) == WriteStream.Run(conn, EventsOf(c, call))
    ensures WriteStream.Buffers(EventsOf(c, call)) == AllFrames(c, Said([call]))
  {
    assert [call][1..] == [];
    if call.Say? {
      WriteStream.SendAllIsRun(conn, Frames(c, call.m));
      OneMessage(c, call.m);
      assert Said([call]) == [call.m];
    }
  }

  lemma ServedFirst(c: Config, conn: WriteStream.Conn, calls: seq<Call>)
    requires c.Sane() && calls != []
    ensures Served(c, conn, calls) == Served(c, Served(c, conn, [calls[0]]), calls[1..])
  {
    assert [calls[0]][1..] == [];
  }

  lemma SaidFirst(c: Config, calls: seq<Call>)
    requires c.Sane() && calls != []
    ensures AllFrames(c, Said(calls)) == AllFrames(c, Said([calls[0]])) + AllFrames(c, Said(calls[1..]))
  {
    var ms := Said(calls[1..]);
    assert [calls[0]][1..] == [];
    if calls[0].Say? {
      SaidOne(c, calls[0].m, ms);
      assert Said([calls[0]]) == [calls[0].m];
    } else {
      assert Said(calls) == [] + ms == ms;
      assert Said([calls[0]]) == [];
    }
  }

  lemma SaidOne(c: Config, m: Msg, ms: seq<Msg>)
    requires c.Sane()
    ensures AllFrames(c, [m] + ms) == AllFrames(c, [m]) + AllFrames(c, ms)
  {
    OneMessage(c, m);
    assert ([m] + ms)[1..] == ms;
  }

  /** Any mixture of calls is a run, and the buffers it sends are the frames of its messages. */
  lemma {:induction false} ServedIsRun(c: Config, conn: WriteStream.Conn, calls: seq<Call>)
    requires c.Sane()
    ensures Served(c, conn, calls) == WriteStream.Run(conn, AllEvents(c, calls))
    ensures WriteStream.Buffers(AllEvents(c, calls)) == AllFrames(c, Said(calls))
    decreases |calls|
  {
    if calls != [] {
      var first, rest := EventsOf(c, calls[0]), AllEvents(c, calls[1..]);
      CallIsRun(c, conn, calls[0]);
      ServedFirst(c, conn, calls);
      SaidFirst(c, calls);
      ServedIsRun(c, Served(c, conn, [calls[0]]), calls[1..]);
      WriteStream.RunAppend(conn, first, rest);
      WriteStream.BuffersAppend(first, rest);
    }
  }

  /** From calls to messages: whatever is said, written and shut in whatever order, on any kernel, and
      however the bytes arrive, the peer completes a prefix of the messages said; and all of them, with
      nothing left over, if the connection survived and everything queued has been sent and has arrived. */
  lemma CallsDeliver(c: Config, mtu: int, h: Handler, queueing: bool, k: WriteStream.Kernel,
                     calls: seq<Call>, chunks: seq<seq<byte>>)
    requires c.Sane() && c.mtu <= mtu && Welcome(c.(mtu := mtu), h, [], AllFrames(c, Said(calls)))
    requires Concat(chunks) <= Served(c, WriteStream.Fresh(queueing, k), calls).accepted
    ensures var o := Received(c, mtu, h, chunks);
      && o.Open? && o.frames <= AllFrames(c, Said(calls))
      && AcceptAll(c, START, o.frames).done <= Said(calls)
    ensures var conn := Served(c, WriteStream.Fresh(queueing, k), calls);
      conn.est && Concat(conn.wbuf) == [] && Concat(chunks) == conn.accepted ==>
        && Received(c, mtu, h, chunks) == Open(AllFrames(c, Said(calls)), [])
        && AcceptAll(c, START, Received(c, mtu, h, chunks).frames) == State(Said(calls), None)
  {
    var es := AllEvents(c, calls);
    ServedIsRun(c, WriteStream.Fresh(queueing, k), calls);
    DeliveryIsPrefix(c, mtu, h, Said(calls), queueing, k, es, chunks);
    var conn := Served(c, WriteStream.Fresh(queueing, k), calls);
    if conn.est && Concat(conn.wbuf) == [] && Concat(chunks) == conn.accepted {
      DeliveryIsComplete(c, mtu, h, Said(calls), queueing, k, es, chunks);
    }
  }

  // ------------------------------------------------------------------ delivery on a slow peer

  /** Liveness: on a socket with any room, however the sends of the messages, the reads of the peer and the
      edges came in between, the connection is there, and once the peer has read as much as was unsent, in
      any portions, it completes exactly the messages sent. */
  lemma ReadingDelivers(c: Config, mtu: int, h: Handler, ms: seq<Msg>, room: nat, edge: bool, lag: nat,
                        es: seq<WriteWakeup.Event>, ns: seq<nat>, chunks: seq<seq<byte>>)
    requires c.Sane() && c.mtu <= mtu && Welcome(c.(mtu := mtu), h, [], AllFrames(c, ms))
    requires WriteWakeup.SentIn(es) == AllFrames(c, ms)
    requires ns != [] && forall i | 0 <= i < |ns| :: ns[i] > 0
    ensures WriteWakeup.Awake(WriteStream.Fresh(true, WriteStream.Finite(room, edge, lag)))
    ensures var conn := WriteWakeup.Run(WriteStream.Fresh(true, WriteStream.Finite(room, edge, lag)), es);
      && conn.est && WriteWakeup.Awake(conn)
      && (conn.kernel.room + WriteWakeup.Sum(ns) >= WriteWakeup.Unsent(conn)
          && Concat(chunks) == WriteWakeup.Cycles(conn, ns).accepted ==>
            && Received(c, mtu, h, chunks) == Open(AllFrames(c, ms), [])
            && AcceptAll(c, START, Received(c, mtu, h, chunks).frames) == State(ms, None))
  {
    WriteWakeup.NothingLost(room, edge, lag, es);
    WriteWakeup.ReadingSendsAll(room, edge, lag, es, ns);
    var conn := WriteWakeup.Run(WriteStream.Fresh(true, WriteStream.Finite(room, edge, lag)), es);
    if conn.kernel.room + WriteWakeup.Sum(ns) >= WriteWakeup.Unsent(conn)
      && Concat(chunks) == WriteWakeup.Cycles(conn, ns).accepted
    {
      ArrivedIsDelivered(c, mtu, h, ms, chunks);
    }
  }
}
