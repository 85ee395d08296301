/** Write readiness: a socket with finite room, watched by an edge-triggered poller. */
module WriteWakeup {
  import opened Wire
  import opened WriteStream

  /** The peer takes `n` bytes off the socket, which raises an edge when it was full and is watched;
      or the worker collects the edge. */
  datatype Event = Sending(dat: seq<byte>) | Drain(n: nat) | Edge

  function Step(c: Conn, e: Event): Conn
    requires c.kernel.Finite?
  {
    var k := c.kernel;
    match e
    case Sending(dat) => Send(c, dat)
    case Drain(n) => c.(kernel := k.(room := k.room + n, edge := k.edge || (c.wevn && k.room == 0 && n > 0)))
    case Edge =>
      // The poller looks at the socket again before it reports an edge.
      if !c.est || !c.wevn || !k.edge then c
      else if k.room == 0 then c.(kernel := k.(edge := false))
      else EvnWrite(c.(kernel := k.(edge := false)))
  }

  /** Unsent buffers are watched, and either the socket is full or the worker will hear of it. */
  predicate Awake(c: Conn) {
    && c.kernel.Finite?
    && (c.wevn ==> c.queueing)
    && (!c.queueing ==> c.wbuf == [])
    && (c.est && c.wbuf != [] ==> c.wevn && (c.kernel.room == 0 || c.kernel.edge))
  }

  function Min(a: nat, b: nat): nat { if a < b then a else b }

  /** The bytes the socket took and those still to be sent. */
  function Stream(c: Conn): seq<byte> { c.accepted + Concat(c.wbuf) }

  function Unsent(c: Conn): nat { |Concat(c.wbuf)| }

  /** From `c` to `c'` the socket took the next `n` unsent bytes: the stream is the same and the border
      between its two parts has moved. */
  predicate Moved(c: Conn, c': Conn, n: nat) {
    && c'.est == c.est && c'.queueing == c.queueing && c'.wevn == c.wevn
    && Stream(c') == Stream(c) && |c'.accepted| == |c.accepted| + n
  }

  lemma MovedUnsent(c: Conn, c': Conn, n: nat)
    requires Moved(c, c', n)
    ensures n <= Unsent(c) && Unsent(c') == Unsent(c) - n
  {
    assert |Stream(c')| == |Stream(c)|;
  }

  lemma TurnMoves(c: Conn)
    requires c.kernel.Finite? && c.wbuf != []
    ensures var n := Min(c.kernel.room, |c.wbuf[0]|);
      Moved(c, Turn(c), n) && Turn(c).kernel == Finite(c.kernel.room - n, c.kernel.edge, c.kernel.lag)
  {
    var head, tail := c.wbuf[0], c.wbuf[1..];
    var n := Min(c.kernel.room, |head|);
    assert Taken(c.kernel.Answer(|head|)) == n;
    Border(c.accepted, head, Concat(tail), n);
    HeadTail(head[n..], tail);
  }

  lemma Border(a: seq<byte>, x: seq<byte>, y: seq<byte>, n: nat)
    requires n <= |x|
    ensures a + x[..n] + (x[n..] + y) == a + (x + y)
    ensures n == |x| ==> a + x[..n] + y == a + (x + y)
  {
  }

  lemma HeadTail(x: seq<byte>, tail: seq<seq<byte>>)
    ensures Concat([x] + tail) == x + Concat(tail)
  {
    assert ([x] + tail)[1..] == tail;
  }

  /** From `c` to `c'` the socket took all there was room for. */
  predicate Filled(c: Conn, c': Conn)
    requires c.kernel.Finite?
  {
    var n := Min(c.kernel.room, Unsent(c));
    && Moved(c, c', n)
    && c'.kernel == Finite(c.kernel.room - n, c.kernel.edge, c.kernel.lag)
    && (c'.wbuf == [] || c'.kernel.room == 0)
  }

  lemma TurnThenFilled(c: Conn, d: Conn, e: Conn, n: nat)
    requires c.kernel.Finite? && n <= c.kernel.room && Moved(c, d, n)
    requires d.kernel == Finite(c.kernel.room - n, c.kernel.edge, c.kernel.lag) && Filled(d, e)
    ensures Filled(c, e)
  {
    MovedUnsent(c, d, n);
  }

  lemma StuckTurnFills(c: Conn)
    requires c.kernel.Finite? && c.wbuf != [] && !FrontGoes(c)
    ensures Filled(c, Turn(c))
  {
    TurnMoves(c);
    assert Unsent(c) >= |c.wbuf[0]| > c.kernel.room;
  }

  /** One handled write event sends as many bytes as there is room for and stops only at an empty
      queue or a full socket. */
  lemma {:induction false} EvnWriteFills(c: Conn)
    requires c.kernel.Finite? && c.queueing
    ensures Filled(c, EvnWrite(c))
    decreases |c.wbuf|
  {
    if c.wbuf == [] {
      assert Unsent(c) == 0;
    } else if FrontGoes(c) {
      TurnMoves(c);
      EvnWriteFills(Turn(c));
      TurnThenFilled(c, Turn(c), EvnWrite(Turn(c)), |c.wbuf[0]|);
    } else {
      StuckTurnFills(c);
    }
  }

  lemma StepKeepsAwake(c: Conn, e: Event)
    requires Awake(c)
    ensures Awake(Step(c, e))
  {
    if e.Edge? && c.queueing {
      EvnWriteFills(c.(kernel := c.kernel.(edge := false)));
    }
  }

  function Run(c: Conn, es: seq<Event>): Conn
    requires Awake(c)
    decreases |es|
  {
    if es == [] then c
    else
      StepKeepsAwake(c, es[0]);
      Run(Step(c, es[0]), es[1..])
  }

  lemma {:induction false} RunKeepsAwake(c: Conn, es: seq<Event>)
    requires Awake(c)
    ensures Awake(Run(c, es))
    decreases |es|
  {
    if es != [] {
      StepKeepsAwake(c, es[0]);
      RunKeepsAwake(Step(c, es[0]), es[1..]);
    }
  }

  /** In every state that a new connection on a socket of any room can reach, one that is established and
      has unsent buffers has its write event armed, and either the socket is full or an edge is on its way. */
  lemma NoLostWakeup(queueing: bool, room: nat, edge: bool, lag: nat, es: seq<Event>)
    ensures Awake(Fresh(queueing, Finite(room, edge, lag)))
    ensures var c := Run(Fresh(queueing, Finite(room, edge, lag)), es);
      && c.kernel.Finite?
      && (c.est && c.wbuf != [] ==> c.wevn && (c.kernel.room == 0 || c.kernel.edge))
  {
    RunKeepsAwake(Fresh(queueing, Finite(room, edge, lag)), es);
  }

  /** All buffers passed to `send`, in order. */
  function SentIn(es: seq<Event>): seq<seq<byte>> {
    if es == [] then [] else (if es[0].Sending? then [es[0].dat] else []) + SentIn(es[1..])
  }

  /** The connection is there, and has taken or queued exactly `sent`. */
  predicate Lossless(c: Conn, sent: seq<byte>) {
    Awake(c) && c.est && c.queueing && Stream(c) == sent
  }

  lemma StepLosesNothing(c: Conn, sent: seq<byte>, e: Event)
    requires Lossless(c, sent)
    ensures Lossless(Step(c, e), sent + if e.Sending? then e.dat else [])
  {
    StepKeepsAwake(c, e);
    match e
    case Sending(dat) =>
      SendKeepsExactly(c, dat);
      SendKeeps(c, sent, dat);
    case Drain(_) =>
    case Edge => EvnWriteFills(c.(kernel := c.kernel.(edge := false)));
  }

  lemma {:induction false} RunLosesNothing(c: Conn, sent: seq<byte>, es: seq<Event>)
    requires Lossless(c, sent)
    ensures Lossless(Run(c, es), sent + Concat(SentIn(es)))
    decreases |es|
  {
    if es == [] {
      assert sent + [] == sent;
    } else {
      var dat := if es[0].Sending? then es[0].dat else [];
      StepLosesNothing(c, sent, es[0]);
      RunLosesNothing(Step(c, es[0]), sent + dat, es[1..]);
      SentFirst(es);
      Assoc(sent, dat, Concat(SentIn(es[1..])));
    }
  }

  lemma SentFirst(es: seq<Event>)
    requires es != []
    ensures Concat(SentIn(es)) == (if es[0].Sending? then es[0].dat else []) + Concat(SentIn(es[1..]))
  {
    if es[0].Sending? {
      assert ([es[0].dat] + SentIn(es[1..]))[1..] == SentIn(es[1..]);
    } else {
      assert [] + SentIn(es[1..]) == SentIn(es[1..]);
    }
  }

  /** A connection with a queue is never lost to a full socket: after any sends, reads of the peer and
      edges it is established, and what the socket took and what is queued are together all that was sent. */
  lemma NothingLost(room: nat, edge: bool, lag: nat, es: seq<Event>)
    ensures Awake(Fresh(true, Finite(room, edge, lag)))
    ensures var c := Run(Fresh(true, Finite(room, edge, lag)), es);
      c.est && c.accepted + Concat(c.wbuf) == Concat(SentIn(es))
  {
    var c := Fresh(true, Finite(room, edge, lag));
    assert Stream(c) == [] && [] + Concat(SentIn(es)) == Concat(SentIn(es));
    RunLosesNothing(c, [], es);
  }

  /** An edge strictly shortens what is unsent exactly when something is unsent and the socket has
      room: edges left over from before the socket filled up again do nothing. */
  lemma EdgeProgress(c: Conn)
    requires Awake(c) && c.est && c.wevn && c.kernel.edge
    ensures Unsent(Step(c, Edge)) < Unsent(c) <==> Unsent(c) > 0 && c.kernel.room > 0
  {
    var d := c.(kernel := c.kernel.(edge := false));
    EvnWriteFills(d);
    MovedUnsent(d, EvnWrite(d), Min(d.kernel.room, Unsent(d)));
  }

  function Sum(ns: seq<nat>): nat {
    if ns == [] then 0 else ns[0] + Sum(ns[1..])
  }

  /** The peer reads and the worker wakes. */
  function Cycle(c: Conn, n: nat): Conn
    requires Awake(c)
  {
    StepKeepsAwake(c, Drain(n));
    Step(Step(c, Drain(n)), Edge)
  }

  lemma CycleKeepsAwake(c: Conn, n: nat)
    requires Awake(c)
    ensures Awake(Cycle(c, n))
  {
    StepKeepsAwake(c, Drain(n));
    StepKeepsAwake(Step(c, Drain(n)), Edge);
  }

  function Cycles(c: Conn, ns: seq<nat>): Conn
    requires Awake(c)
    decreases |ns|
  {
    if ns == [] then c
    else
      CycleKeepsAwake(c, ns[0]);
      Cycles(Cycle(c, ns[0]), ns[1..])
  }

  /** `n` more bytes of room moved exactly the unsent bytes there was room for. */
  predicate Pumped(c: Conn, c': Conn, n: nat)
    requires c.kernel.Finite?
  {
    var k := Min(c.kernel.room + n, Unsent(c));
    Moved(c, c', k) && c'.kernel.Finite? && c'.kernel.room == c.kernel.room + n - k
  }

  lemma PumpedTransitive(c: Conn, d: Conn, e: Conn, m: nat, n: nat)
    requires c.kernel.Finite? && d.kernel.Finite? && Pumped(c, d, m) && Pumped(d, e, n)
    ensures Pumped(c, e, m + n)
  {
    MovedUnsent(c, d, Min(c.kernel.room + m, Unsent(c)));
  }

  /** One reading of the peer, and the wake-up it causes. */
  lemma CyclePumps(c: Conn, n: nat)
    requires Awake(c) && c.est && c.queueing && n > 0
    ensures Awake(Cycle(c, n)) && Pumped(c, Cycle(c, n), n)
  {
    CycleKeepsAwake(c, n);
    if c.wbuf == [] { IdleCycle(c, n); } else { BusyCycle(c, n); }
  }

  lemma IdleCycle(c: Conn, n: nat)
    requires Awake(c) && c.est && c.queueing && c.wbuf == []
    ensures Pumped(c, Cycle(c, n), n)
  {
    var e := Cycle(c, n);
    assert e.kernel.Finite? && e == c.(kernel := c.kernel.(room := c.kernel.room + n, edge := e.kernel.edge));
    assert Unsent(c) == 0;
  }

  lemma BusyCycle(c: Conn, n: nat)
    requires Awake(c) && c.est && c.queueing && c.wbuf != [] && n > 0
    ensures Pumped(c, Cycle(c, n), n)
  {
    var d := c.(kernel := c.kernel.(room := c.kernel.room + n, edge := false));
    assert Cycle(c, n) == EvnWrite(d);
    EvnWriteFills(d);
  }

  /** Whatever was queued is sent once the peer has read that much, with no help from further sends. */
  lemma {:induction false} ReadingDrains(c: Conn, ns: seq<nat>)
    requires Awake(c) && c.est && c.queueing && ns != []
    requires forall i | 0 <= i < |ns| :: ns[i] > 0
    ensures Pumped(c, Cycles(c, ns), Sum(ns))
    decreases |ns|
  {
    var d := Cycle(c, ns[0]);
    CyclePumps(c, ns[0]);
    if |ns| == 1 {
      assert Cycles(d, ns[1..]) == d && Sum(ns[1..]) == 0;
    } else {
      ReadingDrains(d, ns[1..]);
      PumpedTransitive(c, d, Cycles(d, ns[1..]), ns[0], Sum(ns[1..]));
    }
  }

  /** Once the peer has read as much as was unsent, the socket has taken all that was sent. */
  lemma ReadingSendsAll(room: nat, edge: bool, lag: nat, es: seq<Event>, ns: seq<nat>)
    requires ns != [] && forall i | 0 <= i < |ns| :: ns[i] > 0
    ensures Awake(Fresh(true, Finite(room, edge, lag)))
    ensures var c := Run(Fresh(true, Finite(room, edge, lag)), es);
      && Awake(c)
      && (c.kernel.room + Sum(ns) >= Unsent(c) ==>
            var d := Cycles(c, ns);
            d.est && Unsent(d) == 0 && d.accepted == Concat(SentIn(es)))
  {
    var c0 := Fresh(true, Finite(room, edge, lag));
    RunKeepsAwake(c0, es);
    var c := Run(c0, es);
    RunLosesNothing(c0, [], es);
    assert [] + Concat(SentIn(es)) == Concat(SentIn(es));
    if c.kernel.room + Sum(ns) >= Unsent(c) {
      ReadingDrains(c, ns);
      AllMoved(c, Cycles(c, ns));
    }
  }

  lemma AllMoved(c: Conn, d: Conn)
    requires Moved(c, d, Unsent(c))
    ensures Unsent(d) == 0 && d.accepted == Stream(c)
  {
    MovedUnsent(c, d, Unsent(c));
    assert Stream(d)[..|d.accepted|] == d.accepted;
  }
}
