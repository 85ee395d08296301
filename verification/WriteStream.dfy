/** The sending side of a connection: a non-blocking socket that may take any prefix of what it is
    offered, and the queue of what it did not take. */
module WriteStream {
  import opened Wire

  /** What one call of the non-blocking `send` reports: the return value, and whether `errno` says
      that the call would have blocked. */
  datatype Reply = Reply(w: int, again: bool)

  /** The kernel's side of a socket. `Script` answers each call as it likes, including a partial write
      that leaves any `errno`; `Finite` has room for `room` more bytes and reports writability by edges. */
  datatype Kernel =
    | Script(replies: nat -> Reply, clock: nat)
    | Finite(room: nat, edge: bool, lag: nat)
  {
    /** The answer to an offer of `len` bytes: never more than was offered, and -1 for nothing. */
    function Answer(len: nat): (r: Reply)
      ensures -1 <= r.w <= len
    {
      match this
      case Script(replies, clock) =>
        var r := replies(clock);
        Reply(if r.w < 0 then -1 else if r.w < len then r.w else len, r.again)
      case Finite(room, _, _) =>
        if len <= room then Reply(len, false) else Reply(if room == 0 then -1 else room, true)
    }

    function After(len: nat): Kernel {
      match this
      case Script(_, _) => this.(clock := clock + 1)
      case Finite(room, _, _) => this.(room := if len <= room then room - len else 0)
    }

    /** What the peer takes between a refused send and the registration, which no edge tells of. */
    function Meanwhile(): Kernel {
      if Finite? then this.(room := room + lag, lag := 0) else this
    }

    /** Registering interest in writability reports a socket that is writable already. */
    function Watch(): Kernel {
      if Finite? then this.(edge := edge || room > 0) else this
    }
  }

  function Taken(r: Reply): nat { if r.w < 0 then 0 else r.w }

  /** A connection as the bytes see it: `wbuf` holds the unsent tails of the queued buffers, and
      `accepted` everything the socket has taken. */
  datatype Conn = Conn(est: bool, queueing: bool, wevn: bool, wbuf: seq<seq<byte>>, kernel: Kernel, accepted: seq<byte>)

  function Fresh(queueing: bool, k: Kernel): Conn {
    Conn(true, queueing, false, [], k, [])
  }

  function Lose(c: Conn): Conn { c.(est := false) }

  /** One offer of `dat` to the socket. */
  function Offer(c: Conn, dat: seq<byte>): Conn {
    c.(kernel := c.kernel.After(|dat|), accepted := c.accepted + dat[..Taken(c.kernel.Answer(|dat|))])
  }

  function Send(c: Conn, dat: seq<byte>): Conn {
    if !c.est then c
    else if c.queueing then SendBuf(c, dat)
    else if c.kernel.Answer(|dat|).w == |dat| then Offer(c, dat)
    else Lose(Offer(c, dat))
  }

  function SendBuf(c: Conn, dat: seq<byte>): Conn {
    if c.wbuf != [] then c.(wbuf := c.wbuf + [dat])
    else
      var r := c.kernel.Answer(|dat|);
      var c' := Offer(c, dat);
      if r.w == |dat| then c'
      else if !r.again then Lose(c')
      else
        var k := if c.wevn then c'.kernel else c'.kernel.Meanwhile().Watch();
        c'.(wbuf := [dat[Taken(r)..]], wevn := true, kernel := k)
  }

  /** Whether the socket takes all of the buffer at the front. */
  predicate FrontGoes(c: Conn)
    requires c.wbuf != []
  {
    c.kernel.Answer(|c.wbuf[0]|).w == |c.wbuf[0]|
  }

  /** One turn of the draining loop. */
  function Turn(c: Conn): Conn
    requires c.wbuf != []
  {
    var r := c.kernel.Answer(|c.wbuf[0]|);
    var c' := Offer(c, c.wbuf[0]);
    if r.w == |c.wbuf[0]| then c'.(wbuf := c.wbuf[1..])
    else if !r.again then Lose(c')
    else c'.(wbuf := [c.wbuf[0][Taken(r)..]] + c.wbuf[1..])
  }

  function EvnWrite(c: Conn): Conn
    decreases |c.wbuf|
  {
    if !c.queueing || c.wbuf == [] then c
    else if FrontGoes(c) then EvnWrite(Turn(c))
    else Turn(c)
  }

  // ------------------------------------------------------------------ whole runs

  /** What happens to a connection on its worker. The worker finds no lost connection for a write event. */
  datatype Event = Sending(dat: seq<byte>) | Writable | Closing

  function Step(c: Conn, e: Event): Conn {
    match e
    case Sending(dat) => Send(c, dat)
    case Writable => if c.est then EvnWrite(c) else c
    case Closing => Lose(c)
  }

  function Run(c: Conn, es: seq<Event>): Conn
    decreases |es|
  {
    if es == [] then c else Run(Step(c, es[0]), es[1..])
  }

  /** All buffers passed to `send`, in order. */
  function Buffers(es: seq<Event>): seq<seq<byte>> {
    if es == [] then [] else (if es[0].Sending? then [es[0].dat] else []) + Buffers(es[1..])
  }

  function Sendings(fs: seq<seq<byte>>): seq<Event> {
    if fs == [] then [] else [Sending(fs[0])] + Sendings(fs[1..])
  }

  /** Sending a list of buffers, one after the other. */
  function SendAll(c: Conn, fs: seq<seq<byte>>): Conn
    decreases |fs|
  {
    if fs == [] then c else SendAll(Send(c, fs[0]), fs[1..])
  }

  lemma {:induction false} SendAllIsRun(c: Conn, fs: seq<seq<byte>>)
    ensures SendAll(c, fs) == Run(c, Sendings(fs)) && Buffers(Sendings(fs)) == fs
    decreases |fs|
  {
    if fs != [] {
      SendingsFirst(fs);
      SendAllIsRun(Send(c, fs[0]), fs[1..]);
    }
  }

  lemma SendingsFirst(fs: seq<seq<byte>>)
    requires fs != []
    ensures Sendings(fs)[0] == Sending(fs[0]) && Sendings(fs)[1..] == Sendings(fs[1..])
    ensures Buffers(Sendings(fs)) == [fs[0]] + Buffers(Sendings(fs[1..]))
  {
    assert Sendings(fs)[1..] == Sendings(fs[1..]);
  }

  lemma {:induction false} SendAllAppend(c: Conn, a: seq<seq<byte>>, b: seq<seq<byte>>)
    ensures SendAll(c, a + b) == SendAll(SendAll(c, a), b)
    decreases |a|
  {
    if a == [] {
      assert a + b == b;
    } else {
      assert (a + b)[1..] == a[1..] + b;
      SendAllAppend(Send(c, a[0]), a[1..], b);
    }
  }

  lemma {:induction false} RunAppend(c: Conn, a: seq<Event>, b: seq<Event>)
    ensures Run(c, a + b) == Run(Run(c, a), b)
    decreases |a|
  {
    if a == [] {
      assert a + b == b;
    } else {
      assert (a + b)[1..] == a[1..] + b;
      RunAppend(Step(c, a[0]), a[1..], b);
    }
  }

  lemma {:induction false} BuffersAppend(a: seq<Event>, b: seq<Event>)
    ensures Buffers(a + b) == Buffers(a) + Buffers(b)
  {
    if a == [] {
      assert a + b == b && [] + Buffers(b) == Buffers(b);
    } else {
      assert (a + b)[1..] == a[1..] + b;
      BuffersAppend(a[1..], b);
      var one := if a[0].Sending? then [a[0].dat] else [];
      assert one + (Buffers(a[1..]) + Buffers(b)) == one + Buffers(a[1..]) + Buffers(b);
    }
  }

  /** Nothing is sent on a lost connection, so a sender may as well stop. */
  lemma {:induction false} SendAllLost(c: Conn, fs: seq<seq<byte>>)
    requires !c.est
    ensures SendAll(c, fs) == c
    decreases |fs|
  {
    if fs != [] { SendAllLost(c, fs[1..]); }
  }

  // ------------------------------------------------------------------ when a connection is kept

  /** A send loses the connection if and only if the socket fails it: a queue that is not empty is not
      offered at all, and with a queue a buffer taken in part may wait if the call would have blocked. */
  lemma SendKeepsExactly(c: Conn, dat: seq<byte>)
    requires c.est
    ensures var r := c.kernel.Answer(|dat|);
      Send(c, dat).est <==> if c.queueing then c.wbuf != [] || r.w == |dat| || r.again else r.w == |dat|
  {
  }

  /** What such a send leaves behind: the queue, the socket and the armed write event. */
  lemma SendOutcome(c: Conn, dat: seq<byte>)
    requires c.est && Send(c, dat).est
    ensures var c', r := Send(c, dat), c.kernel.Answer(|dat|);
      && c'.queueing == c.queueing
      && (c.wbuf != [] && c.queueing ==> c' == c.(wbuf := c.wbuf + [dat]))
      && (c.wbuf == [] || !c.queueing ==>
            && c'.accepted == c.accepted + dat[..Taken(r)]
            && c'.wbuf == (if r.w == |dat| then c.wbuf else [dat[Taken(r)..]])
            && (r.w != |dat| ==> c'.wevn))
  {
    if c.wbuf != [] && !c.queueing { assert c.kernel.Answer(|dat|).w == |dat|; }
  }

  /** The kernel after the first `i` of `bufs` have been offered to it. */
  function KernelAt(k: Kernel, bufs: seq<seq<byte>>, i: nat): Kernel
    requires i <= |bufs|
  {
    if i == 0 then k else KernelAt(k, bufs, i - 1).After(|bufs[i - 1]|)
  }

  /** Its answer to the next. */
  function AnswerAt(k: Kernel, bufs: seq<seq<byte>>, i: nat): Reply
    requires i < |bufs|
  {
    KernelAt(k, bufs, i).Answer(|bufs[i]|)
  }

  lemma {:induction false} KernelAtTail(k: Kernel, bufs: seq<seq<byte>>, i: nat)
    requires bufs != [] && i < |bufs|
    ensures KernelAt(k.After(|bufs[0]|), bufs[1..], i) == KernelAt(k, bufs, i + 1)
  {
    if i > 0 {
      KernelAtTail(k, bufs, i - 1);
      assert bufs[1..][i - 1] == bufs[i];
    }
  }

  /** The first `i` buffers go out whole, and the next, if there is one, does not. */
  predicate StopsAt(k: Kernel, bufs: seq<seq<byte>>, i: nat) {
    && i <= |bufs|
    && (forall j | 0 <= j < i :: AnswerAt(k, bufs, j).w == |bufs[j]|)
    && (i < |bufs| ==> AnswerAt(k, bufs, i).w != |bufs[i]|)
  }

  /** A write event offers the queued buffers in order until one is not taken whole; it loses the
      connection if and only if that call fails otherwise than by blocking, and leaves in the queue that
      buffer, less what was taken, and the ones behind it. */
  lemma {:induction false} EvnWriteStops(c: Conn) returns (i: nat)
    requires c.est && c.queueing
    ensures StopsAt(c.kernel, c.wbuf, i)
    ensures var c' := EvnWrite(c);
      && (c'.est <==> i == |c.wbuf| || AnswerAt(c.kernel, c.wbuf, i).again)
      && (i == |c.wbuf| ==> c'.wbuf == [])
      && (i < |c.wbuf| && c'.est ==>
            c'.wbuf == [c.wbuf[i][Taken(AnswerAt(c.kernel, c.wbuf, i))..]] + c.wbuf[i + 1..])
    decreases |c.wbuf|
  {
    if c.wbuf == [] || !FrontGoes(c) {
      i := 0;
    } else {
      var n := EvnWriteStops(Turn(c));
      i := n + 1;
      StopsLater(c.kernel, c.wbuf, n);
      var tail: seq<seq<byte>> := c.wbuf[1..];
      assert n < |tail| ==> tail[n + 1..] == c.wbuf[i + 1..];
    }
  }

  lemma StopsLater(k: Kernel, bufs: seq<seq<byte>>, n: nat)
    requires bufs != [] && k.Answer(|bufs[0]|).w == |bufs[0]| && StopsAt(k.After(|bufs[0]|), bufs[1..], n)
    ensures StopsAt(k, bufs, n + 1)
    ensures n + 1 < |bufs| ==> AnswerAt(k.After(|bufs[0]|), bufs[1..], n) == AnswerAt(k, bufs, n + 1)
  {
    var k', tail: seq<seq<byte>> := k.After(|bufs[0]|), bufs[1..];
    forall j | 0 <= j < |tail| ensures AnswerAt(k', tail, j) == AnswerAt(k, bufs, j + 1) {
      KernelAtTail(k, bufs, j);
    }
    forall j | 0 <= j < n + 1 ensures AnswerAt(k, bufs, j).w == |bufs[j]| {
      if j > 0 { assert AnswerAt(k', tail, j - 1).w == |tail[j - 1]|; }
    }
  }

  /** A kernel that fails no call but by blocking. */
  ghost predicate Patient(k: Kernel) {
    k.Script? ==> forall i: nat :: k.replies(i).again
  }

  lemma PatientAnswers(k: Kernel, len: nat)
    requires Patient(k)
    ensures k.Answer(len).w == len || k.Answer(len).again
    ensures Patient(k.After(len)) && Patient(k.Meanwhile().Watch())
  {
  }

  lemma {:induction false} PatientKernelAt(k: Kernel, bufs: seq<seq<byte>>, i: nat)
    requires Patient(k) && i <= |bufs|
    ensures Patient(KernelAt(k, bufs, i))
  {
    if i > 0 {
      PatientKernelAt(k, bufs, i - 1);
      PatientAnswers(KernelAt(k, bufs, i - 1), |bufs[i - 1]|);
    }
  }

  lemma {:induction false} EvnWritePatient(c: Conn)
    requires Patient(c.kernel)
    ensures Patient(EvnWrite(c).kernel) && EvnWrite(c).queueing == c.queueing
    decreases |c.wbuf|
  {
    if c.queueing && c.wbuf != [] {
      PatientAnswers(c.kernel, |c.wbuf[0]|);
      if FrontGoes(c) { EvnWritePatient(Turn(c)); }
    }
  }

  lemma StepStays(c: Conn, e: Event)
    requires c.est && c.queueing && Patient(c.kernel) && !e.Closing?
    ensures var c' := Step(c, e); c'.est && c'.queueing && Patient(c'.kernel)
  {
    if e.Sending? {
      PatientAnswers(c.kernel, |e.dat|);
      PatientAnswers(c.kernel.After(|e.dat|), 0);
    } else {
      var i := EvnWriteStops(c);
      if i < |c.wbuf| {
        PatientKernelAt(c.kernel, c.wbuf, i);
        PatientAnswers(KernelAt(c.kernel, c.wbuf, i), |c.wbuf[i]|);
      }
      EvnWritePatient(c);
    }
  }

  /** With a queue a full socket never costs the connection: on a patient kernel only a close does. */
  lemma {:induction false} RunStays(c: Conn, es: seq<Event>)
    requires c.est && c.queueing && Patient(c.kernel)
    ensures Run(c, es).est <==> forall i | 0 <= i < |es| :: !es[i].Closing?
    decreases |es|
  {
    if es != [] {
      assert forall i | 0 <= i < |es[1..]| :: es[1..][i] == es[i + 1];
      if es[0].Closing? {
        RunLost(Lose(c), es[1..]);
      } else {
        StepStays(c, es[0]);
        RunStays(Step(c, es[0]), es[1..]);
        if forall i | 0 <= i < |es[1..]| :: !es[1..][i].Closing? {
          forall i | 0 <= i < |es| ensures !es[i].Closing? {
            if i > 0 { assert !es[1..][i - 1].Closing?; }
          }
        }
      }
    }
  }

  lemma {:induction false} RunLost(c: Conn, es: seq<Event>)
    requires !c.est
    ensures !Run(c, es).est
    decreases |es|
  {
    if es != [] { RunLost(Step(c, es[0]), es[1..]); }
  }

  /** While established nothing is lost, repeated or reordered; afterwards the socket has a prefix. */
  predicate Whole(c: Conn, sent: seq<byte>) {
    && c.accepted <= sent
    && (c.est ==> c.accepted + Concat(c.wbuf) == sent)
    && (!c.queueing ==> c.wbuf == [])
  }

  lemma SendKeeps(c: Conn, sent: seq<byte>, dat: seq<byte>)
    requires Whole(c, sent)
    ensures Whole(Send(c, dat), sent + dat)
  {
    if c.est {
      if c.wbuf == [] { OfferedKeeps(c, sent, dat); } else { QueuedKeeps(c, sent, dat); }
    }
  }

  lemma QueuedKeeps(c: Conn, sent: seq<byte>, dat: seq<byte>)
    requires Whole(c, sent) && c.est && c.wbuf != []
    ensures Whole(Send(c, dat), sent + dat)
  {
    ConcatSnoc(c.wbuf, dat);
    assert c.accepted + (Concat(c.wbuf) + dat) == c.accepted + Concat(c.wbuf) + dat;
  }

  lemma OfferedKeeps(c: Conn, sent: seq<byte>, dat: seq<byte>)
    requires Whole(c, sent) && c.est && c.wbuf == []
    ensures Whole(Send(c, dat), sent + dat)
  {
    var n := Taken(c.kernel.Answer(|dat|));
    assert c.accepted == sent by { assert c.accepted + Concat([]) == c.accepted; }
    assert Concat([dat[n..]]) == dat[n..] by { ConcatSnoc([], dat[n..]); assert [] + [dat[n..]] == [dat[n..]]; }
    assert sent + dat[..n] + dat[n..] == sent + dat;
    if n == |dat| { assert sent + dat[..n] + Concat([]) == sent + dat; }
  }

  lemma {:induction false} EvnWriteKeeps(c: Conn, sent: seq<byte>)
    requires Whole(c, sent) && c.est
    ensures Whole(EvnWrite(c), sent)
    decreases |c.wbuf|
  {
    if c.queueing && c.wbuf != [] {
      var head, tail := c.wbuf[0], c.wbuf[1..];
      var r := c.kernel.Answer(|head|);
      assert [head] + tail == c.wbuf;
      OfferKeeps(c.accepted, head, tail, Taken(r));
      if FrontGoes(c) { EvnWriteKeeps(Turn(c), sent); }
    }
  }

  lemma OfferKeeps(accepted: seq<byte>, head: seq<byte>, tail: seq<seq<byte>>, n: nat)
    requires n <= |head|
    ensures accepted + head[..n] <= accepted + Concat([head] + tail)
    ensures accepted + head[..n] + Concat([head[n..]] + tail) == accepted + Concat([head] + tail)
    ensures n == |head| ==> accepted + head[..n] + Concat(tail) == accepted + Concat([head] + tail)
  {
    assert ([head] + tail)[1..] == tail && ([head[n..]] + tail)[1..] == tail;
    assert head == head[..n] + head[n..];
    assert accepted + head[..n] + (head[n..] + Concat(tail)) == accepted + (head + Concat(tail));
  }

  lemma {:induction false} RunKeeps(c: Conn, sent: seq<byte>, es: seq<Event>)
    requires Whole(c, sent)
    ensures Whole(Run(c, es), sent + Concat(Buffers(es)))
    decreases |es|
  {
    if es == [] {
      assert sent + [] == sent;
    } else {
      var dat := if es[0].Sending? then es[0].dat else [];
      assert sent + [] == sent;
      if es[0].Sending? { SendKeeps(c, sent, dat); } else if es[0].Writable? && c.est { EvnWriteKeeps(c, sent); }
      RunKeeps(Step(c, es[0]), sent + dat, es[1..]);
      BuffersStep(es);
      assert sent + dat + Concat(Buffers(es[1..])) == sent + (dat + Concat(Buffers(es[1..])));
    }
  }

  lemma BuffersStep(es: seq<Event>)
    requires es != []
    ensures Concat(Buffers(es)) == (if es[0].Sending? then es[0].dat else []) + Concat(Buffers(es[1..]))
  {
    if es[0].Sending? {
      assert ([es[0].dat] + Buffers(es[1..]))[1..] == Buffers(es[1..]);
    } else {
      assert [] + Buffers(es[1..]) == Buffers(es[1..]);
    }
  }

  /** Every run of a new connection, with or without a queue and whatever the kernel answers, keeps
      the byte stream whole. */
  lemma StreamIntegrity(queueing: bool, k: Kernel, es: seq<Event>)
    ensures var c, sent := Run(Fresh(queueing, k), es), Concat(Buffers(es));
      && c.accepted <= sent
      && (c.est ==> c.accepted + Concat(c.wbuf) == sent)
  {
    assert Concat([]) == [];
    RunKeeps(Fresh(queueing, k), [], es);
    assert [] + Concat(Buffers(es)) == Concat(Buffers(es));
  }
}
