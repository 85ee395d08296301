/** The receiving side of a connection: one fixed buffer, compacted in place, driven by the
    non-blocking receive loop of its worker. */
module Receiver {
  import opened Wire
  import opened Framing

  /** What ends the bytes the kernel holds for a descriptor. */
  datatype Tail = Again | Eof | Broken

  /** The kernel's side of a descriptor: the bytes that arrive before `tail`, and how many of them
      each call hands out. Every way of cutting the stream is some `cut`. */
  datatype Source = Source(pending: seq<byte>, cut: nat -> nat, clock: nat, tail: Tail)
  {
    /** The number of bytes a receive into `space` free bytes returns: 0 and below mean what they
        mean for `recv`, and a receive of pending bytes into no space returns 0. */
    function Count(space: nat): (n: int)
      ensures n > 0 ==> n <= space && n <= |pending|
      ensures n <= 0 <==> space == 0 || pending == []
    {
      if pending == [] then (if tail.Eof? then 0 else -1)
      else if space == 0 then 0
      else
        var most := if space < |pending| then space else |pending|;
        if cut(clock) < 1 then 1 else if cut(clock) < most then cut(clock) else most
    }

    function After(n: nat): Source
      requires n <= |pending|
    {
      Source(pending[n..], cut, clock + 1, tail)
    }
  }

  /** No handler of the frames from number `n` on closes the connection. */
  predicate Stays(h: Handler, fs: seq<seq<byte>>, n: nat) {
    |fs| <= n || var past := fs[..|fs| - 1]; Stays(h, past, n) && !h.closes(past, fs[|fs| - 1])
  }

  lemma StaysSnoc(h: Handler, fs: seq<seq<byte>>, n: nat, f: seq<byte>)
    requires n <= |fs|
    ensures Stays(h, fs + [f], n) <==> Stays(h, fs, n) && !h.closes(fs, f)
  {
    assert (fs + [f])[..|fs|] == fs;
  }

  lemma {:induction false} StaysAppend(h: Handler, a: seq<seq<byte>>, b: seq<seq<byte>>, n: nat)
    requires n <= |a| && a <= b
    ensures Stays(h, b, n) <==> Stays(h, a, n) && Stays(h, b, |a|)
    decreases |b|
  {
    if |b| > |a| { StaysAppend(h, a, b[..|b| - 1], n); } else { assert a == b; }
  }

  class StmpNet {
    const c: Config
    const h: Handler
    const rbuf: array<byte>
    var dlen: nat
    var est: bool
    /** Every frame given to the message handler so far. */
    var inbox: seq<seq<byte>>

    ghost predicate Valid()
      reads this
    {
      rbuf.Length == c.mtu && dlen <= rbuf.Length
    }

    function Held(): seq<byte>
      requires Valid()
      reads this, rbuf
    {
      rbuf[..dlen]
    }

    /** What the loop of `EvnRead` will make of the bytes held now. */
    ghost function Outlook(): Outcome
      requires Valid()
      reads this, rbuf
    {
      Parse(c, h, inbox, Held())
    }

    /** The state after `EvnRead` or `EvnRecv`, as an outcome of parsing. */
    ghost function Result(ok: bool): Outcome
      requires Valid()
      reads this, rbuf
    {
      if ok then Open(inbox, Held()) else Closed(inbox)
    }

    constructor (c: Config, h: Handler)
      requires c.mtu >= 0
      ensures Valid() && this.c == c && this.h == h && inbox == [] && Held() == [] && est && fresh(rbuf)
    {
      this.c, this.h := c, h;
      rbuf := new byte[c.mtu];
      dlen, est, inbox := 0, true, [];
    }

    method EvnMsg(f: seq<byte>) returns (ok: bool)
      modifies `inbox, `est
      ensures inbox == old(inbox) + [f] && ok == h.accepts(old(inbox), f)
      ensures est == (old(est) && !h.closes(old(inbox), f))
    {
      ok := h.accepts(inbox, f);
      if h.closes(inbox, f) { est := false; }
      inbox := inbox + [f];
    }

    /** The `len` unread bytes behind the cursor move to the front; the ranges may overlap. */
    method Compact(at: nat, len: nat)
      requires Valid() && at + len == dlen
      modifies `dlen, rbuf
      ensures Valid() && Held() == old(Held()[at..])
    {
      for i := 0 to len
        modifies rbuf
        invariant forall k | 0 <= k < i :: rbuf[k] == old(rbuf[at + k])
        invariant forall k | i <= k < dlen :: rbuf[k] == old(rbuf[k])
      {
        rbuf[i] := rbuf[at + i];
      }
      dlen := len;
    }

    /** The size of the frame at the cursor, once its first `len` bytes are there. */
    method Inspect(at: nat, len: nat) returns (d: Decision)
      requires Valid() && at + len <= dlen && len > 0
      ensures d == Decide(c, rbuf[at..at + len])
    {
      ghost var s := rbuf[at..at + len];
      assert rbuf[at] == s[0] && (len >= 2 ==> rbuf[at + 1] == s[1]);
      if rbuf[at] == c.ping || rbuf[at] == c.pong { return Take(1); }
      if len < 3 { return Wait; }
      if rbuf[at + 1] == 0xFF { return Refuse; }
      var l := if rbuf[at + 1] == 0xFE then 3 else 1;
      if len < 1 + l { return Wait; }
      var size: nat;
      if rbuf[at + 1] < 0xFE {
        size := 1 + 1 + rbuf[at + 1] as nat;
      } else {
        assert rbuf[at + 2] == s[2] && rbuf[at + 3] == s[3];
        size := 1 + l + (0x100 * rbuf[at + 2] as nat + rbuf[at + 3] as nat);
      }
      if size > c.mtu { return Refuse; }
      if len < size { return Wait; }
      return Take(size);
    }

    /** One frame is unpacked, unless it is a heartbeat, and given to the message handler. The connection
        stays as long as no handler since frame number `n` has closed it. */
    method Deliver(f: seq<byte>, ghost n: nat, ghost was: bool) returns (ok: bool)
      requires f != [] && n <= |inbox| && est == (was && Stays(h, inbox, n))
      modifies `inbox, `est
      ensures ok == (Unpacks(c, h, f) && h.accepts(old(inbox), f))
      ensures inbox == if Unpacks(c, h, f) then old(inbox) + [f] else old(inbox)
      ensures n <= |inbox| && est == (was && Stays(h, inbox, n))
    {
      StaysSnoc(h, inbox, n, f);
      if f[0] != c.ping && f[0] != c.pong && !h.unpacks(f) { return false; }
      ok := EvnMsg(f);
    }

    /** The bytes from `at` on are unread, and the loop will get to `goal`; the connection has stayed if no
        handler since frame number `n` has closed it. */
    ghost predicate Cursor(at: nat, len: nat, goal: Outcome, n: nat, was: bool)
      reads this, rbuf
    {
      && Valid() && at + len == dlen && Parse(c, h, inbox, rbuf[at..dlen]) == goal
      && n <= |inbox| && est == (was && Stays(h, inbox, n))
    }

    /** The loop has stopped with that verdict, and rightly. */
    ghost predicate Stopped(at: nat, len: nat, goal: Outcome, n: nat, was: bool, ok: bool)
      reads this, rbuf
    {
      && Valid() && at + len == dlen && goal == (if ok then Open(inbox, rbuf[at..dlen]) else Closed(inbox))
      && n <= |inbox| && est == (was && Stays(h, inbox, n))
    }

    /** One turn of the loop: the size of the frame handled, or 0 with the verdict of the loop. */
    method ReadFrame(at: nat, len: nat, ghost goal: Outcome, ghost n: nat, ghost was: bool)
      returns (size: nat, ok: bool)
      requires Cursor(at, len, goal, n, was) && len > 0
      modifies `inbox, `est
      ensures size <= len
      ensures if size > 0 then ok && Cursor(at + size, len - size, goal, n, was) else Stopped(at, len, goal, n, was, ok)
    {
      ghost var rest := rbuf[at..dlen];
      var d := Inspect(at, len);
      if d.Refuse? { return 0, false; }
      if d.Wait? { return 0, true; }
      var f := rbuf[at..at + d.size];
      assert f == rest[..d.size] && rest[d.size..] == rbuf[at + d.size..dlen];
      ok := Deliver(f, n, was);
      size := if ok then d.size else 0;
    }

    lemma AllRead(at: nat, goal: Outcome, n: nat, was: bool)
      requires Cursor(at, 0, goal, n, was)
      ensures Stopped(at, 0, goal, n, was, true)
    {
      assert rbuf[at..dlen] == [];
    }

    /** All turns: where the loop stops, and its verdict. */
    method ReadFrames(ghost goal: Outcome, ghost n: nat, ghost was: bool) returns (at: nat, len: nat, ok: bool)
      requires Cursor(0, dlen, goal, n, was)
      modifies `inbox, `est
      ensures Stopped(at, len, goal, n, was, ok)
    {
      at, len, ok := 0, dlen, true;
      while len > 0
        invariant Cursor(at, len, goal, n, was) && ok
        decreases len
      {
        var size;
        size, ok := ReadFrame(at, len, goal, n, was);
        if size == 0 { return; }
        at, len := at + size, len - size;
      }
      AllRead(at, goal, n, was);
    }

    /** A handler that closes the connection does not stop the loop: the frames behind its own are
        handled all the same. */
    method EvnRead() returns (ok: bool)
      requires Valid()
      modifies this, rbuf
      ensures Valid()
      ensures Result(ok) == old(Outlook())
      ensures !ok ==> dlen == old(dlen)
      ensures |old(inbox)| <= |inbox| && est == (old(est) && Stays(h, inbox, |old(inbox)|))
    {
      assert rbuf[0..dlen] == Held();
      var at, len;
      at, len, ok := ReadFrames(Outlook(), |inbox|, est);
      if ok && len != dlen { Compact(at, len); }
    }
  }

  /** The bytes a receive puts behind the held ones. */
  method Receive(an: StmpNet, from: seq<byte>, count: nat)
    requires an.Valid() && count <= an.c.mtu - an.dlen && count <= |from|
    modifies an`dlen, an.rbuf
    ensures an.Valid() && an.Held() == old(an.Held()) + from[..count]
  {
    forall i | 0 <= i < count {
      an.rbuf[an.dlen + i] := from[i];
    }
    an.dlen := an.dlen + count;
  }

  /** What comes of the bytes `t` behind the outcome `o` of those before. */
  function Next(c: Config, h: Handler, o: Outcome, t: seq<byte>): Reading
    requires c.mtu >= 1
  {
    match o
    case Open(fs, rest) => ReadOn(c, h, fs, rest + t)
    case Closed(_) => Parsed(o)
  }

  /** With `read` saying what is to come of all bytes received by the loop, it has received `got` and is
      at `o`, whatever comes next. */
  ghost predicate CameTo(c: Config, h: Handler, read: seq<byte> -> Reading, got: seq<byte>, o: Outcome)
    requires c.mtu >= 1
  {
    forall t: seq<byte> {:trigger Next(c, h, o, t)} :: read(got + t) == Next(c, h, o, t)
  }

  lemma ChunkComesTo(c: Config, h: Handler, read: seq<byte> -> Reading, got: seq<byte>, o: Outcome, chunk: seq<byte>)
    requires c.mtu >= 1 && o.Open? && |o.rest| + |chunk| <= c.mtu && CameTo(c, h, read, got, o)
    ensures CameTo(c, h, read, got + chunk, Parse(c, h, o.frames, o.rest + chunk))
  {
    var o' := Parse(c, h, o.frames, o.rest + chunk);
    forall t: seq<byte> ensures read(got + chunk + t) == Next(c, h, o', t) {
      Assoc(got, chunk, t);
      assert read(got + (chunk + t)) == Next(c, h, o, chunk + t);
      ChunkGoesOn(c, h, o, chunk, t);
    }
  }

  lemma ChunkGoesOn(c: Config, h: Handler, o: Outcome, chunk: seq<byte>, t: seq<byte>)
    requires c.mtu >= 1 && o.Open? && |o.rest| + |chunk| <= c.mtu
    ensures Next(c, h, o, chunk + t) == Next(c, h, Parse(c, h, o.frames, o.rest + chunk), t)
  {
    Assoc(o.rest, chunk, t);
    ReadOnAppend(c, h, o.frames, o.rest + chunk, t);
  }

  /** The loop has received `got`, and frame number `n` was the first to come. */
  ghost predicate Going(an: StmpNet, read: seq<byte> -> Reading, n: nat, got: seq<byte>)
    reads an, an.rbuf
  {
    && an.Valid() && an.c.mtu >= 1 && Settled(an.c, an.Held())
    && CameTo(an.c, an.h, read, got, Open(an.inbox, an.Held()))
    && n <= |an.inbox| && an.est == Stays(an.h, an.inbox, n)
  }

  /** How the loop ends: with nothing pending and the verdict of the kernel, at a frame that was refused,
      or because undecided bytes fill the buffer, when the receive of no bytes looks like an end of file. */
  ghost predicate Ends(an: StmpNet, tail: Tail, r: Reading, flag: bool, left: Source)
    requires an.Valid() && an.c.mtu >= 1
    reads an, an.rbuf
  {
    match r
    case Parsed(Open(fs, rest)) =>
      an.inbox == fs && an.Held() == rest && left.pending == [] && flag == tail.Again?
    case Parsed(Closed(fs)) => an.inbox == fs && !flag
    case Full(fs, rest) =>
      an.inbox == fs && an.Held() + left.pending == rest && |an.Held()| == an.c.mtu && !flag
  }

  /** The loop has ended, as it should for what was to come. */
  ghost predicate Over(an: StmpNet, r: Reading, n: nat, tail: Tail, flag: bool, left: Source)
    reads an, an.rbuf
  {
    && an.Valid() && an.c.mtu >= 1 && (flag ==> Settled(an.c, an.Held()))
    && n <= |an.inbox| && an.est == Stays(an.h, an.inbox, n)
    && Ends(an, tail, r, flag, left)
  }

  /** A receive that gets nothing: nothing follows the undecided bytes, or there is no room for it. */
  lemma OverNone(an: StmpNet, read: seq<byte> -> Reading, n: nat, got: seq<byte>, left: Source, flag: bool)
    requires Going(an, read, n, got)
    requires var count := left.Count(an.c.mtu - an.dlen);
      count < 1 && flag == !((count == -1 && !left.tail.Again?) || count == 0)
    ensures Over(an, read(got + left.pending), n, left.tail, flag, left)
  {
    var held, t := an.Held(), left.pending;
    assert read(got + t) == Next(an.c, an.h, Open(an.inbox, held), t);
    if t == [] {
      assert held + t == held;
    } else {
      assert Buffered(an.c, held + t) == held;
    }
  }

  /** A receive of `count` bytes, and the parse of what is held then. */
  method RecvChunk(an: StmpNet, src: Source, count: nat, ghost read: seq<byte> -> Reading, ghost n: nat,
                   ghost got: seq<byte>)
    returns (flag: bool, left: Source)
    requires Going(an, read, n, got) && count <= an.c.mtu - an.dlen && count <= |src.pending|
    modifies an, an.rbuf
    ensures left == src.After(count) && (an.est ==> old(an.est))
    ensures flag ==> Going(an, read, n, got + src.pending[..count])
    ensures !flag ==> Refused(an, read, n, got + src.pending[..count])
  {
    ghost var o, chunk := Open(an.inbox, an.Held()), src.pending[..count];
    ChunkComesTo(an.c, an.h, read, got, o, chunk);
    ParseSettles(an.c, an.h, o.frames, o.rest + chunk);
    Receive(an, src.pending, count);
    flag := an.EvnRead();
    StaysAppend(an.h, o.frames, an.inbox, n);
    left := src.After(count);
  }

  /** The loop has received `got`, and a frame was refused. */
  ghost predicate Refused(an: StmpNet, read: seq<byte> -> Reading, n: nat, got: seq<byte>)
    reads an, an.rbuf
  {
    && an.Valid() && an.c.mtu >= 1 && n <= |an.inbox| && an.est == Stays(an.h, an.inbox, n)
    && CameTo(an.c, an.h, read, got, Closed(an.inbox))
  }

  lemma OverRefused(an: StmpNet, read: seq<byte> -> Reading, n: nat, got: seq<byte>, t: seq<byte>,
                    tail: Tail, left: Source)
    requires Refused(an, read, n, got)
    ensures Over(an, read(got + t), n, tail, false, left)
  {
    assert read(got + t) == Next(an.c, an.h, Closed(an.inbox), t);
  }

  /** The loop itself, over the bytes of the connection, or those received before a handler closed it and
      then those of whoever has its number. */
  method RecvLoop(an: StmpNet, src: Source, reused: Source, ghost read: seq<byte> -> Reading, ghost n: nat)
    returns (flag: bool, left: Source, ghost own: nat)
    requires Going(an, read, n, []) && an.est
    modifies an, an.rbuf
    ensures own <= |src.pending|
    ensures an.est ==> Over(an, read(src.pending), n, src.tail, flag, left)
    ensures !an.est ==> Over(an, read(src.pending[..own] + reused.pending), n, reused.tail, flag, left)
  {
    ghost var got: seq<byte> := [];
    var closed := false;
    flag, left, own := true, src, 0;
    while flag
      invariant flag && Going(an, read, n, got) && (closed ==> !an.est) && own <= |src.pending|
      invariant got + left.pending == if closed then src.pending[..own] + reused.pending else src.pending
      invariant left.tail == if closed then reused.tail else src.tail
      decreases !closed, |left.pending|
    {
      if !an.est && !closed {
        own := |got|;
        Front(got, left.pending);
        left, closed := reused, true;
      }
      var count := left.Count(an.c.mtu - an.dlen);
      if count < 1 {
        if (count == -1 && !left.tail.Again?) || count == 0 { flag := false; }
        OverNone(an, read, n, got, left, flag);
        break;
      }
      MoveFront(got, left.pending, count);
      got := got + left.pending[..count];
      flag, left := RecvChunk(an, left, count, read, n, got[..|got| - count]);
      if !flag {
        if !closed {
          own := |got|;
          Front(got, left.pending);
        }
        OverRefused(an, read, n, got, left.pending, left.tail, left);
        OverRefused(an, read, n, got, reused.pending, reused.tail, left);
        break;
      }
    }
  }

  lemma Front(a: seq<byte>, b: seq<byte>)
    ensures (a + b)[..|a|] == a
  {
  }

  lemma MoveFront(a: seq<byte>, b: seq<byte>, n: nat)
    requires n <= |b|
    ensures a + b[..n] + b[n..] == a + b && (a + b[..n])[..|a|] == a
  {
  }

  /** The receive loop of a worker for a descriptor that became readable. While the connection stays,
      its bytes come from `src`. If a handler closes it, the loop goes on with the number of its
      descriptor all the same, which then leads to `reused`: an error, or a connection accepted since.
      `own` counts the bytes received before. With an MTU of 4 or more, a connection that stays is parsed
      as one stream; with a smaller one it is also closed, with nothing refused and nothing ended, exactly
      when undecided bytes fill the buffer and more are pending. */
  method EvnRecv(an: StmpNet, src: Source, reused: Source) returns (flag: bool, left: Source, ghost own: nat)
    requires an.Valid() && an.c.mtu >= 1 && Settled(an.c, an.Held()) && an.est
    modifies an, an.rbuf
    ensures own <= |src.pending| && |old(an.inbox)| <= |an.inbox|
    ensures an.Valid() && (flag ==> Settled(an.c, an.Held())) && an.est == Stays(an.h, an.inbox, |old(an.inbox)|)
    ensures an.est ==> Ends(an, src.tail, old(ReadOn(an.c, an.h, an.inbox, an.Held() + src.pending)), flag, left)
    ensures !an.est ==>
              var r := old(ReadOn(an.c, an.h, an.inbox, an.Held() + (src.pending[..own] + reused.pending)));
              Ends(an, reused.tail, r, flag, left)
    ensures an.est && an.c.mtu >= 4 ==>
              Ends(an, src.tail, Parsed(old(Feed(an.c, an.h, Open(an.inbox, an.Held()), src.pending))), flag, left)
    ensures an.est && src.tail.Again? && old(Parse(an.c, an.h, an.inbox, an.Held() + src.pending)).Open? ==>
              (!flag <==> old(ReadOn(an.c, an.h, an.inbox, an.Held() + src.pending)).Full?)
  {
    ghost var c, h, past, held := an.c, an.h, an.inbox, an.Held();
    ReadOnIsParse(c, h, past, held + src.pending);
    ghost var read := (t: seq<byte>) => ReadOn(c, h, past, held + t);
    StartsThere(c, h, past, held, read);
    flag, left, own := RecvLoop(an, src, reused, read, |past|);
  }

  lemma StartsThere(c: Config, h: Handler, past: seq<seq<byte>>, held: seq<byte>, read: seq<byte> -> Reading)
    requires c.mtu >= 1 && forall t: seq<byte> :: read(t) == ReadOn(c, h, past, held + t)
    ensures CameTo(c, h, read, [], Open(past, held))
  {
    forall t: seq<byte> ensures read([] + t) == Next(c, h, Open(past, held), t) {
      assert [] + t == t;
    }
  }
}
