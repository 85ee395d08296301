/** The sending methods of a connection, on the queue of partly written buffers. */
module Connection {
  import opened Wire
  import opened WriteStream

  /** A queued buffer: a private copy of the bytes and the position of the first unsent one. */
  class AnWbuf {
    const dat: seq<byte>
    var pos: nat

    constructor (dat: seq<byte>)
      ensures this.dat == dat && pos == 0
    {
      this.dat, pos := dat, 0;
    }
  }

  ghost predicate Queue(ws: seq<AnWbuf>)
    reads ws
  {
    && (forall i | 0 <= i < |ws| :: ws[i].pos <= |ws[i].dat|)
    && (forall i, j | 0 <= i < j < |ws| :: ws[i] != ws[j])
  }

  ghost function Tails(ws: seq<AnWbuf>): (ts: seq<seq<byte>>)
    requires Queue(ws)
    reads ws
    ensures |ts| == |ws|
  {
    if ws == [] then [] else [ws[0].dat[ws[0].pos..]] + Tails(ws[1..])
  }

  lemma {:induction false} TailsSnoc(ws: seq<AnWbuf>, w: AnWbuf)
    requires Queue(ws + [w])
    ensures Queue(ws) && w.pos <= |w.dat| && Tails(ws + [w]) == Tails(ws) + [w.dat[w.pos..]]
  {
    assert (ws + [w])[|ws|] == w;
    assert forall i | 0 <= i < |ws| :: ws[i] == (ws + [w])[i];
    if ws != [] {
      assert (ws + [w])[1..] == ws[1..] + [w];
      TailsSnoc(ws[1..], w);
    }
  }

  class ActorNet {
    var est: bool
    var wevn: bool
    const queueing: bool
    var wbuf: seq<AnWbuf>
    var kernel: Kernel
    ghost var accepted: seq<byte>

    ghost predicate Valid()
      reads this, wbuf
    {
      Queue(wbuf)
    }

    ghost function Abs(): Conn
      requires Valid()
      reads this, wbuf
    {
      Conn(est, queueing, wevn, Tails(wbuf), kernel, accepted)
    }

    constructor (queueing: bool, kernel: Kernel)
      ensures Valid() && Abs() == Fresh(queueing, kernel) && wbuf == []
    {
      est, wevn, this.queueing, wbuf, this.kernel, accepted := true, false, queueing, [], kernel, [];
    }

    /** The system call: the kernel takes what it takes. */
    method KernelSend(dat: seq<byte>) returns (r: Reply)
      modifies `kernel, `accepted
      ensures r == old(kernel).Answer(|dat|) && kernel == old(kernel).After(|dat|)
      ensures accepted == old(accepted) + dat[..Taken(r)]
    {
      r := kernel.Answer(|dat|);
      kernel, accepted := kernel.After(|dat|), accepted + dat[..Taken(r)];
    }

    method Enqueue(dat: seq<byte>)
      requires Valid()
      modifies `wbuf
      ensures Valid() && Abs() == old(Abs()).(wbuf := old(Tails(wbuf)) + [dat])
      ensures |wbuf| == |old(wbuf)| + 1 && wbuf[..|wbuf| - 1] == old(wbuf) && fresh(wbuf[|wbuf| - 1])
    {
      var w := new AnWbuf(dat);
      wbuf := wbuf + [w];
      TailsSnoc(old(wbuf), w);
      assert w.dat[w.pos..] == dat;
    }

    method Send(dat: seq<byte>)
      requires Valid()
      modifies this
      ensures Valid() && Abs() == WriteStream.Send(old(Abs()), dat)
      ensures var r := old(kernel).Answer(|dat|);
        old(est) ==> (est <==> if queueing then old(wbuf) != [] || r.w == |dat| || r.again else r.w == |dat|)
      ensures old(wbuf) <= wbuf && forall i | |old(wbuf)| <= i < |wbuf| :: fresh(wbuf[i])
    {
      if !est { return; }
      if queueing {
        SendBuf(dat);
        return;
      }
      var r := KernelSend(dat);
      if r.w == |dat| { return; }
      est := false;
    }

    method SendBuf(dat: seq<byte>)
      requires Valid()
      modifies this
      ensures Valid() && Abs() == WriteStream.SendBuf(old(Abs()), dat)
      ensures var r := old(kernel).Answer(|dat|);
        old(est) ==> (est <==> old(wbuf) != [] || r.w == |dat| || r.again)
      ensures old(wbuf) <= wbuf && forall i | |old(wbuf)| <= i < |wbuf| :: fresh(wbuf[i])
    {
      if wbuf != [] {
        Enqueue(dat);
        return;
      }
      var r := KernelSend(dat);
      if r.w == |dat| { return; }
      if r.again {
        Enqueue(dat[if r.w < 0 then 0 else r.w..]);
        if !wevn {
          kernel := kernel.Meanwhile();
          kernel := kernel.Watch();
          wevn := true;
        }
        return;
      }
      est := false;
    }

    /** `n` more bytes of the buffer at the front are sent. */
    method Advance(n: nat)
      requires Valid() && wbuf != [] && n <= |Tails(wbuf)[0]|
      modifies wbuf[0]
      ensures Valid() && Tails(wbuf) == [old(Tails(wbuf)[0][n..])] + old(Tails(wbuf)[1..])
    {
      var w := wbuf[0];
      ghost var tails := Tails(wbuf[1..]);
      assert w.dat[w.pos..][n..] == w.dat[w.pos + n..];
      w.pos := w.pos + n;
      assert w !in wbuf[1..];
      assert Tails(wbuf[1..]) == tails;
    }

    /** One turn of the draining loop, on the buffer at the front. */
    method WriteFront() returns (more: bool)
      requires Valid() && wbuf != []
      modifies this, wbuf[0]
      ensures Valid() && wbuf == if more then old(wbuf)[1..] else old(wbuf)
      ensures more == FrontGoes(old(Abs())) && Abs() == Turn(old(Abs()))
    {
      var w := wbuf[0];
      ghost var ts := Tails(wbuf);
      var r := |w.dat| - w.pos;
      var reply := KernelSend(w.dat[w.pos..]);
      more := reply.w == r;
      if more {
        wbuf := wbuf[1..];
      } else if reply.again {
        if reply.w > 0 { Advance(reply.w); } else { assert [ts[0][0..]] + ts[1..] == ts; }
      } else {
        est := false;
      }
    }

    /** What the loop will make of the connection: `goal`. The first `k` of `all` buffers are gone. */
    ghost predicate Draining(goal: Conn, all: seq<AnWbuf>, k: nat, more: bool)
      reads this, wbuf
    {
      && Valid() && k <= |all| && wbuf == all[k..]
      && (if more then WriteStream.EvnWrite(Abs()) else Abs()) == goal
    }

    method DrainTurn(ghost goal: Conn, ghost all: seq<AnWbuf>, ghost k: nat) returns (more: bool)
      requires Draining(goal, all, k, true) && queueing && wbuf != []
      modifies this, all[k]
      ensures Draining(goal, all, if more then k + 1 else k, more)
    {
      more := WriteFront();
    }

    method EvnWrite()
      requires Valid()
      modifies this, wbuf
      ensures Valid() && Abs() == WriteStream.EvnWrite(old(Abs()))
      ensures |wbuf| <= |old(wbuf)| && wbuf == old(wbuf)[|old(wbuf)| - |wbuf|..]
    {
      ghost var goal, all, k := WriteStream.EvnWrite(Abs()), wbuf, 0;
      var more := true;
      while more && queueing && wbuf != []
        invariant Draining(goal, all, k, more)
        decreases more, |wbuf|
      {
        more := DrainTurn(goal, all, k);
        k := if more then k + 1 else k;
      }
    }
  }
}
