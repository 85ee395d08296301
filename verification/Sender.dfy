/** The segmenting senders. */
module Sender {
  import opened Wire
  import opened Segments
  import opened Messages
  import opened WriteStream
  import opened Connection
  import opened Encoder

  /** A count of pieces of `n` that is neither too small nor too large is the rounded-up quotient. */
  lemma RoundedUp(a: int, n: int, k: int, q: int, r: int)
    requires n >= 1 && a == q * n + r && 0 <= r < n && (k - 1) * n < a <= k * n
    ensures k == q + if r != 0 then 1 else 0
  {
    if k < q {
      MulLe(k + 1, q, n);
      MulLe(k, k, n);
    } else if k > q + 1 {
      MulLe(q + 1, k - 1, n);
      MulLe(q, q, n);
    }
  }

  /** The quotient and the remainder the senders compute describe the cutting. */
  lemma CutByQuotient(p: seq<byte>, n: int)
    requires n >= 1 && |p| > n
    ensures |Cut(p, n)| == |p| / n + (if |p| % n != 0 then 1 else 0)
  {
    CutCount(p, n);
    DivMod(|p|, n);
    RoundedUp(|p|, n, |Cut(p, n)|, |p| / n, |p| % n);
  }

  lemma {:induction false} PartAt(c: Config, tag: byte, tid: word, cs: seq<seq<byte>>, i: nat)
    requires c.Sane() && AreSegments(c, cs) && i < |cs|
    ensures Parts(c, tag, tid, cs)[i] == PartFrame(c, tag, tid, cs[i], i < |cs| - 1)
  {
    if i > 0 { PartAt(c, tag, tid, cs[1..], i - 1); }
  }

  /** The frames after the first. */
  function Rest(c: Config, tag: byte, tid: word, pb: seq<byte>): seq<seq<byte>>
    requires c.Sane()
  {
    CutsAreSegments(c, pb);
    Parts(c, tag, tid, Cut(pb, c.SegLen())[1..])
  }

  /** The segment at `i * n` is whole, unless it is the last, which is what remains. */
  lemma SegmentAt(p: seq<byte>, n: int, i: nat, len: nat)
    requires n >= 1 && |p| > n && 1 <= i < |Cut(p, n)|
    requires len == if i == |p| / n then |p| % n else n
    ensures 0 <= i * n && i * n + len <= |p| && Cut(p, n)[i] == p[i * n..i * n + len]
  {
    CutByQuotient(p, n);
    CutAt(p, n, i);
    DivMod(|p|, n);
    if i == |p| / n {
      assert p[i * n..] == p[i * n..|p|];
    } else {
      OffsetFits(|p|, n, i);
    }
  }

  lemma OffsetFits(a: nat, n: int, i: nat)
    requires n >= 1 && i < a / n
    ensures i * n + n <= a
  {
    DivMod(a, n);
    MulLe(i + 1, a / n, n);
    assert (i + 1) * n == i * n + n;
  }

  lemma RestAt(c: Config, tag: byte, tid: word, pb: seq<byte>, i: nat)
    requires c.Sane() && 1 <= i < |Cut(pb, c.SegLen())|
    ensures var cs := Cut(pb, c.SegLen());
      |cs[i]| <= c.SegLen() && Rest(c, tag, tid, pb)[i - 1] == PartFrame(c, tag, tid, cs[i], i < |cs| - 1)
  {
    var cs := Cut(pb, c.SegLen());
    CutsAreSegments(c, pb);
    PartAt(c, tag, tid, cs[1..], i - 1);
    assert cs[1..][i - 1] == cs[i];
  }

  /** Sending one more frame extends the list of frames sent. */
  lemma SentOneMore(s: Conn, fs: seq<seq<byte>>, i: nat)
    requires i < |fs|
    ensures SendAll(s, fs[..i + 1]) == WriteStream.Send(SendAll(s, fs[..i]), fs[i])
  {
    assert fs[..i + 1] == fs[..i] + [fs[i]];
    SendAllAppend(s, fs[..i], [fs[i]]);
    assert SendAll(SendAll(s, fs[..i]), [fs[i]]) == SendAll(WriteStream.Send(SendAll(s, fs[..i]), fs[i]), [fs[i]][1..]);
  }

  /** Stopping early on a lost connection sends the same as going on. */
  lemma SentEnough(s: Conn, fs: seq<seq<byte>>, i: nat)
    requires i <= |fs| && (i == |fs| || !SendAll(s, fs[..i]).est)
    ensures SendAll(s, fs[..i]) == SendAll(s, fs)
  {
    assert fs[..i] + fs[i..] == fs;
    SendAllAppend(s, fs[..i], fs[i..]);
    if i < |fs| { SendAllLost(SendAll(s, fs[..i]), fs[i..]); } else { assert fs[i..] == []; }
  }

  /** What all senders do after the first frame of a long message: the whole segments, then the
      remainder, until the connection is lost. */
  method SendRest(an: ActorNet, c: Config, tag: byte, tid: word, pb: seq<byte>)
    requires an.Valid() && c.Sane() && |pb| > c.SegLen()
    modifies an
    ensures an.Valid() && an.Abs() == SendAll(old(an.Abs()), Rest(c, tag, tid, pb))
  {
    var seglen := c.mtu - c.reserved;
    var segs, remain := |pb| / seglen, |pb| % seglen;
    ghost var start, fs := an.Abs(), Rest(c, tag, tid, pb);
    CutByQuotient(pb, seglen);
    var i := 1;
    while i < segs && an.est
      invariant 1 <= i <= segs && an.Valid() && an.Abs() == SendAll(start, fs[..i - 1])
    {
      SendSegment(an, c, tag, tid, pb, i, seglen, if remain != 0 then true else i != segs - 1, start);
      i := i + 1;
    }
    if remain > 0 && an.est {
      SendSegment(an, c, tag, tid, pb, segs, remain, false, start);
      i := segs + 1;
    }
    SentEnough(start, fs, i - 1);
  }

  /** Segment `i`, after those before it have been sent on the connection `start`. */
  method SendSegment(an: ActorNet, c: Config, tag: byte, tid: word, pb: seq<byte>,
                     i: nat, len: nat, haveNext: bool, ghost start: Conn)
    requires an.Valid() && c.Sane() && |pb| > c.SegLen() && 1 <= i < |Cut(pb, c.SegLen())|
    requires len == if i == |pb| / c.SegLen() then |pb| % c.SegLen() else c.SegLen()
    requires haveNext == (i < |Cut(pb, c.SegLen())| - 1)
    requires an.Abs() == SendAll(start, Rest(c, tag, tid, pb)[..i - 1])
    modifies an
    ensures an.Valid() && an.Abs() == SendAll(start, Rest(c, tag, tid, pb)[..i])
  {
    SegmentAt(pb, c.SegLen(), i, len);
    RestAt(c, tag, tid, pb, i);
    SentOneMore(start, Rest(c, tag, tid, pb), i - 1);
    var dat := EncodePart(c, tag, tid, pb, i * (c.mtu - c.reserved), len, haveNext);
    an.Send(dat);
  }

  /** A message of one frame. */
  method SendFrame(an: ActorNet, dat: seq<byte>)
    requires an.Valid()
    modifies an
    ensures an.Valid() && an.Abs() == SendAll(old(an.Abs()), [dat])
  {
    assert [dat][1..] == [];
    an.Send(dat);
  }

  /** A message of several frames, of which `dat` is the first. */
  method SendSeries(an: ActorNet, c: Config, dat: seq<byte>, tag: byte, tid: word, pb: seq<byte>)
    requires an.Valid() && c.Sane() && |pb| > c.SegLen()
    modifies an
    ensures an.Valid() && an.Abs() == SendAll(old(an.Abs()), [dat] + Rest(c, tag, tid, pb))
  {
    assert ([dat] + Rest(c, tag, tid, pb))[1..] == Rest(c, tag, tid, pb);
    an.Send(dat);
    SendRest(an, c, tag, tid, pb);
  }

  method SendContinue(an: ActorNet, c: Config, dtid: word, pb: seq<byte>)
    requires an.Valid() && c.Sane()
    modifies an
    ensures an.Valid() && an.Abs() == SendAll(old(an.Abs()), Frames(c, Continue(dtid, pb)))
  {
    var seglen := c.mtu - c.reserved;
    if |pb| <= seglen {
      var dat := EncodeContinue(c, dtid, pb);
      SendFrame(an, dat);
      return;
    }
    var dat := EncodeContinueWithPart(c, dtid, pb, 0, seglen);
    SendSeries(an, c, dat, c.dtid, dtid, pb);
  }

  method SendEnd(an: ActorNet, c: Config, dtid: word, ret: short, end: Option<seq<byte>>, sid: Option<word>)
    requires an.Valid() && c.Sane()
    modifies an
    ensures an.Valid() && an.Abs() == SendAll(old(an.Abs()), Frames(c, End(dtid, ret, sid, end)))
  {
    if end.None? {
      var dat := EncodeEnd(c, dtid, ret, None, sid);
      SendFrame(an, dat);
      return;
    }
    var pb := end.value;
    var seglen := c.mtu - c.reserved;
    if |pb| <= seglen {
      var dat := EncodeEnd(c, dtid, ret, Some(pb), sid);
      SendFrame(an, dat);
      return;
    }
    var dat := EncodeEndWithPart(c, dtid, ret, sid, pb, 0, seglen);
    SendSeries(an, c, dat, c.dtid, dtid, pb);
  }

  method SendUni(an: ActorNet, c: Config, stid: word, sid: Option<word>, uuid: seq<byte>, pb: seq<byte>)
    requires an.Valid() && c.Sane() && |uuid| <= DNE_MAX
    modifies an
    ensures an.Valid() && an.Abs() == SendAll(old(an.Abs()), UniFrames(c, stid, sid, uuid, pb))
  {
    var seglen := c.mtu - c.reserved;
    if |pb| <= seglen {
      var dat := EncodeUni(c, sid, uuid, pb);
      SendFrame(an, dat);
      return;
    }
    var dat := EncodeUniWithPart(c, stid, sid, pb, 0, seglen);
    SendSeries(an, c, dat, c.stid, stid, pb);
  }

  /** The answer to a ping. */
  method EvnPing(an: ActorNet, c: Config)
    requires an.Valid() && c.Sane()
    modifies an
    ensures an.Valid() && an.Abs() == SendAll(old(an.Abs()), Frames(c, Pong))
  {
    SendFrame(an, [c.pong]);
  }
}
