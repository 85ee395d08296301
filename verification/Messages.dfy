/** The frames of the messages a connection sends, and the messages a peer puts together from frames. */
module Messages {
  import opened Wire
  import opened Segments

  /** What is sent on a connection: the answer to a ping, STMP-CONTINUE and STMP-END. */
  datatype Msg =
    | Pong
    | Continue(tid: word, payload: seq<byte>)
    | End(tid: word, ret: short, sid: Option<word>, body: Option<seq<byte>>)

  function Frame(tag: byte, fs: seq<Field>): seq<byte> {
    Tlv(tag, EncFields(fs))
  }

  /** The optional fields of a frame are lists of length at most one. */
  function IntField(tag: byte, v: word): seq<Field> { [Field(tag, Be4(v))] }

  function SidField(c: Config, sid: Option<word>): seq<Field> {
    if sid.Some? then IntField(c.sid, sid.value) else []
  }

  function RetField(c: Config, ret: short, more: bool): seq<Field> {
    if more || ret != c.success then [Field(c.ret, Be2(ret))] else []
  }

  /** The flag and the data of one segment. */
  function Piece(c: Config, d: Option<seq<byte>>, more: bool): seq<Field> {
    (if more then [Field(c.more, [c.present])] else []) + (if d.Some? then [Field(c.dat, d.value)] else [])
  }

  predicate IsSegment(c: Config, d: Option<seq<byte>>) {
    d.Some? ==> |d.value| <= c.SegLen()
  }

  /** The fields in front of a segment take at most `k` octets of the reserve. */
  predicate Reserve(c: Config, fs: seq<Field>, k: nat) {
    |EncFields(fs)| <= k
  }

  lemma PieceSize(c: Config, d: Option<seq<byte>>, more: bool)
    requires c.Sane() && IsSegment(c, d)
    ensures |EncFields(Piece(c, d, more))| <= 7 + if d.Some? then |d.value| else 0
  {
    var a := if more then [Field(c.more, [c.present])] else [];
    var b := if d.Some? then [Field(c.dat, d.value)] else [];
    EncOne(Field(c.more, [c.present]));
    if d.Some? { EncOne(Field(c.dat, d.value)); }
    EncAppend(a, b);
  }

  /** The reserve covers every header, so a frame around one segment is within the MTU. */
  lemma FrameSize(c: Config, tag: byte, fs: seq<Field>, d: Option<seq<byte>>, more: bool)
    requires c.Sane() && IsSegment(c, d) && Reserve(c, fs, 16)
    ensures |Frame(tag, fs + Piece(c, d, more))| <= c.mtu
  {
    PieceSize(c, d, more);
    EncAppend(fs, Piece(c, d, more));
  }

  /** The fields naming the transaction of a leading frame, in wire order. */
  function Leading(c: Config, m: Msg, more: bool): seq<Field>
    requires !m.Pong?
  {
    IntField(c.dtid, m.tid) + if m.End? then SidField(c, m.sid) + RetField(c, m.ret, more) else []
  }

  lemma LeadingSize(c: Config, m: Msg, more: bool)
    requires !m.Pong?
    ensures Reserve(c, Leading(c, m, more), 16)
  {
    TidSize(c, c.dtid, m.tid);
    if m.End? {
      if m.sid.Some? { TidSize(c, c.sid, m.sid.value); }
      EncOne(Field(c.ret, Be2(m.ret)));
      EncAppend(SidField(c, m.sid), RetField(c, m.ret, more));
      EncAppend(IntField(c.dtid, m.tid), SidField(c, m.sid) + RetField(c, m.ret, more));
    }
  }

  lemma TidSize(c: Config, tag: byte, tid: word)
    ensures |EncFields(IntField(tag, tid))| == 6
  {
    EncOne(Field(tag, Be4(tid)));
  }

  function LeadFrame(c: Config, m: Msg, d: Option<seq<byte>>, more: bool): (f: seq<byte>)
    requires c.Sane() && !m.Pong? && IsSegment(c, d)
    ensures |f| <= c.mtu
  {
    LeadingSize(c, m, more);
    FrameSize(c, 0, Leading(c, m, more), d, more);
    Frame(if m.End? then c.end else c.cont, Leading(c, m, more) + Piece(c, d, more))
  }

  function PartFrame(c: Config, tag: byte, tid: word, d: seq<byte>, more: bool): (f: seq<byte>)
    requires c.Sane() && |d| <= c.SegLen()
    ensures |f| <= c.mtu
  {
    TidSize(c, tag, tid);
    FrameSize(c, 0, IntField(tag, tid), Some(d), more);
    Frame(c.part, IntField(tag, tid) + Piece(c, Some(d), more))
  }

  predicate AreSegments(c: Config, cs: seq<seq<byte>>) {
    forall i | 0 <= i < |cs| :: |cs[i]| <= c.SegLen()
  }

  /** The frames of the segments after the first: all but the last announce another one. */
  function Parts(c: Config, tag: byte, tid: word, cs: seq<seq<byte>>): (fs: seq<seq<byte>>)
    requires c.Sane() && AreSegments(c, cs)
    ensures |fs| == |cs|
  {
    if cs == [] then [] else [PartFrame(c, tag, tid, cs[0], |cs| > 1)] + Parts(c, tag, tid, cs[1..])
  }

  lemma CutsAreSegments(c: Config, p: seq<byte>)
    requires c.Sane()
    ensures AreSegments(c, Cut(p, c.SegLen()))
  {
    CutSizes(p, c.SegLen());
  }

  function PayloadOf(m: Msg): Option<seq<byte>>
    requires !m.Pong?
  {
    if m.End? then m.body else Some(m.payload)
  }

  /** Every frame a message is sent as. */
  function Frames(c: Config, m: Msg): seq<seq<byte>>
    requires c.Sane()
  {
    if m.Pong? then [[c.pong]]
    else if PayloadOf(m).None? then [LeadFrame(c, m, None, false)]
    else
      var cs := Cut(PayloadOf(m).value, c.SegLen());
      CutsAreSegments(c, PayloadOf(m).value);
      [LeadFrame(c, m, Some(cs[0]), |cs| > 1)] + Parts(c, c.dtid, m.tid, cs[1..])
  }

  function AllFrames(c: Config, ms: seq<Msg>): seq<seq<byte>>
    requires c.Sane()
  {
    if ms == [] then [] else Frames(c, ms[0]) + AllFrames(c, ms[1..])
  }

  // ------------------------------------------------------------------ reading frames

  /** The transaction tag and the fields of a frame. */
  datatype View = View(tag: byte, fields: seq<Field>)

  function Read(f: seq<byte>): Option<View> {
    if !HasHeader(f) then None
    else
      match DecFields(f[HeaderLen(f)..])
      case None => None
      case Some(fs) => Some(View(f[0], fs))
  }

  lemma FrameReads(tag: byte, fs: seq<Field>)
    requires |EncFields(fs)| < 0x10000
    ensures Read(Frame(tag, fs)) == Some(View(tag, fs))
  {
    var f := Frame(tag, fs);
    TlvReads(tag, EncFields(fs), []);
    assert f + [] == f && f[HeaderLen(f)..] == EncFields(fs);
    FieldsAreShort(fs);
    FieldsRoundTrip(fs);
  }

  lemma {:induction false} FieldsAreShort(fs: seq<Field>)
    ensures forall i | 0 <= i < |fs| :: |fs[i].val| < |EncFields(fs)|
  {
    if fs != [] {
      FieldsAreShort(fs[1..]);
      forall i | 0 <= i < |fs| ensures |fs[i].val| < |EncFields(fs)| {
        if i > 0 { assert fs[i] == fs[1..][i - 1]; }
      }
    }
  }

  function DatOf(c: Config, f: seq<byte>): Option<seq<byte>> {
    if Read(f).Some? then Lookup(Read(f).value.fields, c.dat) else None
  }

  predicate HasMore(c: Config, f: seq<byte>) {
    Read(f).Some? && Lookup(Read(f).value.fields, c.more).Some?
  }

  /** What a frame `lead + piece` carries. */
  lemma PieceReads(c: Config, tag: byte, fs: seq<Field>, d: Option<seq<byte>>, more: bool)
    requires c.Sane() && |EncFields(fs + Piece(c, d, more))| < 0x10000
    requires Lookup(fs, c.dat) == Lookup(fs, c.more) == None
    ensures var f := Frame(tag, fs + Piece(c, d, more));
      && Read(f) == Some(View(tag, fs + Piece(c, d, more)))
      && DatOf(c, f) == d && HasMore(c, f) == more
      && Lookup(fs + Piece(c, d, more), c.more) == if more then Some([c.present]) else None
  {
    FrameReads(tag, fs + Piece(c, d, more));
    LookupAppend(fs, Piece(c, d, more), c.dat);
    LookupAppend(fs, Piece(c, d, more), c.more);
  }

  // ------------------------------------------------------------------ STMP-UNI

  /** The longest DNE the encoder has room for beside the reserve. */
  const DNE_MAX := 124

  function UniFrame(c: Config, sid: Option<word>, dne: seq<byte>, p: seq<byte>): seq<byte> {
    Frame(c.uni, [Field(c.dne, dne)] + SidField(c, sid) + Piece(c, Some(p), false))
  }

  /** The first of several UNI frames, under the END tag as the encoder writes it. */
  function UniLead(c: Config, stid: word, sid: Option<word>, d: seq<byte>): seq<byte> {
    Frame(c.end, IntField(c.stid, stid) + SidField(c, sid) + Piece(c, Some(d), true))
  }

  function UniFrames(c: Config, stid: word, sid: Option<word>, dne: seq<byte>, p: seq<byte>): seq<seq<byte>>
    requires c.Sane()
  {
    if |p| <= c.SegLen() then [UniFrame(c, sid, dne, p)]
    else
      var cs := Cut(p, c.SegLen());
      CutsAreSegments(c, p);
      [UniLead(c, stid, sid, cs[0])] + Parts(c, c.stid, stid, cs[1..])
  }
}
