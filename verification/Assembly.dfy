/** The receiver's view of a message: what a peer that follows the HAVE_NEXT_PART flag puts together
    from the frames it is handed. The handlers for these frames are stubs in the repository, so this
    is the meaning the encoders are checked against. */
module Assembly {
  import opened Wire
  import opened Framing
  import opened Segments
  import opened Messages

  /** Complete messages in order of arrival, and the one still waiting for its next part. */
  datatype State = State(done: seq<Msg>, partial: Option<Msg>)

  const START := State([], None)

  function WithBody(m: Msg, d: Option<seq<byte>>): Msg
    requires !m.Pong?
  {
    if m.End? then m.(body := d) else m.(payload := if d.Some? then d.value else [])
  }

  function Extend(m: Msg, d: seq<byte>): Msg
    requires !m.Pong?
  {
    WithBody(m, Some((if PayloadOf(m).Some? then PayloadOf(m).value else []) + d))
  }

  function Finish(st: State, m: Msg, more: bool): State {
    if more then State(st.done, Some(m)) else State(st.done + [m], None)
  }

  /** The message a leading frame starts. */
  function Decode(c: Config, v: View): Option<Msg> {
    var tid, sid, ret := Lookup(v.fields, c.dtid), Lookup(v.fields, c.sid), Lookup(v.fields, c.ret);
    var dat := Lookup(v.fields, c.dat);
    if tid.None? || |tid.value| != 4 then None
    else if v.tag == c.cont then Some(Continue(FromBe4(tid.value), if dat.Some? then dat.value else []))
    else if v.tag != c.end then None
    else if (sid.Some? && |sid.value| != 4) || (ret.Some? && |ret.value| != 2) then None
    else Some(End(FromBe4(tid.value),
                  if ret.Some? then FromBe2(ret.value) else c.success,
                  if sid.Some? then Some(FromBe4(sid.value)) else None,
                  dat))
  }

  function Accept(c: Config, st: State, f: seq<byte>): State {
    if f == [c.ping] then st
    else if f == [c.pong] then State(st.done + [Pong], st.partial)
    else if Read(f).None? then st
    else
      var v := Read(f).value;
      if v.tag == c.part then
        if st.partial.None? || st.partial.value.Pong? then st
        else if Lookup(v.fields, c.dtid) != Some(Be4(st.partial.value.tid)) || DatOf(c, f).None? then st
        else Finish(st, Extend(st.partial.value, DatOf(c, f).value), HasMore(c, f))
      else if Decode(c, v).None? then st
      else Finish(st, Decode(c, v).value, HasMore(c, f))
  }

  function AcceptAll(c: Config, st: State, fs: seq<seq<byte>>): State
    decreases |fs|
  {
    if fs == [] then st else AcceptAll(c, Accept(c, st, fs[0]), fs[1..])
  }

  lemma {:induction false} AcceptAppend(c: Config, st: State, a: seq<seq<byte>>, b: seq<seq<byte>>)
    ensures AcceptAll(c, st, a + b) == AcceptAll(c, AcceptAll(c, st, a), b)
    decreases |a|
  {
    if a == [] {
      assert a + b == b;
    } else {
      assert (a + b)[1..] == a[1..] + b;
      AcceptAppend(c, Accept(c, st, a[0]), a[1..], b);
    }
  }

  /** Complete messages are never taken back. */
  lemma {:induction false} AcceptGrows(c: Config, st: State, fs: seq<seq<byte>>)
    ensures st.done <= AcceptAll(c, st, fs).done
    decreases |fs|
  {
    if fs != [] { AcceptGrows(c, Accept(c, st, fs[0]), fs[1..]); }
  }

  /** The value a leading frame gives to `tag` is that of the only field with the tag. */
  lemma LeadingLookup(c: Config, m: Msg, more: bool, tag: byte)
    requires c.Sane() && !m.Pong?
    ensures Lookup(Leading(c, m, more), tag)
         == if tag == c.dtid then Some(Be4(m.tid))
            else if m.End? && tag == c.sid && m.sid.Some? then Some(Be4(m.sid.value))
            else if m.End? && tag == c.ret && (more || m.ret != c.success) then Some(Be2(m.ret))
            else None
  {
    LookupOne(Field(c.dtid, Be4(m.tid)), tag);
    if m.End? {
      LookupAppend(IntField(c.dtid, m.tid), SidField(c, m.sid) + RetField(c, m.ret, more), tag);
      LookupAppend(SidField(c, m.sid), RetField(c, m.ret, more), tag);
      if m.sid.Some? { LookupOne(Field(c.sid, Be4(m.sid.value)), tag); }
      LookupOne(Field(c.ret, Be2(m.ret)), tag);
    } else {
      LookupAppend(IntField(c.dtid, m.tid), [], tag);
    }
  }

  lemma PieceLookup(c: Config, d: Option<seq<byte>>, more: bool, tag: byte)
    ensures tag !in {c.more, c.dat} ==> Lookup(Piece(c, d, more), tag) == None
  {
    var a := if more then [Field(c.more, [c.present])] else [];
    var b := if d.Some? then [Field(c.dat, d.value)] else [];
    LookupAppend(a, b, tag);
    LookupOne(Field(c.more, [c.present]), tag);
    if d.Some? { LookupOne(Field(c.dat, d.value), tag); }
  }

  /** A leading frame tells the receiver the whole message but the segments still to come. */
  lemma LeadDecodes(c: Config, m: Msg, d: Option<seq<byte>>, more: bool)
    requires c.Sane() && !m.Pong? && IsSegment(c, d) && (m.Continue? ==> d.Some?)
    ensures var f := LeadFrame(c, m, d, more);
      && Read(f).Some? && Read(f).value.tag != c.part && f != [c.ping] && f != [c.pong]
      && Decode(c, Read(f).value) == Some(WithBody(m, d))
      && DatOf(c, f) == d && HasMore(c, f) == more
  {
    var tag := if m.End? then c.end else c.cont;
    LeadingSize(c, m, more);
    FrameSize(c, tag, Leading(c, m, more), d, more);
    LeadingLookup(c, m, more, c.dat);
    LeadingLookup(c, m, more, c.more);
    PieceReads(c, tag, Leading(c, m, more), d, more);
    FieldsDecode(c, m, d, more);
  }

  lemma FieldsDecode(c: Config, m: Msg, d: Option<seq<byte>>, more: bool)
    requires c.Sane() && !m.Pong? && (m.Continue? ==> d.Some?)
    requires var fs := Leading(c, m, more) + Piece(c, d, more); Lookup(fs, c.dat) == d
    ensures var fs := Leading(c, m, more) + Piece(c, d, more);
      Decode(c, View(if m.End? then c.end else c.cont, fs)) == Some(WithBody(m, d))
  {
    LeadField(c, m, d, more, c.dtid);
    LeadField(c, m, d, more, c.sid);
    LeadField(c, m, d, more, c.ret);
    Be4RoundTrip(m.tid);
    if m.End? && m.sid.Some? { Be4RoundTrip(m.sid.value); }
  }

  lemma LeadField(c: Config, m: Msg, d: Option<seq<byte>>, more: bool, tag: byte)
    requires c.Sane() && !m.Pong? && tag !in {c.more, c.dat}
    ensures Lookup(Leading(c, m, more) + Piece(c, d, more), tag)
         == if tag == c.dtid then Some(Be4(m.tid))
            else if m.End? && tag == c.sid && m.sid.Some? then Some(Be4(m.sid.value))
            else if m.End? && tag == c.ret && (more || m.ret != c.success) then Some(Be2(m.ret))
            else None
  {
    LookupAppend(Leading(c, m, more), Piece(c, d, more), tag);
    LeadingLookup(c, m, more, tag);
    PieceLookup(c, d, more, tag);
  }

  lemma PartReads(c: Config, tag: byte, tid: word, d: seq<byte>, more: bool)
    requires c.Sane() && |d| <= c.SegLen() && tag !in {c.dat, c.more}
    ensures var f := PartFrame(c, tag, tid, d, more);
      && Read(f).Some? && Read(f).value.tag == c.part && f != [c.ping] && f != [c.pong]
      && Lookup(Read(f).value.fields, tag) == Some(Be4(tid))
      && DatOf(c, f) == Some(d) && HasMore(c, f) == more
  {
    TidSize(c, tag, tid);
    FrameSize(c, c.part, IntField(tag, tid), Some(d), more);
    PieceReads(c, c.part, IntField(tag, tid), Some(d), more);
    LookupAppend(IntField(tag, tid), Piece(c, Some(d), more), tag);
  }

  lemma PartAccepted(c: Config, done: seq<Msg>, m: Msg, d: seq<byte>, more: bool)
    requires c.Sane() && !m.Pong? && |d| <= c.SegLen()
    ensures Accept(c, State(done, Some(m)), PartFrame(c, c.dtid, m.tid, d, more))
         == Finish(State(done, Some(m)), Extend(m, d), more)
  {
    PartReads(c, c.dtid, m.tid, d, more);
  }

  /** The parts of a message complete it, in order, whatever was complete before. */
  lemma {:induction false} PartsAssemble(c: Config, done: seq<Msg>, m: Msg, cs: seq<seq<byte>>)
    requires c.Sane() && !m.Pong? && PayloadOf(m).Some? && AreSegments(c, cs) && cs != []
    ensures AcceptAll(c, State(done, Some(m)), Parts(c, c.dtid, m.tid, cs))
         == State(done + [Extend(m, Concat(cs))], None)
    decreases |cs|
  {
    var fs := Parts(c, c.dtid, m.tid, cs);
    var m' := Extend(m, cs[0]);
    PartAccepted(c, done, m, cs[0], |cs| > 1);
    assert fs[1..] == Parts(c, c.dtid, m.tid, cs[1..]);
    ExtendAppend(m, cs[0], Concat(cs[1..]));
    if |cs| > 1 {
      PartsAssemble(c, done, m', cs[1..]);
    } else {
      assert m' == Extend(m, Concat(cs)) by { assert Concat(cs) == cs[0] + [] == cs[0]; }
    }
  }

  lemma ExtendAppend(m: Msg, a: seq<byte>, b: seq<byte>)
    requires !m.Pong? && PayloadOf(m).Some?
    ensures Extend(Extend(m, a), b) == Extend(m, a + b)
  {
    assert PayloadOf(m).value + a + b == PayloadOf(m).value + (a + b);
  }

  /** Round trip of one message: its frames, and nothing less, complete exactly that message. */
  lemma MessageRoundTrip(c: Config, done: seq<Msg>, m: Msg)
    requires c.Sane()
    ensures AcceptAll(c, State(done, None), Frames(c, m)) == State(done + [m], None)
  {
    var st := State(done, None);
    var fs := Frames(c, m);
    if m.Pong? {
      assert AcceptAll(c, Accept(c, st, fs[0]), fs[1..]) == Accept(c, st, fs[0]);
    } else if PayloadOf(m).None? {
      LeadDecodes(c, m, None, false);
      assert AcceptAll(c, Accept(c, st, fs[0]), fs[1..]) == Accept(c, st, fs[0]);
    } else {
      var p := PayloadOf(m).value;
      var cs := Cut(p, c.SegLen());
      CutsAreSegments(c, p);
      CutTiles(p, c.SegLen());
      LeadDecodes(c, m, Some(cs[0]), |cs| > 1);
      var m' := WithBody(m, Some(cs[0]));
      assert fs[1..] == Parts(c, c.dtid, m.tid, cs[1..]);
      assert Accept(c, st, fs[0]) == Finish(st, m', |cs| > 1);
      if |cs| > 1 {
        PartsAssemble(c, done, m', cs[1..]);
        assert Extend(m', Concat(cs[1..])) == m;
      } else {
        assert Concat(cs) == cs[0] + Concat(cs[1..]) == cs[0];
      }
    }
  }

  /** Round trip of a whole conversation. */
  lemma {:induction false} ConversationRoundTrip(c: Config, done: seq<Msg>, ms: seq<Msg>)
    requires c.Sane()
    ensures AcceptAll(c, State(done, None), AllFrames(c, ms)) == State(done + ms, None)
    decreases |ms|
  {
    if ms == [] {
      assert done + ms == done;
    } else {
      var st, next, rest := State(done, None), done + [ms[0]], AllFrames(c, ms[1..]);
      MessageRoundTrip(c, done, ms[0]);
      AcceptAppend(c, st, Frames(c, ms[0]), rest);
      ConversationRoundTrip(c, next, ms[1..]);
      HeadFirst(done, ms);
    }
  }

  lemma HeadFirst(a: seq<Msg>, b: seq<Msg>)
    requires b != []
    ensures a + [b[0]] + b[1..] == a + b
  {
  }

  /** The frames of a conversation that did arrive complete a prefix of its messages. */
  lemma ConversationPrefix(c: Config, ms: seq<Msg>, fs: seq<seq<byte>>)
    requires c.Sane() && fs <= AllFrames(c, ms)
    ensures AcceptAll(c, START, fs).done <= ms
  {
    var rest := AllFrames(c, ms)[|fs|..];
    assert AllFrames(c, ms) == fs + rest;
    AcceptAppend(c, START, fs, rest);
    AcceptGrows(c, AcceptAll(c, START, fs), rest);
    ConversationRoundTrip(c, [], ms);
    assert [] + ms == ms;
  }

  // ------------------------------------------------------------------ segment flags

  predicate MoreOnAllButLast(c: Config, fs: seq<seq<byte>>) {
    forall i | 0 <= i < |fs| :: HasMore(c, fs[i]) <==> i < |fs| - 1
  }

  /** The data of a list of frames, concatenated. */
  function Carried(c: Config, fs: seq<seq<byte>>): seq<byte> {
    if fs == [] then []
    else (if DatOf(c, fs[0]).Some? then DatOf(c, fs[0]).value else []) + Carried(c, fs[1..])
  }

  lemma CarryCons(c: Config, f: seq<byte>, d: seq<byte>, fs: seq<seq<byte>>)
    requires DatOf(c, f) == Some(d) && HasMore(c, f) == (fs != []) && MoreOnAllButLast(c, fs)
    ensures Carried(c, [f] + fs) == d + Carried(c, fs) && MoreOnAllButLast(c, [f] + fs)
  {
    var all := [f] + fs;
    assert all[1..] == fs;
    forall i | 0 <= i < |all| ensures HasMore(c, all[i]) <==> i < |all| - 1 {
      if i > 0 { assert all[i] == fs[i - 1]; }
    }
  }

  lemma {:induction false} PartsCarry(c: Config, tag: byte, tid: word, cs: seq<seq<byte>>)
    requires c.Sane() && AreSegments(c, cs) && tag !in {c.dat, c.more}
    ensures Carried(c, Parts(c, tag, tid, cs)) == Concat(cs) && MoreOnAllButLast(c, Parts(c, tag, tid, cs))
    decreases |cs|
  {
    if cs != [] {
      PartReads(c, tag, tid, cs[0], |cs| > 1);
      PartsCarry(c, tag, tid, cs[1..]);
      CarryCons(c, PartFrame(c, tag, tid, cs[0], |cs| > 1), cs[0], Parts(c, tag, tid, cs[1..]));
    }
  }

  /** A leading frame for the first segment and parts for the rest carry the whole payload, and the
      flag is missing exactly on the last. */
  lemma SeriesCarries(c: Config, lead: seq<byte>, tag: byte, tid: word, p: seq<byte>)
    requires c.Sane() && tag !in {c.dat, c.more}
    requires var cs := Cut(p, c.SegLen()); DatOf(c, lead) == Some(cs[0]) && HasMore(c, lead) == (|cs| > 1)
    ensures AreSegments(c, Cut(p, c.SegLen()))
    ensures var fs := [lead] + Parts(c, tag, tid, Cut(p, c.SegLen())[1..]);
      Carried(c, fs) == p && MoreOnAllButLast(c, fs)
  {
    CutsAreSegments(c, p);
    CutTiles(p, c.SegLen());
    var cs := Cut(p, c.SegLen());
    PartsCarry(c, tag, tid, cs[1..]);
    CarryCons(c, lead, cs[0], Parts(c, tag, tid, cs[1..]));
  }

  /** The frames of one message: segment count, data and flags. */
  lemma FramesCarry(c: Config, m: Msg)
    requires c.Sane() && !m.Pong? && PayloadOf(m).Some?
    ensures var fs, p := Frames(c, m), PayloadOf(m).value;
      && Carried(c, fs) == p && MoreOnAllButLast(c, fs)
      && |fs| == |Cut(p, c.SegLen())|
  {
    var p := PayloadOf(m).value;
    var cs := Cut(p, c.SegLen());
    CutsAreSegments(c, p);
    LeadDecodes(c, m, Some(cs[0]), |cs| > 1);
    SeriesCarries(c, Frames(c, m)[0], c.dtid, m.tid, p);
  }

  lemma SidLookup(c: Config, sid: Option<word>, tag: byte)
    requires tag != c.sid
    ensures Lookup(SidField(c, sid), tag) == None
  {
    if sid.Some? { LookupOne(Field(c.sid, Be4(sid.value)), tag); }
  }

  /** The fields in front of a UNI segment hide neither its data nor its flag. */
  lemma UniFieldsLookup(c: Config, f: Field, sid: Option<word>, tag: byte)
    requires tag != c.sid && tag != f.tag
    ensures Lookup([f] + SidField(c, sid), tag) == None
  {
    LookupAppend([f], SidField(c, sid), tag);
    LookupOne(f, tag);
    SidLookup(c, sid, tag);
  }

  /** A UNI payload is carried exactly, with the flag on all frames but the last, by every list of
      frames the reader lets through: only an unsegmented frame can be over the MTU, because its DNE
      is not part of the reserve. */
  lemma UniFramesCarry(c: Config, stid: word, sid: Option<word>, dne: seq<byte>, p: seq<byte>)
    requires c.Sane() && (|p| <= c.SegLen() ==> |UniFrame(c, sid, dne, p)| <= c.mtu)
    ensures var fs := UniFrames(c, stid, sid, dne, p); Carried(c, fs) == p && MoreOnAllButLast(c, fs)
  {
    if |p| <= c.SegLen() {
      var lead := [Field(c.dne, dne)] + SidField(c, sid);
      UniFieldsLookup(c, Field(c.dne, dne), sid, c.dat);
      UniFieldsLookup(c, Field(c.dne, dne), sid, c.more);
      PieceReads(c, c.uni, lead, Some(p), false);
      assert Carried(c, [UniFrame(c, sid, dne, p)][1..]) == [];
    } else {
      var d := Cut(p, c.SegLen())[0];
      var lead := IntField(c.stid, stid) + SidField(c, sid);
      UniFieldsLookup(c, Field(c.stid, Be4(stid)), sid, c.dat);
      UniFieldsLookup(c, Field(c.stid, Be4(stid)), sid, c.more);
      UniLeadSize(c, stid, sid);
      FrameSize(c, c.end, lead, Some(d), true);
      PieceReads(c, c.end, lead, Some(d), true);
      SeriesCarries(c, UniLead(c, stid, sid, d), c.stid, stid, p);
    }
  }

  lemma UniLeadSize(c: Config, stid: word, sid: Option<word>)
    ensures Reserve(c, IntField(c.stid, stid) + SidField(c, sid), 16)
  {
    TidSize(c, c.stid, stid);
    if sid.Some? { TidSize(c, c.sid, sid.value); }
    EncAppend(IntField(c.stid, stid), SidField(c, sid));
  }

  /** What a frame says of its transaction: its tag, and the id under `tidTag`. */
  predicate Names(f: seq<byte>, tag: byte, tidTag: byte, tid: word) {
    Read(f).Some? && Read(f).value.tag == tag && Lookup(Read(f).value.fields, tidTag) == Some(Be4(tid))
  }

  function SidOf(c: Config, f: seq<byte>): Option<seq<byte>> {
    if Read(f).Some? then Lookup(Read(f).value.fields, c.sid) else None
  }

  lemma {:induction false} PartsName(c: Config, tag: byte, tid: word, cs: seq<seq<byte>>, i: nat)
    requires c.Sane() && AreSegments(c, cs) && tag !in {c.dat, c.more} && i < |cs|
    ensures Names(Parts(c, tag, tid, cs)[i], c.part, tag, tid)
    decreases |cs|
  {
    if i == 0 { PartReads(c, tag, tid, cs[0], |cs| > 1); } else { PartsName(c, tag, tid, cs[1..], i - 1); }
  }

  /** The field in front of an optional session id, and that id, are found whatever follows. */
  lemma UniLookup(c: Config, f: Field, sid: Option<word>, piece: seq<Field>)
    requires f.tag != c.sid && Lookup(piece, c.sid) == None
    ensures Lookup([f] + SidField(c, sid) + piece, f.tag) == Some(f.val)
    ensures Lookup([f] + SidField(c, sid) + piece, c.sid) == if sid.Some? then Some(Be4(sid.value)) else None
  {
    LookupAppend([f] + SidField(c, sid), piece, f.tag);
    LookupAppend([f] + SidField(c, sid), piece, c.sid);
    LookupAppend([f], SidField(c, sid), f.tag);
    LookupAppend([f], SidField(c, sid), c.sid);
    LookupOne(f, f.tag);
    LookupOne(f, c.sid);
    if sid.Some? { LookupOne(Field(c.sid, Be4(sid.value)), c.sid); }
  }

  /** An unsegmented UNI frame that the reader lets through is read back: kind, DNE, session id and data. */
  lemma UniFrameReads(c: Config, sid: Option<word>, dne: seq<byte>, p: seq<byte>)
    requires c.Sane() && c.sid != c.dne && |UniFrame(c, sid, dne, p)| <= c.mtu
    ensures var f := UniFrame(c, sid, dne, p);
      && Read(f).Some? && Read(f).value.tag == c.uni
      && Lookup(Read(f).value.fields, c.dne) == Some(dne)
      && SidOf(c, f) == (if sid.Some? then Some(Be4(sid.value)) else None)
      && DatOf(c, f) == Some(p) && !HasMore(c, f)
  {
    UniFieldsLookup(c, Field(c.dne, dne), sid, c.dat);
    UniFieldsLookup(c, Field(c.dne, dne), sid, c.more);
    PieceReads(c, c.uni, [Field(c.dne, dne)] + SidField(c, sid), Some(p), false);
    PieceLookup(c, Some(p), false, c.sid);
    UniLookup(c, Field(c.dne, dne), sid, Piece(c, Some(p), false));
  }

  /** Every frame of a segmented UNI message names its transaction, the first its session too: under the END
      tag as the encoder writes it, the others under PART. */
  lemma UniFramesName(c: Config, stid: word, sid: Option<word>, dne: seq<byte>, p: seq<byte>)
    requires c.Sane() && c.sid != c.stid && |p| > c.SegLen()
    ensures var fs := UniFrames(c, stid, sid, dne, p);
      && (forall i | 0 <= i < |fs| :: Names(fs[i], if i == 0 then c.end else c.part, c.stid, stid))
      && SidOf(c, fs[0]) == if sid.Some? then Some(Be4(sid.value)) else None
  {
    var cs, fs := Cut(p, c.SegLen()), UniFrames(c, stid, sid, dne, p);
    CutsAreSegments(c, p);
    UniLeadReads(c, stid, sid, cs[0]);
    forall i | 0 < i < |fs| ensures Names(fs[i], c.part, c.stid, stid) {
      PartsName(c, c.stid, stid, cs[1..], i - 1);
    }
  }

  lemma UniLeadReads(c: Config, stid: word, sid: Option<word>, d: seq<byte>)
    requires c.Sane() && c.sid != c.stid && |d| <= c.SegLen()
    ensures var f := UniLead(c, stid, sid, d);
      Names(f, c.end, c.stid, stid) && SidOf(c, f) == if sid.Some? then Some(Be4(sid.value)) else None
  {
    var lead := IntField(c.stid, stid) + SidField(c, sid);
    UniFieldsLookup(c, Field(c.stid, Be4(stid)), sid, c.dat);
    UniFieldsLookup(c, Field(c.stid, Be4(stid)), sid, c.more);
    UniLeadSize(c, stid, sid);
    FrameSize(c, c.end, lead, Some(d), true);
    PieceReads(c, c.end, lead, Some(d), true);
    PieceLookup(c, Some(d), true, c.sid);
    UniLookup(c, Field(c.stid, Be4(stid)), sid, Piece(c, Some(d), true));
  }

  // ------------------------------------------------------------------ the size of unsegmented UNI frames

  /** The octets of a field around a value of `n`. */
  function TlvLen(n: nat): nat { n + if n < 0xFE then 2 else if n < 0x10000 then 4 else 6 }

  /** The octets of an unsegmented UNI frame: with or without a session id, `d` octets of DNE, `p` of data. */
  function UniSize(sid: bool, d: nat, p: nat): nat {
    TlvLen(TlvLen(d) + (if sid then 6 else 0) + TlvLen(p))
  }

  lemma TlvLength(f: Field)
    ensures |EncFields([f])| == TlvLen(|f.val|) == |Tlv(f.tag, f.val)|
  {
    EncOne(f);
  }

  lemma UniFrameSize(c: Config, sid: Option<word>, dne: seq<byte>, p: seq<byte>)
    ensures |UniFrame(c, sid, dne, p)| == UniSize(sid.Some?, |dne|, |p|)
  {
    var lead := [Field(c.dne, dne)] + SidField(c, sid);
    EncAppend(lead, Piece(c, Some(p), false));
    EncAppend([Field(c.dne, dne)], SidField(c, sid));
    TlvLength(Field(c.dne, dne));
    TlvLength(Field(c.dat, p));
    assert Piece(c, Some(p), false) == [Field(c.dat, p)];
    if sid.Some? { TidSize(c, c.sid, sid.value); }
    TlvLength(Field(c.uni, EncFields(lead + Piece(c, Some(p), false))));
  }

  /** What the reader makes of an unsegmented UNI frame, in the terms of its sender. */
  lemma UniFrameTaken(c: Config, sid: Option<word>, dne: seq<byte>, p: seq<byte>, t: seq<byte>)
    requires c.Sane() && c.IsTransaction(c.uni)
    ensures var size := UniSize(sid.Some?, |dne|, |p|);
      Decide(c, UniFrame(c, sid, dne, p) + t) == if size <= c.mtu then Take(size) else Refuse
  {
    UniFrameSize(c, sid, dne, p);
    DecideTlv(c, c.uni, EncFields([Field(c.dne, dne)] + SidField(c, sid) + Piece(c, Some(p), false)), t);
  }

  predicate UniFits(c: Config, sid: bool, d: nat, p: nat) { UniSize(sid, d, p) <= c.mtu }

  /** Every payload that is not segmented fits the peer's MTU, whatever its DNE, if and only if a full
      segment does with the longest DNE and a session id. Segments of 254 octets and more need a reserve of
      140 for that; what `Sane` asks for is less. */
  lemma UniAlwaysFits(c: Config)
    requires c.Sane()
    ensures (forall sid, d: nat, p: nat | d <= DNE_MAX && p <= c.SegLen() :: UniFits(c, sid, d, p))
            <==> UniFits(c, true, DNE_MAX, c.SegLen())
    ensures c.SegLen() >= 0xFE ==> (UniFits(c, true, DNE_MAX, c.SegLen()) <==> c.reserved >= 140)
  {
  }

  /** The same for one DNE: it is the reserve that the DNE is not part of. */
  lemma FullSegmentFits(c: Config, sid: bool, d: nat)
    requires c.Sane() && d < 0xFE && c.SegLen() >= 0xFE
    ensures (forall p: nat | p <= c.SegLen() :: UniFits(c, sid, d, p))
            <==> d + 10 + (if sid then 6 else 0) <= c.reserved
  {
    assert UniFits(c, sid, d, c.SegLen()) <==> d + 10 + (if sid then 6 else 0) <= c.reserved;
  }

  /** A frame the encoder builds and the reader refuses. */
  lemma UniRefused(c: Config)
    requires c.Sane() && c.IsTransaction(c.uni) && c.SegLen() >= 0xFE && c.reserved < 140
    ensures var dne, p := seq(DNE_MAX, _ => 0), seq(c.SegLen(), _ => 0);
      Decide(c, UniFrame(c, Some(0), dne, p)) == Refuse
  {
    var dne: seq<byte>, p: seq<byte> := seq(DNE_MAX, _ => 0), seq(c.SegLen(), _ => 0);
    UniFrameTaken(c, Some(0), dne, p, []);
    assert UniFrame(c, Some(0), dne, p) + [] == UniFrame(c, Some(0), dne, p);
  }
}
