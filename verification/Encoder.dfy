/** The message builder: a buffer that is filled from its end towards its front. */
module Encoder {
  import opened Wire
  import opened Messages

  class StmpPdu {
    const buff: array<byte>
    /** The octets still free, in front of what has been added. */
    var rm: nat
    ghost var fields: seq<Field>

    ghost predicate Valid()
      reads this, buff
    {
      rm <= buff.Length && buff[rm..] == EncFields(fields)
    }

    constructor (size: nat)
      ensures Valid() && rm == size && fields == [] && fresh(buff)
    {
      buff := new byte[size];
      rm, fields := size, [];
    }

    method Prepend(bs: seq<byte>)
      requires |bs| <= rm <= buff.Length
      modifies `rm, buff
      ensures rm == old(rm) - |bs| && buff[rm..] == bs + old(buff[rm..])
    {
      rm := rm - |bs|;
      forall i | 0 <= i < |bs| {
        buff[rm + i] := bs[i];
      }
    }

    method PrependHeader(tag: byte, len: nat)
      requires |LenBytes(len)| < rm <= buff.Length
      modifies `rm, buff
      ensures rm == old(rm) - |LenBytes(len)| - 1 && buff[rm..] == [tag] + LenBytes(len) + old(buff[rm..])
    {
      Prepend(LenBytes(len));
      Prepend([tag]);
    }

    method AddBin(tag: byte, val: seq<byte>)
      requires Valid() && |Tlv(tag, val)| <= rm
      modifies this, buff
      ensures Valid() && fields == [Field(tag, val)] + old(fields) && rm == old(rm) - |Tlv(tag, val)|
    {
      Prepend(val);
      PrependHeader(tag, |val|);
      EncCons(Field(tag, val), fields);
      fields := [Field(tag, val)] + fields;
    }

    method AddInt(tag: byte, v: word)
      requires Valid() && 6 <= rm
      modifies this, buff
      ensures Valid() && fields == IntField(tag, v) + old(fields) && rm == old(rm) - 6
    {
      AddBin(tag, Be4(v));
    }

    method AddSid(c: Config, sid: Option<word>)
      requires Valid() && 6 <= rm
      modifies this, buff
      ensures Valid() && fields == SidField(c, sid) + old(fields) && rm >= old(rm) - 6
    {
      if sid.Some? { AddInt(c.sid, sid.value); }
    }

    /** The return value, which success leaves out. */
    method AddRet(c: Config, ret: short)
      requires Valid() && 4 <= rm
      modifies this, buff
      ensures Valid() && fields == RetField(c, ret, false) + old(fields) && rm >= old(rm) - 4
    {
      if ret != c.success { AddShort(c.ret, ret); }
    }

    method AddShort(tag: byte, v: short)
      requires Valid() && 4 <= rm
      modifies this, buff
      ensures Valid() && fields == [Field(tag, Be2(v))] + old(fields) && rm == old(rm) - 4
    {
      AddBin(tag, Be2(v));
    }

    method AddChar(tag: byte, v: byte)
      requires Valid() && 3 <= rm
      modifies this, buff
      ensures Valid() && fields == [Field(tag, [v])] + old(fields) && rm == old(rm) - 3
    {
      AddBin(tag, [v]);
    }

    /** The transaction tag wraps all fields; the message is complete. */
    method AddTag(tag: byte) returns (dat: seq<byte>)
      requires Valid() && |LenBytes(buff.Length - rm)| < rm
      modifies this, buff
      ensures dat == Frame(tag, old(fields))
    {
      PrependHeader(tag, buff.Length - rm);
      dat := buff[rm..];
    }
  }

  method EncodeContinue(c: Config, dtid: word, pb: seq<byte>) returns (dat: seq<byte>)
    requires c.Sane() && |pb| <= c.SegLen()
    ensures dat == LeadFrame(c, Continue(dtid, pb), Some(pb), false)
  {
    var pdu := new StmpPdu(|pb| + c.reserved);
    pdu.AddBin(c.dat, pb);
    pdu.AddInt(c.dtid, dtid);
    assert pdu.fields == Leading(c, Continue(dtid, pb), false) + Piece(c, Some(pb), false);
    dat := pdu.AddTag(c.cont);
  }

  method EncodeContinueWithPart(c: Config, dtid: word, pb: seq<byte>, ofst: nat, len: nat) returns (dat: seq<byte>)
    requires c.Sane() && ofst + len <= |pb| && len <= c.SegLen()
    ensures dat == LeadFrame(c, Continue(dtid, pb), Some(pb[ofst..ofst + len]), true)
  {
    var pdu := new StmpPdu(len + c.reserved);
    var d := pb[ofst..ofst + len];
    pdu.AddBin(c.dat, d);
    pdu.AddChar(c.more, c.present);
    pdu.AddInt(c.dtid, dtid);
    assert pdu.fields == Leading(c, Continue(dtid, pb), true) + Piece(c, Some(d), true);
    dat := pdu.AddTag(c.cont);
  }

  /** The fields of an END frame in the order they are added, last one first. */
  lemma EndFields(c: Config, dtid: word, ret: short, sid: Option<word>, pb: Option<seq<byte>>,
                  d: Option<seq<byte>>, more: bool)
    ensures IntField(c.dtid, dtid) + (SidField(c, sid) + (RetField(c, ret, more) + Piece(c, d, more)))
         == Leading(c, End(dtid, ret, sid, pb), more) + Piece(c, d, more)
  {
  }

  method EncodeEnd(c: Config, dtid: word, ret: short, pb: Option<seq<byte>>, sid: Option<word>) returns (dat: seq<byte>)
    requires c.Sane() && IsSegment(c, pb)
    ensures dat == LeadFrame(c, End(dtid, ret, sid, pb), pb, false)
  {
    var pdu := new StmpPdu((if pb.Some? then |pb.value| else 0) + c.reserved);
    if pb.Some? { pdu.AddBin(c.dat, pb.value); }
    assert pdu.fields == Piece(c, pb, false);
    pdu.AddRet(c, ret);
    pdu.AddSid(c, sid);
    pdu.AddInt(c.dtid, dtid);
    EndFields(c, dtid, ret, sid, pb, pb, false);
    dat := pdu.AddTag(c.end);
  }

  method EncodeEndWithPart(c: Config, dtid: word, ret: short, sid: Option<word>, pb: seq<byte>, ofst: nat, len: nat)
    returns (dat: seq<byte>)
    requires c.Sane() && ofst + len <= |pb| && len <= c.SegLen()
    ensures dat == LeadFrame(c, End(dtid, ret, sid, Some(pb)), Some(pb[ofst..ofst + len]), true)
  {
    var pdu := new StmpPdu(len + c.reserved);
    var d := pb[ofst..ofst + len];
    pdu.AddBin(c.dat, d);
    pdu.AddChar(c.more, c.present);
    pdu.AddShort(c.ret, ret);
    assert pdu.fields == RetField(c, ret, true) + Piece(c, Some(d), true);
    pdu.AddSid(c, sid);
    pdu.AddInt(c.dtid, dtid);
    EndFields(c, dtid, ret, sid, Some(pb), Some(d), true);
    dat := pdu.AddTag(c.end);
  }

  /** The buffer has 128 octets more than the reserve, for the random DNE. */
  method EncodeUni(c: Config, sid: Option<word>, uuid: seq<byte>, pb: seq<byte>) returns (dat: seq<byte>)
    requires c.Sane() && |pb| <= c.SegLen() && |uuid| <= DNE_MAX
    ensures dat == UniFrame(c, sid, uuid, pb)
  {
    var pdu := new StmpPdu(|pb| + c.reserved + 128);
    pdu.AddBin(c.dat, pb);
    pdu.AddSid(c, sid);
    pdu.AddBin(c.dne, uuid);
    assert pdu.fields == [Field(c.dne, uuid)] + SidField(c, sid) + Piece(c, Some(pb), false);
    dat := pdu.AddTag(c.uni);
  }

  method EncodeUniWithPart(c: Config, stid: word, sid: Option<word>, pb: seq<byte>, ofst: nat, len: nat)
    returns (dat: seq<byte>)
    requires c.Sane() && ofst + len <= |pb| && len <= c.SegLen()
    ensures dat == UniLead(c, stid, sid, pb[ofst..ofst + len])
  {
    var pdu := new StmpPdu(len + c.reserved);
    var d := pb[ofst..ofst + len];
    pdu.AddBin(c.dat, d);
    pdu.AddChar(c.more, c.present);
    pdu.AddSid(c, sid);
    pdu.AddInt(c.stid, stid);
    assert pdu.fields == IntField(c.stid, stid) + SidField(c, sid) + Piece(c, Some(d), true);
    dat := pdu.AddTag(c.end);
  }

  method EncodePart(c: Config, tidTag: byte, tid: word, pb: seq<byte>, ofst: nat, len: nat, haveNext: bool)
    returns (dat: seq<byte>)
    requires c.Sane() && ofst + len <= |pb| && len <= c.SegLen()
    ensures dat == PartFrame(c, tidTag, tid, pb[ofst..ofst + len], haveNext)
  {
    var pdu := new StmpPdu(len + c.reserved);
    var d := pb[ofst..ofst + len];
    pdu.AddBin(c.dat, d);
    if haveNext { pdu.AddChar(c.more, c.present); }
    pdu.AddInt(tidTag, tid);
    assert pdu.fields == IntField(tidTag, tid) + Piece(c, Some(d), haveNext);
    dat := pdu.AddTag(c.part);
  }
}
