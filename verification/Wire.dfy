/** Bytes, tag-length-value fields and the constants of the STMP wire format.

    The numeric values of the tags live in a library outside the repository, so they are the
    fields of a `Config`; every result holds for all values that meet `Sane`. */
module Wire {

  type byte = b: int | 0 <= b < 0x100
  type short = s: int | 0 <= s < 0x10000
  type word = w: int | 0 <= w < 0x1_0000_0000

  datatype Option<+T> = None | Some(value: T)

  datatype Config = Config(
    mtu: int, reserved: int,
    ping: byte, pong: byte,
    cont: byte, end: byte, part: byte, uni: byte,
    dtid: byte, stid: byte, sid: byte, ret: byte, more: byte, dat: byte, dne: byte,
    present: byte, success: short)
  {
    /** The longest header the encoders put around one segment: transaction tag and length (4),
        DTID (6), SID (6), RET (4), HAVE_NEXT_PART (3), DAT tag and length (4). */
    static const HEADERS := 27

    /** What the segmenting senders need of the configuration. */
    predicate Sane() {
      && HEADERS <= reserved < mtu <= 0x10000
      && IsTransaction(cont) && IsTransaction(end) && IsTransaction(part)
      && dat !in {dtid, stid, sid, ret, more, dne}
      && more !in {dtid, stid, sid, ret, dne}
      && dtid !in {sid, ret} && sid != ret
      && ping != pong && cont != end && part !in {cont, end}
    }

    predicate IsTransaction(tag: byte) { tag != ping && tag != pong }

    /** The longest payload carried by one frame. */
    function SegLen(): int { mtu - reserved }
  }

  function Concat(ss: seq<seq<byte>>): seq<byte> {
    if ss == [] then [] else ss[0] + Concat(ss[1..])
  }

  lemma {:induction false} ConcatAppend(a: seq<seq<byte>>, b: seq<seq<byte>>)
    ensures Concat(a + b) == Concat(a) + Concat(b)
  {
    if a == [] {
      assert a + b == b;
    } else {
      assert (a + b)[1..] == a[1..] + b;
      ConcatAppend(a[1..], b);
      assert a[0] + (Concat(a[1..]) + Concat(b)) == (a[0] + Concat(a[1..])) + Concat(b);
    }
  }

  lemma {:induction false} ConcatSnoc(a: seq<seq<byte>>, x: seq<byte>)
    ensures Concat(a + [x]) == Concat(a) + x
  {
    ConcatAppend(a, [x]);
    assert [x][1..] == [] && Concat([]) == [];
    assert Concat([x]) == x + Concat([]) == x;
  }

  /** The first pieces of a list concatenate to a prefix. */
  lemma {:induction false} ConcatPrefixMonotone(a: seq<seq<byte>>, b: seq<seq<byte>>)
    requires a <= b
    ensures Concat(a) <= Concat(b)
  {
    assert b == a + b[|a|..];
    ConcatAppend(a, b[|a|..]);
  }

  /** The length octets: one below 0xFE, then 0xFE and two octets, high one first. The form behind 0xFF,
      which the reader refuses, is never looked into. */
  function LenBytes(n: nat): seq<byte> {
    if n < 0xFE then [n] else if n < 0x10000 then [0xFE] + Be2(n) else [0xFF] + Be4(n % 0x1_0000_0000)
  }

  function Tlv(tag: byte, val: seq<byte>): seq<byte> {
    [tag] + LenBytes(|val|) + val
  }

  /** Whether `s` starts with a complete tag and length of the supported kinds. */
  predicate HasHeader(s: seq<byte>) {
    |s| >= 2 && s[1] != 0xFF && (s[1] == 0xFE ==> |s| >= 4)
  }

  function HeaderLen(s: seq<byte>): nat
    requires HasHeader(s)
  {
    if s[1] == 0xFE then 4 else 2
  }

  /** Header and value together, as the header announces them. */
  function Span(s: seq<byte>): nat
    requires HasHeader(s)
  {
    if s[1] < 0xFE then 2 + s[1] as int else 4 + 0x100 * s[2] as int + s[3] as int
  }

  /** Reading back what `Tlv` wrote, whatever follows it. */
  lemma TlvReads(tag: byte, val: seq<byte>, t: seq<byte>)
    requires |val| < 0x10000
    ensures var s := Tlv(tag, val) + t;
      && HasHeader(s) && s[0] == tag
      && Span(s) == |Tlv(tag, val)| == HeaderLen(s) + |val|
      && s[HeaderLen(s)..Span(s)] == val && s[Span(s)..] == t
  {
    var s := Tlv(tag, val) + t;
    assert s[1] == LenBytes(|val|)[0];
    if |val| >= 0xFE {
      assert s[2] == LenBytes(|val|)[1] && s[3] == LenBytes(|val|)[2];
    }
  }

  datatype Field = Field(tag: byte, val: seq<byte>)

  function EncFields(fs: seq<Field>): seq<byte> {
    if fs == [] then [] else Tlv(fs[0].tag, fs[0].val) + EncFields(fs[1..])
  }

  function DecFields(s: seq<byte>): Option<seq<Field>> {
    if s == [] then Some([])
    else if !HasHeader(s) || |s| < Span(s) then None
    else
      match DecFields(s[Span(s)..])
      case None => None
      case Some(fs) => Some([Field(s[0], s[HeaderLen(s)..Span(s)])] + fs)
  }

  lemma {:induction false} FieldsRoundTrip(fs: seq<Field>)
    requires forall i | 0 <= i < |fs| :: |fs[i].val| < 0x10000
    ensures DecFields(EncFields(fs)) == Some(fs)
  {
    if fs != [] {
      TlvReads(fs[0].tag, fs[0].val, EncFields(fs[1..]));
      FieldsRoundTrip(fs[1..]);
      assert [fs[0]] + fs[1..] == fs;
    }
  }

  /** The value of the first field with the given tag. */
  function Lookup(fs: seq<Field>, tag: byte): Option<seq<byte>> {
    if fs == [] then None
    else if fs[0].tag == tag then Some(fs[0].val)
    else Lookup(fs[1..], tag)
  }

  lemma {:induction false} LookupAppend(a: seq<Field>, b: seq<Field>, tag: byte)
    ensures Lookup(a + b, tag) == if Lookup(a, tag).Some? then Lookup(a, tag) else Lookup(b, tag)
  {
    if a == [] {
      assert a + b == b;
    } else {
      assert (a + b)[1..] == a[1..] + b;
      LookupAppend(a[1..], b, tag);
    }
  }

  lemma LookupOne(f: Field, tag: byte)
    ensures Lookup([f], tag) == if f.tag == tag then Some(f.val) else None
    ensures Lookup([], tag) == None
  {
    assert [f][1..] == [];
  }

  lemma {:induction false} EncAppend(a: seq<Field>, b: seq<Field>)
    ensures EncFields(a + b) == EncFields(a) + EncFields(b)
  {
    if a == [] {
      assert a + b == b;
    } else {
      EncAppend(a[1..], b);
      EncCons(a[0], a[1..] + b);
      assert a + b == [a[0]] + (a[1..] + b);
      Assoc(Tlv(a[0].tag, a[0].val), EncFields(a[1..]), EncFields(b));
    }
  }

  lemma Assoc(x: seq<byte>, y: seq<byte>, z: seq<byte>)
    ensures x + (y + z) == x + y + z
  {
  }

  lemma EncCons(f: Field, fs: seq<Field>)
    ensures EncFields([f] + fs) == Tlv(f.tag, f.val) + EncFields(fs)
  {
    assert ([f] + fs)[1..] == fs;
  }

  lemma EncOne(f: Field)
    ensures EncFields([f]) == Tlv(f.tag, f.val)
  {
    assert [f][1..] == [] && EncFields([]) == [];
    assert EncFields([f]) == Tlv(f.tag, f.val) + EncFields([f][1..]);
  }

  /** Integers travel high octet first. */
  function Be2(v: short): seq<byte> { [v / 0x100, v % 0x100] }

  function FromBe2(s: seq<byte>): short
    requires |s| == 2
  {
    0x100 * s[0] as int + s[1] as int
  }

  function Be4(v: word): seq<byte> { Be2(v / 0x10000) + Be2(v % 0x10000) }

  function FromBe4(s: seq<byte>): word
    requires |s| == 4
  {
    0x10000 * FromBe2(s[..2]) as int + FromBe2(s[2..]) as int
  }

  lemma Be4RoundTrip(v: word)
    ensures |Be4(v)| == 4 && FromBe4(Be4(v)) == v
  {
    assert Be4(v)[..2] == Be2(v / 0x10000) && Be4(v)[2..] == Be2(v % 0x10000);
  }

  // ------------------------------------------------------------------ quotients

  lemma MulLe(a: int, b: int, n: int)
    requires n >= 1 && a <= b
    ensures a * n <= b * n && b * n + n == (b + 1) * n && a * n + n == (a + 1) * n
  {
  }

  lemma DivMod(a: nat, n: int)
    requires n >= 1
    ensures a == (a / n) * n + a % n && 0 <= a % n < n
  {
  }

  /** Quotient and remainder are determined by what they are for. */
  lemma SameRemainder(n: int, q: int, m: int, q': int, m': int)
    requires n >= 1 && q * n + m == q' * n + m' && 0 <= m < n && 0 <= m' < n
    ensures q == q' && m == m'
  {
    if q < q' { MulLe(q + 1, q', n); MulLe(q, q, n); }
    if q' < q { MulLe(q' + 1, q, n); MulLe(q', q', n); }
  }
}
