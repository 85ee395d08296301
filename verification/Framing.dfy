/** The framing decisions of the receive loop, as a pure greedy parser of a byte stream. */
module Framing {
  import opened Wire

  /** What the loop does at a position with the bytes `s` still unread. */
  datatype Decision = Wait | Refuse | Take(size: nat)

  /** Unpacking and handling of a frame, as functions of the frame and of the frames handled before it.
      A handler may close the connection the frame came on, whether it accepts the frame or not. */
  datatype Handler = Handler(unpacks: seq<byte> -> bool,
                             accepts: (seq<seq<byte>>, seq<byte>) -> bool,
                             closes: (seq<seq<byte>>, seq<byte>) -> bool)

  /** `frames` are the frames handed to the message handler, oldest first. */
  datatype Outcome = Open(frames: seq<seq<byte>>, rest: seq<byte>) | Closed(frames: seq<seq<byte>>)

  predicate IsHeartbeat(c: Config, s: seq<byte>)
    requires s != []
  {
    s[0] == c.ping || s[0] == c.pong
  }

  function Decide(c: Config, s: seq<byte>): (d: Decision)
    requires s != []
    ensures d.Take? ==> 0 < d.size <= |s|
  {
    if IsHeartbeat(c, s) then Take(1)
    else if |s| < 3 then Wait
    else if s[1] == 0xFF then Refuse
    else if s[1] == 0xFE && |s| < 4 then Wait
    else if Span(s) > c.mtu then Refuse
    else if |s| < Span(s) then Wait
    else Take(Span(s))
  }

  predicate Unpacks(c: Config, h: Handler, f: seq<byte>)
    requires f != []
  {
    IsHeartbeat(c, f) || h.unpacks(f)
  }

  /** One greedy pass over `s` after the frames `past` have been handled. */
  function Parse(c: Config, h: Handler, past: seq<seq<byte>>, s: seq<byte>): Outcome
    decreases |s|
  {
    if s == [] then Open(past, [])
    else
      match Decide(c, s)
      case Wait => Open(past, s)
      case Refuse => Closed(past)
      case Take(n) =>
        var f := s[..n];
        if !Unpacks(c, h, f) then Closed(past)
        else if !h.accepts(past, f) then Closed(past + [f])
        else Parse(c, h, past + [f], s[n..])
  }

  /** A decision to take or to refuse is not changed by bytes that arrive later. */
  lemma DecideStable(c: Config, s: seq<byte>, t: seq<byte>)
    requires s != [] && Decide(c, s) != Wait
    ensures Decide(c, s + t) == Decide(c, s)
  {
  }

  /** A frame of `size` octets is taken or refused by its size alone, whatever follows it. */
  lemma DecideTlv(c: Config, tag: byte, body: seq<byte>, t: seq<byte>)
    requires c.IsTransaction(tag) && body != [] && c.mtu <= 0x10000
    ensures Decide(c, Tlv(tag, body) + t)
         == if |Tlv(tag, body)| <= c.mtu then Take(|Tlv(tag, body)|) else Refuse
  {
    if |body| < 0x10000 { TlvReads(tag, body, t); }
  }

  /** A complete frame is taken when its last byte arrives, except one with an empty body, which waits
      for any further byte. */
  lemma EmptyBodyWaits(c: Config, tag: byte, body: seq<byte>, t: seq<byte>)
    requires c.IsTransaction(tag) && |Tlv(tag, body)| <= c.mtu <= 0x10000
    ensures Decide(c, Tlv(tag, body)) == Take(|Tlv(tag, body)|) <==> body != []
    ensures t != [] ==> Decide(c, Tlv(tag, body) + t) == Take(|Tlv(tag, body)|)
  {
    TlvReads(tag, body, t);
    TlvReads(tag, body, []);
    assert Tlv(tag, body) + [] == Tlv(tag, body);
  }

  /** The two-octet length is read as a number whatever its value, also where one octet would have done. */
  lemma DecideWide(c: Config, tag: byte, body: seq<byte>, t: seq<byte>)
    requires c.IsTransaction(tag) && |body| < 0x10000
    ensures var f := [tag, 0xFE] + Be2(|body|) + body;
      Decide(c, f + t) == if |f| <= c.mtu then Take(|f|) else Refuse
  {
    var s := [tag, 0xFE] + Be2(|body|) + body + t;
    assert s[0] == tag && s[1] == 0xFE && s[2] == |body| / 0x100 && s[3] == |body| % 0x100;
  }

  /** A length behind 0xFF is refused as soon as it can be seen. */
  lemma DecideOver64K(c: Config, tag: byte, t: seq<byte>)
    requires c.IsTransaction(tag) && t != []
    ensures Decide(c, [tag, 0xFF] + t) == Refuse
  {
  }

  /** A heartbeat is a frame of one octet, taken at once and handed to the handler without unpacking; the
      handler's refusal ends the parse there. */
  lemma ParseHeartbeat(c: Config, h: Handler, past: seq<seq<byte>>, b: byte, t: seq<byte>)
    requires b in {c.ping, c.pong}
    ensures Decide(c, [b]) == Take(1) && Decide(c, [b] + t) == Take(1)
    ensures Parse(c, h, past, [b] + t)
         == if h.accepts(past, [b]) then Parse(c, h, past + [[b]], t) else Closed(past + [[b]])
  {
    assert ([b] + t)[..1] == [b] && ([b] + t)[1..] == t;
  }

  /** Any other frame: one over the MTU or one that does not unpack ends the parse before the handler sees
      it, one the handler refuses after, and the parse goes on behind one it accepts. */
  lemma ParseTlv(c: Config, h: Handler, past: seq<seq<byte>>, tag: byte, body: seq<byte>, t: seq<byte>)
    requires c.IsTransaction(tag) && c.mtu <= 0x10000 && (body != [] || t != [])
    ensures var f := Tlv(tag, body);
      Parse(c, h, past, f + t)
      == if |f| > c.mtu || !h.unpacks(f) then Closed(past)
         else if !h.accepts(past, f) then Closed(past + [f])
         else Parse(c, h, past + [f], t)
  {
    var f := Tlv(tag, body);
    if body != [] { DecideTlv(c, tag, body, t); } else { TlvReads(tag, body, t); }
    assert f[0] == tag && (f + t)[..|f|] == f && (f + t)[|f|..] == t;
  }

  /** Parsing may stop at any byte and resume with the leftover bytes in front. */
  lemma {:induction false} ParseAppend(c: Config, h: Handler, past: seq<seq<byte>>, s: seq<byte>, t: seq<byte>)
    ensures Parse(c, h, past, s + t)
         == match Parse(c, h, past, s)
            case Open(fs, rest) => Parse(c, h, fs, rest + t)
            case Closed(fs) => Closed(fs)
    decreases |s|
  {
    if s == [] {
      assert s + t == t && [] + t == t;
    } else if Decide(c, s) != Wait {
      DecideStable(c, s, t);
      if Decide(c, s).Take? {
        var n := Decide(c, s).size;
        assert (s + t)[..n] == s[..n] && (s + t)[n..] == s[n..] + t;
        ParseAppend(c, h, past + [s[..n]], s[n..], t);
      }
    }
  }

  /** One receive: `chunk` is appended to the leftover bytes of an open connection. */
  function Feed(c: Config, h: Handler, o: Outcome, chunk: seq<byte>): Outcome {
    match o
    case Open(fs, rest) => Parse(c, h, fs, rest + chunk)
    case Closed(_) => o
  }

  function FeedAll(c: Config, h: Handler, o: Outcome, chunks: seq<seq<byte>>): Outcome
    decreases |chunks|
  {
    if chunks == [] then o else FeedAll(c, h, Feed(c, h, o, chunks[0]), chunks[1..])
  }

  predicate Settled(c: Config, s: seq<byte>) {
    s == [] || Decide(c, s) == Wait
  }

  /** Any cutting of a stream into receives gives the frames, the leftover bytes and the verdict of
      one pass over the whole stream. */
  lemma {:induction false} ChunkIndependence(c: Config, h: Handler, o: Outcome, chunks: seq<seq<byte>>)
    requires o.Open? ==> Settled(c, o.rest)
    ensures FeedAll(c, h, o, chunks) == Feed(c, h, o, Concat(chunks))
    decreases |chunks|
  {
    if chunks == [] {
      if o.Open? { assert o.rest + [] == o.rest; }
    } else {
      var o' := Feed(c, h, o, chunks[0]);
      if o.Open? {
        ParseSettles(c, h, o.frames, o.rest + chunks[0]);
        ParseAppend(c, h, o.frames, o.rest + chunks[0], Concat(chunks[1..]));
        assert o.rest + chunks[0] + Concat(chunks[1..]) == o.rest + Concat(chunks);
      }
      ChunkIndependence(c, h, o', chunks[1..]);
    }
  }

  /** An open outcome keeps every byte, in order, and leaves nothing the loop could still decide. */
  lemma {:induction false} ParseSettles(c: Config, h: Handler, past: seq<seq<byte>>, s: seq<byte>)
    ensures past <= Parse(c, h, past, s).frames
    ensures var o := Parse(c, h, past, s); o.Open? ==>
      Concat(past) + s == Concat(o.frames) + o.rest && Settled(c, o.rest)
    decreases |s|
  {
    if s != [] && Decide(c, s).Take? {
      var n := Decide(c, s).size;
      var f := s[..n];
      if Unpacks(c, h, f) && h.accepts(past, f) {
        ParseSettles(c, h, past + [f], s[n..]);
        ConcatSnoc(past, f);
        assert Concat(past) + s == Concat(past) + f + s[n..];
      }
    }
  }

  // ------------------------------------------------------------------ a buffer of the size of the MTU

  /** What comes of a stream received into a buffer of the size of the MTU: the outcome of parsing, or
      undecided bytes that fill the buffer while `rest`, those bytes included, has more to come. */
  datatype Reading = Parsed(o: Outcome) | Full(frames: seq<seq<byte>>, rest: seq<byte>)

  /** Only the bytes in the buffer can be looked at. */
  function Buffered(c: Config, s: seq<byte>): (b: seq<byte>)
    requires c.mtu >= 1
    ensures b <= s && (s != [] ==> b != [])
  {
    if |s| <= c.mtu then s else s[..c.mtu]
  }

  function ReadOn(c: Config, h: Handler, past: seq<seq<byte>>, s: seq<byte>): Reading
    requires c.mtu >= 1
    decreases |s|
  {
    if s == [] then Parsed(Open(past, []))
    else
      match Decide(c, Buffered(c, s))
      case Wait => if |s| <= c.mtu then Parsed(Open(past, s)) else Full(past, s)
      case Refuse => Parsed(Closed(past))
      case Take(n) =>
        var f := s[..n];
        if !Unpacks(c, h, f) then Parsed(Closed(past))
        else if !h.accepts(past, f) then Parsed(Closed(past + [f]))
        else ReadOn(c, h, past + [f], s[n..])
  }

  /** Bytes that fit the buffer may be parsed before the others arrive. */
  lemma {:induction false} ReadOnAppend(c: Config, h: Handler, past: seq<seq<byte>>, s: seq<byte>, t: seq<byte>)
    requires c.mtu >= 1 && |s| <= c.mtu
    ensures ReadOn(c, h, past, s + t)
         == match Parse(c, h, past, s)
            case Open(fs, rest) => ReadOn(c, h, fs, rest + t)
            case Closed(fs) => Parsed(Closed(fs))
    decreases |s|
  {
    if s == [] {
      assert s + t == t && [] + t == t;
    } else if Decide(c, s) != Wait {
      BufferedDecides(c, s, t);
      if Decide(c, s).Take? {
        var n := Decide(c, s).size;
        assert (s + t)[..n] == s[..n] && (s + t)[n..] == s[n..] + t;
        ReadOnAppend(c, h, past + [s[..n]], s[n..], t);
      }
    }
  }

  lemma BufferedDecides(c: Config, s: seq<byte>, t: seq<byte>)
    requires c.mtu >= |s| > 0 && Decide(c, s) != Wait
    ensures Decide(c, Buffered(c, s + t)) == Decide(c, s)
  {
    var b := Buffered(c, s + t);
    assert b == s + b[|s|..];
    DecideStable(c, s, b[|s|..]);
  }

  /** The buffer makes a difference only where it is full: there an unbounded buffer would have taken an
      empty frame under an MTU of 2, waited for a header that is not complete, or refused. */
  lemma {:induction false} ReadOnIsParse(c: Config, h: Handler, past: seq<seq<byte>>, s: seq<byte>)
    requires c.mtu >= 1
    ensures match ReadOn(c, h, past, s)
            case Parsed(o) => o == Parse(c, h, past, s)
            case Full(fs, rest) =>
              && c.mtu < 4 && |rest| > c.mtu && Decide(c, rest[..c.mtu]) == Wait
              && Parse(c, h, past, s) == Parse(c, h, fs, rest)
              && Decide(c, rest) == (if |rest| < 3 || (rest[1] == 0xFE && |rest| < 4) then Wait
                                     else if c.mtu == 2 && rest[1] == 0 then Take(2) else Refuse)
    decreases |s|
  {
    if s != [] {
      var b := Buffered(c, s);
      assert b + s[|b|..] == s;
      if Decide(c, b) != Wait {
        DecideStable(c, b, s[|b|..]);
        if Decide(c, b).Take? {
          var n := Decide(c, b).size;
          ReadOnIsParse(c, h, past + [s[..n]], s[n..]);
        }
      } else if |s| > c.mtu {
        FullDecides(c, s);
      }
    }
  }

  lemma FullDecides(c: Config, s: seq<byte>)
    requires 1 <= c.mtu < |s| && Decide(c, s[..c.mtu]) == Wait
    ensures c.mtu < 4
    ensures Decide(c, s) == if |s| < 3 || (s[1] == 0xFE && |s| < 4) then Wait
                            else if c.mtu == 2 && s[1] == 0 then Take(2) else Refuse
  {
    var b := s[..c.mtu];
    assert b[0] == s[0] && (|b| >= 2 ==> b[1] == s[1]);
  }

  /** A healthy connection that fills the buffer: under an MTU of 2, an empty frame and any byte more. */
  lemma EmptyFrameFills(c: Config, h: Handler, past: seq<seq<byte>>, tag: byte, t: seq<byte>)
    requires c.mtu == 2 && c.IsTransaction(tag) && t != []
    ensures ReadOn(c, h, past, Tlv(tag, []) + t) == Full(past, Tlv(tag, []) + t)
    ensures Decide(c, Tlv(tag, []) + t) == Take(2)
  {
    var s := Tlv(tag, []) + t;
    assert Buffered(c, s) == Tlv(tag, []);
  }

  /** The receive buffer always has room for at least one more byte exactly when the MTU is at least 4:
      a smaller one can be filled by bytes that the loop waits to know more about. */
  lemma RestFitsExactly(c: Config)
    requires c.mtu >= 1
    ensures c.mtu >= 4 <==> forall s: seq<byte> | |s| <= c.mtu && Settled(c, s) :: |s| < c.mtu
  {
    if c.mtu < 4 {
      var tag: byte := if c.IsTransaction(0) then 0 else if c.IsTransaction(1) then 1 else 2;
      var wide: seq<byte> := [tag, 0xFE, 0];
      var full := wide[..c.mtu];
      assert full[0] == tag;
      assert Settled(c, full) && |full| == c.mtu;
    }
  }
}
