/**
 Cutting a byte stream into messages: a 24-byte header names the size of the payload.
 Bytes arrive in pieces of any size; the messages do not depend on the pieces.
 */
module Framing {
  import opened Mpi
  import opened Numbers

  const HEADER_SIZE := 24
  const MAX_SIZE := 0x0200_0000

  datatype Header = Header(start: seq<Byte>, command: seq<Byte>, nMessageSize: nat, nChecksum: nat)

  function LittleEndian(b: seq<Byte>): nat
    requires |b| == 4
  {
    ToNat([b[3], b[2], b[1], b[0]])
  }

  function ReadHeaderFields(b: seq<Byte>): Header
    requires |b| == HEADER_SIZE
  {
    Header(b[..4], b[4..16], LittleEndian(b[16..20]), LittleEndian(b[20..24]))
  }

  /** The four bytes of a number, lowest first. */
  function FourBytes(n: nat): (b: seq<Byte>)
    requires n < 0x1_0000_0000
    ensures |b| == 4
  {
    [n % 256, n / 256 % 256, n / 0x1_0000 % 256, n / 0x100_0000]
  }

  /** A header written field by field: start, command, size and checksum. */
  function WriteHeader(start: seq<Byte>, command: seq<Byte>, size: nat, checksum: nat): (b: seq<Byte>)
    requires |start| == 4 && |command| == 12 && size < 0x1_0000_0000 && checksum < 0x1_0000_0000
    ensures |b| == HEADER_SIZE
  {
    start + command + FourBytes(size) + FourBytes(checksum)
  }

  lemma FourBytesRead(n: nat)
    requires n < 0x1_0000_0000
    ensures LittleEndian(FourBytes(n)) == n
  {
    var b := FourBytes(n);
    FourBytesValue(b[3], b[2], b[1], b[0]);
    FourParts(n);
  }

  lemma FourBytesValue(b3: Byte, b2: Byte, b1: Byte, b0: Byte)
    ensures var n3, n2, n1, n0: nat := b3, b2, b1, b0;
            ToNat([b3, b2, b1, b0]) == ((n3 * 256 + n2) * 256 + n1) * 256 + n0
  {
    var w: seq<Byte> := [b3, b2, b1, b0];
    assert w[..3] == [b3, b2, b1] && w[..3][..2] == [b3, b2] && w[..3][..2][..1] == [b3];
    ToNatOne(b3);
    var n3, n2, n1: nat := b3, b2, b1;
    assert ToNat(w[..3][..2]) == n3 * 256 + n2;
    assert ToNat(w[..3]) == (n3 * 256 + n2) * 256 + n1;
  }

  lemma FourParts(n: nat)
    requires n < 0x1_0000_0000
    ensures ((n / 0x100_0000 * 256 + n / 0x1_0000 % 256) * 256 + n / 256 % 256) * 256 + n % 256 == n
  {
    assert n / 0x1_0000 == n / 0x100_0000 * 256 + n / 0x1_0000 % 256;
    assert n / 256 == n / 0x1_0000 * 256 + n / 256 % 256;
  }

  /** Every field of a written header is read back. */
  lemma HeaderRoundTrip(start: seq<Byte>, command: seq<Byte>, size: nat, checksum: nat)
    requires |start| == 4 && |command| == 12 && size < 0x1_0000_0000 && checksum < 0x1_0000_0000
    ensures ReadHeaderFields(WriteHeader(start, command, size, checksum)) == Header(start, command, size, checksum)
  {
    hide LittleEndian, FourBytes;
    var b := WriteHeader(start, command, size, checksum);
    assert b[..4] == start && b[4..16] == command && b[16..20] == FourBytes(size) && b[20..24] == FourBytes(checksum);
    FourBytesRead(size);
    FourBytesRead(checksum);
  }

  // ---------- byte by byte ----------

  /** A message as far as it has arrived. */
  datatype Frame = Frame(header: seq<Byte>, data: seq<Byte>)

  datatype Received = Receiving(frames: seq<Frame>) | Rejected(frames: seq<Frame>)

  function Size(f: Frame): nat
    requires |f.header| == HEADER_SIZE
  {
    ReadHeaderFields(f.header).nMessageSize
  }

  predicate Complete(f: Frame) {
    |f.header| == HEADER_SIZE && |f.data| == Size(f)
  }

  /** The frames with a last one that can take a byte. */
  function Started(frames: seq<Frame>): (r: seq<Frame>)
    ensures r != [] && !Complete(r[|r| - 1])
  {
    if frames == [] || Complete(frames[|frames| - 1]) then frames + [Frame([], [])] else frames
  }

  function WithLast(frames: seq<Frame>, f: Frame): seq<Frame>
    requires frames != []
  {
    frames[..|frames| - 1] + [f]
  }

  function Extended(f: Frame, b: Byte): Frame {
    if |f.header| < HEADER_SIZE then f.(header := f.header + [b]) else f.(data := f.data + [b])
  }

  /** A header that was just completed announces too large a message. */
  predicate TooLarge(f: Frame) {
    |f.header| == HEADER_SIZE && f.data == [] && Size(f) > MAX_SIZE
  }

  function FeedByte(s: Received, b: Byte): Received {
    match s
    case Rejected(_) => s
    case Receiving(frames) =>
      var open := Started(frames);
      var f := Extended(open[|open| - 1], b);
      if TooLarge(f) then Rejected(WithLast(open, f)) else Receiving(WithLast(open, f))
  }

  /** What a stream of bytes amounts to, one byte at a time. */
  function Feed(s: Received, bytes: seq<Byte>): Received
    decreases |bytes|
  {
    if bytes == [] then s else Feed(FeedByte(s, bytes[0]), bytes[1..])
  }

  lemma {:induction false} FeedSplit(s: Received, a: seq<Byte>, b: seq<Byte>)
    ensures Feed(s, a + b) == Feed(Feed(s, a), b)
    decreases |a|
  {
    if a == [] {
      assert a + b == b;
    } else {
      FeedSplit(FeedByte(s, a[0]), a[1..], b);
      assert (a + b)[1..] == a[1..] + b;
    }
  }

  lemma {:induction false} FeedRejected(frames: seq<Frame>, bytes: seq<Byte>)
    ensures Feed(Rejected(frames), bytes) == Rejected(frames)
  {
    if bytes != [] {
      FeedRejected(frames, bytes[1..]);
    }
  }

  function HeaderOutcome(frames: seq<Frame>, g: Frame): Received {
    if TooLarge(g) then Rejected(frames + [g]) else Receiving(frames + [g])
  }

  lemma FeedCons(s: Received, bytes: seq<Byte>)
    requires bytes != []
    ensures Feed(s, bytes) == Feed(FeedByte(s, bytes[0]), bytes[1..])
  {
  }

  lemma FeedOne(s: Received, b: Byte)
    ensures Feed(s, [b]) == FeedByte(s, b)
  {
    assert [b][1..] == [];
  }

  lemma FeedHeaderByte(frames: seq<Frame>, f: Frame, b: Byte)
    requires f.data == [] && |f.header| < HEADER_SIZE
    ensures FeedByte(Receiving(frames + [f]), b) == HeaderOutcome(frames, f.(header := f.header + [b]))
  {
    hide Size;
    assert WithLast(frames + [f], Extended(f, b)) == frames + [Extended(f, b)];
  }

  /** Bytes that stay within the header of the last frame. */
  lemma {:induction false} FeedHeader(frames: seq<Frame>, f: Frame, bytes: seq<Byte>)
    requires f.data == [] && |f.header| < HEADER_SIZE && 0 < |bytes| <= HEADER_SIZE - |f.header|
    ensures Feed(Receiving(frames + [f]), bytes) == HeaderOutcome(frames, f.(header := f.header + bytes))
    decreases |bytes|
  {
    hide Feed, FeedByte, Size;
    var g := f.(header := f.header + [bytes[0]]);
    FeedHeaderByte(frames, f, bytes[0]);
    if |bytes| == 1 {
      assert bytes == [bytes[0]];
      FeedOne(Receiving(frames + [f]), bytes[0]);
    } else {
      FeedCons(Receiving(frames + [f]), bytes);
      FeedHeader(frames, g, bytes[1..]);
      assert g.header + bytes[1..] == f.header + bytes;
    }
  }

  lemma FeedDataByte(frames: seq<Frame>, f: Frame, b: Byte)
    requires |f.header| == HEADER_SIZE && |f.data| < Size(f)
    ensures FeedByte(Receiving(frames + [f]), b) == Receiving(frames + [f.(data := f.data + [b])])
  {
    hide Size;
    assert WithLast(frames + [f], Extended(f, b)) == frames + [Extended(f, b)];
  }

  lemma SameSize(f: Frame, g: Frame)
    requires |f.header| == HEADER_SIZE && g.header == f.header
    ensures Size(g) == Size(f)
  {
  }

  /** Bytes that stay within the payload of the last frame. */
  lemma {:induction false} FeedData(frames: seq<Frame>, f: Frame, bytes: seq<Byte>)
    requires |f.header| == HEADER_SIZE && |f.data| + |bytes| <= Size(f)
    ensures Feed(Receiving(frames + [f]), bytes) == Receiving(frames + [f.(data := f.data + bytes)])
    decreases |bytes|
  {
    hide Feed, FeedByte, Size;
    if bytes == [] {
      assert f.data + bytes == f.data;
      FeedNone(Receiving(frames + [f]));
    } else {
      var g := f.(data := f.data + [bytes[0]]);
      FeedDataByte(frames, f, bytes[0]);
      FeedCons(Receiving(frames + [f]), bytes);
      SameSize(f, g);
      FeedData(frames, g, bytes[1..]);
      assert g.data + bytes[1..] == f.data + bytes;
    }
  }

  /** Starting a new frame before the next byte changes nothing. */
  lemma FeedStarted(frames: seq<Frame>, bytes: seq<Byte>)
    requires bytes != []
    ensures Feed(Receiving(frames), bytes) == Feed(Receiving(Started(frames)), bytes)
  {
    assert Started(Started(frames)) == Started(frames);
  }

  // ---------- messages of the wire format ----------

  ghost predicate WellFormed(f: Frame) {
    Complete(f) && Size(f) <= MAX_SIZE
  }

  /** A header that announces the size of the payload that follows makes a well-formed message. */
  lemma WrittenIsWellFormed(start: seq<Byte>, command: seq<Byte>, checksum: nat, data: seq<Byte>)
    requires |start| == 4 && |command| == 12 && checksum < 0x1_0000_0000 && |data| <= MAX_SIZE
    ensures WellFormed(Frame(WriteHeader(start, command, |data|, checksum), data))
  {
    hide ReadHeaderFields, WriteHeader;
    HeaderRoundTrip(start, command, |data|, checksum);
  }

  /** A header that announces more than 32 megabytes ends the stream. */
  lemma OversizeRejected(start: seq<Byte>, command: seq<Byte>, size: nat, checksum: nat)
    requires |start| == 4 && |command| == 12 && size < 0x1_0000_0000 && checksum < 0x1_0000_0000
    ensures Feed(Receiving([]), WriteHeader(start, command, size, checksum)).Rejected? <==> size > 0x0200_0000
  {
    hide ReadHeaderFields, WriteHeader, Feed;
    var header := WriteHeader(start, command, size, checksum);
    HeaderRoundTrip(start, command, size, checksum);
    FeedStarted([], header);
    assert Started([]) == [] + [Frame([], [])];
    FeedHeader([], Frame([], []), header);
    assert [] + header == header;
  }

  function Bytes(fs: seq<Frame>): seq<Byte> {
    if fs == [] then [] else fs[0].header + fs[0].data + Bytes(fs[1..])
  }

  lemma FeedMessage(before: seq<Frame>, f: Frame)
    requires WellFormed(f) && (before == [] || Complete(before[|before| - 1]))
    ensures Feed(Receiving(before), f.header + f.data) == Receiving(before + [f])
  {
    hide Feed, Size;
    var started, whole := Frame([], []), Frame(f.header, []);
    FeedSplit(Receiving(before), f.header, f.data);
    FeedStarted(before, f.header);
    FeedHeader(before, started, f.header);
    assert started.(header := started.header + f.header) == whole;
    SizeOfHeader(f, whole);
    FeedData(before, whole, f.data);
    assert whole.(data := whole.data + f.data) == f;
  }

  lemma FeedNone(s: Received)
    ensures Feed(s, []) == s
  {
  }

  lemma SizeOfHeader(f: Frame, g: Frame)
    requires f.header == g.header && |f.header| == HEADER_SIZE
    ensures Size(f) == Size(g)
  {
  }

  /** A stream of well-formed messages is cut into exactly these messages. */
  lemma {:induction false} FeedMessages(before: seq<Frame>, fs: seq<Frame>)
    requires (forall i :: 0 <= i < |fs| ==> WellFormed(fs[i])) && (before == [] || Complete(before[|before| - 1]))
    ensures Feed(Receiving(before), Bytes(fs)) == Receiving(before + fs)
    decreases |fs|
  {
    hide Feed, Size;
    if fs == [] {
      assert before + fs == before;
      FeedNone(Receiving(before));
    } else {
      var f, rest := fs[0], fs[1..];
      FeedMessages(before + [f], rest);
      FeedMessage(before, f);
      FeedSplit(Receiving(before), f.header + f.data, Bytes(rest));
      assert before + [f] + rest == before + fs;
    }
  }

  // ---------- the receiver ----------

  /** A message being received: buffers may hold more room than has been filled. */
  datatype NetMessage = NetMessage(in_data: bool, hdrbuf: seq<Byte>, hdr: Header, nHdrPos: nat,
                                   vRecv: seq<Byte>, nDataPos: nat)

  const EmptyMessage := NetMessage(false, Zeros(HEADER_SIZE), Header([], [], 0, 0), 0, [], 0)

  function Zeros(n: nat): (z: seq<Byte>)
    ensures |z| == n
  {
    seq(n, _ => 0)
  }

  predicate IsComplete(m: NetMessage) {
    m.in_data && m.hdr.nMessageSize == m.nDataPos
  }

  ghost predicate MessageOk(m: NetMessage) {
    && |m.hdrbuf| == HEADER_SIZE
    && if m.in_data then
         && m.nHdrPos == HEADER_SIZE && m.hdr == ReadHeaderFields(m.hdrbuf)
         && m.nDataPos <= |m.vRecv| <= m.hdr.nMessageSize <= MAX_SIZE
       else m.nHdrPos < HEADER_SIZE && m.vRecv == [] && m.nDataPos == 0
  }

  /** The bytes of a message that were received. */
  ghost function FrameOf(m: NetMessage): Frame {
    Frame(m.hdrbuf[..Min(m.nHdrPos, |m.hdrbuf|)], m.vRecv[..Min(m.nDataPos, |m.vRecv|)])
  }

  /** Overwrites part of a buffer. */
  function Copied(buf: seq<Byte>, at: nat, bytes: seq<Byte>): (r: seq<Byte>)
    requires at + |bytes| <= |buf|
    ensures |r| == |buf| && r[..at + |bytes|] == buf[..at] + bytes
  {
    buf[..at] + bytes + buf[at + |bytes|..]
  }

  /** Takes header bytes; -1 if the header announces too large a message. */
  method ReadHeader(m: NetMessage, pch: seq<Byte>) returns (m': NetMessage, handled: int)
    requires MessageOk(m) && !m.in_data && pch != []
    ensures |m'.hdrbuf| == HEADER_SIZE && m'.nHdrPos <= HEADER_SIZE && m'.vRecv == [] && m'.nDataPos == 0
    ensures handled == -1 || 0 < handled <= |pch|
    ensures handled >= 0 ==> MessageOk(m') && FrameOf(m') == FrameOf(m).(header := FrameOf(m).header + pch[..handled])
                             && |FrameOf(m').header| <= HEADER_SIZE && !TooLarge(FrameOf(m'))
    ensures handled < 0 ==> m.nHdrPos + |pch| >= HEADER_SIZE && TooLarge(FrameOf(m'))
                            && FrameOf(m') == FrameOf(m).(header := FrameOf(m).header + pch[..HEADER_SIZE - m.nHdrPos])
  {
    var nRemaining := HEADER_SIZE - m.nHdrPos;
    var nCopy := Min(nRemaining, |pch|);
    m' := m.(hdrbuf := Copied(m.hdrbuf, m.nHdrPos, pch[..nCopy]), nHdrPos := m.nHdrPos + nCopy);
    if m'.nHdrPos < HEADER_SIZE {
      return m', nCopy;
    }
    assert m'.hdrbuf[..HEADER_SIZE] == m'.hdrbuf;
    m' := m'.(hdr := ReadHeaderFields(m'.hdrbuf));
    if m'.hdr.nMessageSize > MAX_SIZE {
      return m', -1;
    }
    m' := m'.(in_data := true);
    handled := nCopy;
  }

  /** Takes payload bytes, making room ahead of them. */
  method ReadData(m: NetMessage, pch: seq<Byte>) returns (m': NetMessage, handled: int)
    requires MessageOk(m) && m.in_data && !IsComplete(m) && pch != []
    ensures MessageOk(m') && 0 < handled <= |pch| && handled <= m.hdr.nMessageSize - m.nDataPos
    ensures FrameOf(m') == FrameOf(m).(data := FrameOf(m).data + pch[..handled])
  {
    var nRemaining := m.hdr.nMessageSize - m.nDataPos;
    var nCopy := Min(nRemaining, |pch|);
    m' := m;
    if |m'.vRecv| < m'.nDataPos + nCopy {
      var size := Min(m'.hdr.nMessageSize, m'.nDataPos + nCopy + 256 * 1024);
      m' := m'.(vRecv := m'.vRecv + Zeros(size - |m'.vRecv|));
    }
    assert m'.vRecv[..m.nDataPos] == m.vRecv[..m.nDataPos];
    m' := m'.(vRecv := Copied(m'.vRecv, m'.nDataPos, pch[..nCopy]), nDataPos := m'.nDataPos + nCopy);
    handled := nCopy;
  }

  ghost function FramesOf(ms: seq<NetMessage>): (fs: seq<Frame>)
    ensures |fs| == |ms| && forall i :: 0 <= i < |ms| ==> fs[i] == FrameOf(ms[i])
  {
    seq(|ms|, i requires 0 <= i < |ms| => FrameOf(ms[i]))
  }

  lemma FramesUpdate(ms: seq<NetMessage>, m: NetMessage)
    requires ms != []
    ensures FramesOf(ms) == FramesOf(ms)[..|ms| - 1] + [FrameOf(ms[|ms| - 1])]
    ensures FramesOf(ms[|ms| - 1 := m]) == FramesOf(ms)[..|ms| - 1] + [FrameOf(m)]
  {
  }

  lemma CompleteFrame(m: NetMessage)
    requires MessageOk(m)
    ensures IsComplete(m) <==> Complete(FrameOf(m))
    ensures m.in_data ==> |FrameOf(m).header| == HEADER_SIZE && Size(FrameOf(m)) == m.hdr.nMessageSize
                          && |FrameOf(m).data| == m.nDataPos
    ensures !m.in_data ==> |FrameOf(m).header| < HEADER_SIZE && FrameOf(m).data == []
  {
    if m.in_data {
      assert m.hdrbuf[..HEADER_SIZE] == m.hdrbuf;
    }
  }

  /** A complete message's buffer is its payload, with no room left over. */
  lemma CompletePayload(m: NetMessage)
    requires MessageOk(m) && IsComplete(m)
    ensures m.vRecv == FrameOf(m).data && m.hdrbuf == FrameOf(m).header
  {
    assert m.vRecv[..|m.vRecv|] == m.vRecv && m.hdrbuf[..HEADER_SIZE] == m.hdrbuf;
  }

  /** Opening an empty message is starting a frame. */
  lemma FramesStarted(ms: seq<NetMessage>)
    requires ms == [] || MessageOk(ms[|ms| - 1])
    ensures var open := if ms == [] || IsComplete(ms[|ms| - 1]) then ms + [EmptyMessage] else ms;
            Started(FramesOf(ms)) == FramesOf(open)
  {
    hide Size, ReadHeaderFields;
    if ms != [] {
      CompleteFrame(ms[|ms| - 1]);
    }
    assert FrameOf(EmptyMessage) == Frame([], []);
  }

  lemma AfterHeader(frames: seq<Frame>, f: Frame, bytes: seq<Byte>, n: nat)
    requires f.data == [] && |f.header| < HEADER_SIZE && 0 < n <= HEADER_SIZE - |f.header| && n <= |bytes|
    ensures Feed(Receiving(frames + [f]), bytes)
              == Feed(HeaderOutcome(frames, f.(header := f.header + bytes[..n])), bytes[n..])
  {
    hide Feed;
    FeedSplit(Receiving(frames + [f]), bytes[..n], bytes[n..]);
    assert bytes[..n] + bytes[n..] == bytes;
    FeedHeader(frames, f, bytes[..n]);
  }

  lemma AfterData(frames: seq<Frame>, f: Frame, bytes: seq<Byte>, n: nat)
    requires |f.header| == HEADER_SIZE && |f.data| + n <= Size(f) && n <= |bytes|
    ensures Feed(Receiving(frames + [f]), bytes)
              == Feed(Receiving(frames + [f.(data := f.data + bytes[..n])]), bytes[n..])
  {
    hide Feed, Size;
    FeedSplit(Receiving(frames + [f]), bytes[..n], bytes[n..]);
    assert bytes[..n] + bytes[n..] == bytes;
    FeedData(frames, f, bytes[..n]);
  }

  /** Lets a message take what it can of some bytes; this is what feeding them does to the last frame. */
  method Absorb(m: NetMessage, pch: seq<Byte>, ghost frames: seq<Frame>) returns (m': NetMessage, handled: int)
    requires MessageOk(m) && !IsComplete(m) && pch != []
    ensures handled == -1 || 0 < handled <= |pch|
    ensures handled >= 0 ==> MessageOk(m')
    ensures handled >= 0 ==>
              Feed(Receiving(frames + [FrameOf(m)]), pch) == Feed(Receiving(frames + [FrameOf(m')]), pch[handled..])
    ensures handled < 0 ==> Feed(Receiving(frames + [FrameOf(m)]), pch) == Rejected(frames + [FrameOf(m')])
  {
    hide Feed, FrameOf, TooLarge;
    CompleteFrame(m);
    if !m.in_data {
      m', handled := ReadHeader(m, pch);
      ghost var n := if handled < 0 then HEADER_SIZE - m.nHdrPos else handled;
      HeaderLength(m);
      AfterHeader(frames, FrameOf(m), pch, n);
      FeedRejected(frames + [FrameOf(m')], pch[n..]);
    } else {
      m', handled := ReadData(m, pch);
      AfterData(frames, FrameOf(m), pch, handled);
    }
  }

  lemma HeaderLength(m: NetMessage)
    requires MessageOk(m) && !m.in_data
    ensures |FrameOf(m).header| == m.nHdrPos
  {
  }

  /** A connection and the messages it received. */
  class Node {
    var vRecvMsg: seq<NetMessage>

    ghost predicate Valid()
      reads this
    {
      forall i :: 0 <= i < |vRecvMsg| ==> MessageOk(vRecvMsg[i])
    }

    constructor ()
      ensures Valid() && vRecvMsg == []
    {
      vRecvMsg := [];
    }

    /** Opens a message if none is, and lets it take what it can. */
    method ReceivePart(pch: seq<Byte>) returns (handled: int)
      requires Valid() && pch != []
      modifies this
      ensures handled == -1 || 0 < handled <= |pch|
      ensures handled >= 0 ==>
                Valid() && Feed(Receiving(FramesOf(old(vRecvMsg))), pch)
                    == Feed(Receiving(FramesOf(vRecvMsg)), pch[handled..])
      ensures handled < 0 ==> Feed(Receiving(FramesOf(old(vRecvMsg))), pch) == Rejected(FramesOf(vRecvMsg))
    {
      hide Feed, FramesOf, FrameOf, MessageOk, IsComplete, Started;
      FramesStarted(vRecvMsg);
      FeedStarted(FramesOf(vRecvMsg), pch);
      if vRecvMsg == [] || IsComplete(vRecvMsg[|vRecvMsg| - 1]) {
        EmptyIsOk();
        vRecvMsg := vRecvMsg + [EmptyMessage];
      }
      var last := |vRecvMsg| - 1;
      var msg;
      msg, handled := Absorb(vRecvMsg[last], pch, FramesOf(vRecvMsg)[..last]);
      FramesUpdate(vRecvMsg, msg);
      vRecvMsg := vRecvMsg[last := msg];
    }

    /** Receives a piece of the stream. The outcome is that of feeding its bytes one by one. */
    method ReceiveMsgBytes(pch: seq<Byte>) returns (ok: bool)
      requires Valid()
      modifies this
      ensures ok ==> Valid()
      ensures Feed(Receiving(FramesOf(old(vRecvMsg))), pch)
              == if ok then Receiving(FramesOf(vRecvMsg)) else Rejected(FramesOf(vRecvMsg))
    {
      hide Feed, FramesOf, MessageOk;
      ghost var first := Feed(Receiving(FramesOf(vRecvMsg)), pch);
      var rest := pch;
      while rest != []
        invariant Valid() && Feed(Receiving(FramesOf(vRecvMsg)), rest) == first
        decreases |rest|
      {
        var handled := ReceivePart(rest);
        if handled < 0 {
          return false;
        }
        rest := rest[handled..];
      }
      FeedNone(Receiving(FramesOf(vRecvMsg)));
      ok := true;
    }
  }

  lemma EmptyIsOk()
    ensures MessageOk(EmptyMessage) && !IsComplete(EmptyMessage)
  {
  }

  // ---------- pieces ----------

  function Joined(pieces: seq<seq<Byte>>): seq<Byte> {
    if pieces == [] then [] else Joined(pieces[..|pieces| - 1]) + pieces[|pieces| - 1]
  }

  /** Receives a stream piece by piece, until it is rejected. */
  method ReceivePieces(pieces: seq<seq<Byte>>) returns (node: Node, ok: bool)
    ensures fresh(node)
    ensures Feed(Receiving([]), Joined(pieces)) == if ok then Receiving(FramesOf(node.vRecvMsg))
            else Rejected(FramesOf(node.vRecvMsg))
  {
    node := new Node();
    ok := true;
    FeedNone(Receiving([]));
    for i := 0 to |pieces|
      invariant fresh(node) && (ok ==> node.Valid())
      invariant Feed(Receiving([]), Joined(pieces[..i])) == if ok then Receiving(FramesOf(node.vRecvMsg))
                else Rejected(FramesOf(node.vRecvMsg))
    {
      assert pieces[..i + 1][..i] == pieces[..i];
      FeedSplit(Receiving([]), Joined(pieces[..i]), pieces[i]);
      if ok {
        ok := node.ReceiveMsgBytes(pieces[i]);
      } else {
        FeedRejected(FramesOf(node.vRecvMsg), pieces[i]);
      }
    }
    assert pieces[..|pieces|] == pieces;
  }

  /** Two ways of cutting the same stream give the same headers, payloads and outcome. */
  method CutTwoWays(a: seq<seq<Byte>>, b: seq<seq<Byte>>) returns (first: Node, second: Node, ok1: bool, ok2: bool)
    requires Joined(a) == Joined(b)
    ensures ok1 == ok2 && FramesOf(first.vRecvMsg) == FramesOf(second.vRecvMsg)
  {
    first, ok1 := ReceivePieces(a);
    second, ok2 := ReceivePieces(b);
  }
}
