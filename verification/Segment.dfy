/** The segment codec: three header widths, one checksum. */
module Segment {
  import opened Words
  import opened Crc32

  const MAGIC: u8 := 0xF6
  const MAX_PAYLOAD: nat := 65519
  const LEGACY_SIZE: nat := 16
  const EXTENDED_SIZE: nat := 20
  const ROUTED_SIZE: nat := 24

  const FLAG_SYN: bv8 := 0x01
  const FLAG_FIN: bv8 := 0x02
  const FLAG_DATA: bv8 := 0x04
  const FLAG_ACK: bv8 := 0x08
  const FLAG_HEARTBEAT: bv8 := 0x10
  const FLAG_HELLO: bv8 := 0x20
  const FLAG_HDR_ROUTE: bv8 := 0x40
  const FLAG_HDR_EXT: bv8 := 0x80

  predicate Has(flags: bv8, flag: bv8) { flags & flag != 0 }

  datatype Header = Header(flags: bv8, payloadLen: u16, session: u32, seqNum: u32, ingress: u32, outport: u32, crc: Reg)

  function Width(flags: bv8): nat {
    if Has(flags, FLAG_HDR_ROUTE) then ROUTED_SIZE
    else if Has(flags, FLAG_HDR_EXT) then EXTENDED_SIZE
    else LEGACY_SIZE
  }

  // ---- The checksum field ----

  /** Byte k of a register, counted from the top. */
  function Part(c: Reg, k: nat): bv8
    requires k < 4
  {
    match k
    case 0 => (c >> 24) as bv8
    case 1 => ((c >> 16) & 0xFF) as bv8
    case 2 => ((c >> 8) & 0xFF) as bv8
    case 3 => (c & 0xFF) as bv8
  }

  function RegBytes(c: Reg): (p: seq<u8>)
    ensures |p| == 4
  {
    [Part(c, 0) as int, Part(c, 1) as int, Part(c, 2) as int, Part(c, 3) as int]
  }

  function Compose(p: bv8, q: bv8, r: bv8, s: bv8): Reg {
    ((p as Reg) << 24) | ((q as Reg) << 16) | ((r as Reg) << 8) | (s as Reg)
  }

  function BytesReg(p: seq<u8>): Reg
    requires |p| == 4
  {
    Compose(Bits(p[0]), Bits(p[1]), Bits(p[2]), Bits(p[3]))
  }

  lemma {:induction false} ComposeParts(p: bv8, q: bv8, r: bv8, s: bv8)
    ensures Part(Compose(p, q, r, s), 0) == p && Part(Compose(p, q, r, s), 1) == q
    ensures Part(Compose(p, q, r, s), 2) == r && Part(Compose(p, q, r, s), 3) == s
  {}

  lemma {:induction false} PartsCompose(c: Reg)
    ensures Compose(Part(c, 0), Part(c, 1), Part(c, 2), Part(c, 3)) == c
  {}

  lemma {:induction false} BytesOfReg(c: Reg)
    ensures BytesReg(RegBytes(c)) == c
  {
    hide Part, Bits, Compose;
    PartsCompose(c);
    BitsOfByte(Part(c, 0));
    BitsOfByte(Part(c, 1));
    BitsOfByte(Part(c, 2));
    BitsOfByte(Part(c, 3));
  }

  lemma {:induction false} RegOfBytes(p: seq<u8>)
    requires |p| == 4
    ensures RegBytes(BytesReg(p)) == p
  {
    hide Part, Bits, Compose;
    ComposeParts(Bits(p[0]), Bits(p[1]), Bits(p[2]), Bits(p[3]));
  }

  // ---- Decoding a header ----

  datatype Peeked = NeedMore | BadSegment | Peeked(hdr: Header, width: nat)

  function Peek(input: seq<u8>): Peeked {
    if |input| < LEGACY_SIZE then NeedMore
    else if input[0] != MAGIC then BadSegment
    else
      var flags := Bits(input[1]);
      var payloadLen := Be16(input[2..4]);
      var session := Be32(input[4..8]);
      var seqNum := Be32(input[8..12]);
      if payloadLen > MAX_PAYLOAD then BadSegment
      else if Has(flags, FLAG_HDR_ROUTE) then
        if |input| < ROUTED_SIZE then NeedMore
        else
          Peeked(Header(flags, payloadLen, session, seqNum, Be32(input[12..16]), Be32(input[16..20]),
                        BytesReg(input[20..24])),
                 ROUTED_SIZE)
      else if Has(flags, FLAG_HDR_EXT) then
        if |input| < EXTENDED_SIZE then NeedMore
        else Peeked(Header(flags, payloadLen, session, seqNum, Be32(input[12..16]), 0, BytesReg(input[16..20])),
                    EXTENDED_SIZE)
      else
        Peeked(Header(flags, payloadLen, session, seqNum, 0, 0, BytesReg(input[12..16])), LEGACY_SIZE)
  }

  /** More input never changes a header that has been read, nor a refusal. */
  lemma {:induction false} PeekExtends(a: seq<u8>, b: seq<u8>)
    requires Peek(a) != NeedMore
    ensures Peek(a + b) == Peek(a)
  {
    var c := a + b;
    assert a[1] == c[1] && a[2..4] == c[2..4] && a[4..8] == c[4..8] && a[8..12] == c[8..12] && a[12..16] == c[12..16];
    if |a| >= EXTENDED_SIZE {
      assert a[16..20] == c[16..20];
    }
    if |a| >= ROUTED_SIZE {
      assert a[20..24] == c[20..24];
    }
  }

  // ---- Encoding a frame ----

  /** The fields that every encoded header has, each at its offset. */
  function Common(hdr: Header, payloadLen: u16): (c: seq<u8>)
    ensures |c| == 16
  {
    [MAGIC, (hdr.flags | FLAG_HDR_EXT) as int] + Pack16(payloadLen)
    + Pack32(hdr.session) + Pack32(hdr.seqNum) + Pack32(hdr.ingress)
  }

  /** The frame up to its checksum field. */
  function Head(hdr: Header, payloadLen: u16): (h: seq<u8>)
    ensures |h| == (if Has(hdr.flags, FLAG_HDR_ROUTE) then ROUTED_SIZE else EXTENDED_SIZE) - 4
  {
    Common(hdr, payloadLen)
    + if Has(hdr.flags, FLAG_HDR_ROUTE) then Pack32(hdr.outport) else []
  }

  const ZERO4: seq<u8> := [0, 0, 0, 0]

  function FrameCrc(hdr: Header, payload: seq<u8>): Reg
    requires |payload| <= MAX_PAYLOAD
  {
    Crc(Head(hdr, |payload|) + ZERO4 + payload, 0)
  }

  function Frame(hdr: Header, payload: seq<u8>): seq<u8>
    requires |payload| <= MAX_PAYLOAD
  {
    Head(hdr, |payload|) + RegBytes(FrameCrc(hdr, payload)) + payload
  }

  /** The header that a reader finds in Frame(hdr, payload). */
  function Sent(hdr: Header, payload: seq<u8>): Header
    requires |payload| <= MAX_PAYLOAD
  {
    hdr.(flags := hdr.flags | FLAG_HDR_EXT, payloadLen := |payload|,
         outport := if Has(hdr.flags, FLAG_HDR_ROUTE) then hdr.outport else 0, crc := FrameCrc(hdr, payload))
  }

  lemma {:induction false} HeadFields(hdr: Header, payloadLen: u16)
    ensures var h := Head(hdr, payloadLen);
            h[0] == MAGIC && h[1] == (hdr.flags | FLAG_HDR_EXT) as int && h[2..4] == Pack16(payloadLen)
            && h[4..8] == Pack32(hdr.session) && h[8..12] == Pack32(hdr.seqNum) && h[12..16] == Pack32(hdr.ingress)
            && (Has(hdr.flags, FLAG_HDR_ROUTE) ==> h[16..20] == Pack32(hdr.outport))
  {
    hide Pack16, Pack32, Has;
    if Has(hdr.flags, FLAG_HDR_ROUTE) {
      assert Head(hdr, payloadLen)[16..] == Pack32(hdr.outport);
    }
  }

  lemma {:induction false} PeekHead(hdr: Header, f: seq<u8>, payloadLen: u16, crc: Reg)
    requires payloadLen <= MAX_PAYLOAD
    requires var h := Head(hdr, payloadLen); |f| >= |h| + 4 && f[..|h|] == h && f[|h|..|h| + 4] == RegBytes(crc)
    ensures Peek(f) == Peeked(
      hdr.(flags := hdr.flags | FLAG_HDR_EXT, payloadLen := payloadLen,
           outport := if Has(hdr.flags, FLAG_HDR_ROUTE) then hdr.outport else 0, crc := crc),
      |Head(hdr, payloadLen)| + 4)
  {
    var h := Head(hdr, payloadLen);
    HeadFields(hdr, payloadLen);
    BytesOfReg(crc);
    BitsOfByte(hdr.flags | FLAG_HDR_EXT);
    ExtFlag(hdr.flags);
    hide Bits, Head, RegBytes, BytesReg, Has, Pack16, Pack32, Be16, Be32;
    assert f[0] == h[0] && f[1] == h[1];
    assert f[2..4] == h[2..4] && f[4..8] == h[4..8] && f[8..12] == h[8..12] && f[12..16] == h[12..16];
    if Has(hdr.flags, FLAG_HDR_ROUTE) {
      assert f[16..20] == h[16..20];
    }
  }

  lemma {:induction false} Slices(h: seq<u8>, r: seq<u8>, t: seq<u8>)
    ensures (h + r + t)[..|h|] == h && (h + r + t)[|h|..|h| + |r|] == r && (h + r + t)[|h| + |r|..] == t
  {}

  lemma {:induction false} ExtFlag(flags: bv8)
    ensures Has(flags | FLAG_HDR_EXT, FLAG_HDR_EXT)
    ensures Has(flags | FLAG_HDR_EXT, FLAG_HDR_ROUTE) == Has(flags, FLAG_HDR_ROUTE)
  {}

  /** Peek after encode recovers every field, whatever follows the frame. */
  lemma {:induction false} PeekFrame(hdr: Header, payload: seq<u8>, rest: seq<u8>)
    requires |payload| <= MAX_PAYLOAD
    ensures Peek(Frame(hdr, payload) + rest) == Peeked(Sent(hdr, payload), Width(Sent(hdr, payload).flags))
  {
    hide Head, RegBytes, FrameCrc, Peek, Has;
    var h, r := Head(hdr, |payload|), RegBytes(FrameCrc(hdr, payload));
    assert Frame(hdr, payload) + rest == h + r + (payload + rest);
    Slices(h, r, payload + rest);
    ExtFlag(hdr.flags);
    PeekHead(hdr, h + r + (payload + rest), |payload|, FrameCrc(hdr, payload));
  }

  /** The four bytes of f from i on are the number n, most significant byte first. */
  predicate Reads32(f: seq<u8>, i: nat, n: int) {
    i + 4 <= |f| && ((f[i] as int * 256 + f[i + 1]) * 256 + f[i + 2]) * 256 + f[i + 3] == n
  }

  predicate HoldsCrc(f: seq<u8>, i: nat, crc: Reg) {
    && i + 4 <= |f|
    && f[i] == ((crc >> 24) as bv8) as int && f[i + 1] == (((crc >> 16) & 0xFF) as bv8) as int
    && f[i + 2] == (((crc >> 8) & 0xFF) as bv8) as int && f[i + 3] == ((crc & 0xFF) as bv8) as int
  }

  /** The header on the wire, byte by byte and most significant byte first: magic,
      flags, length, session, number, ingress id and, if it is routed, the outport id. */
  predicate HeadAt(f: seq<u8>, hdr: Header, payloadLen: nat) {
    && |f| >= 16 && f[0] == 0xF6 && f[1] == (hdr.flags | 0x80) as int && f[2] as int * 256 + f[3] == payloadLen
    && Reads32(f, 4, hdr.session) && Reads32(f, 8, hdr.seqNum) && Reads32(f, 12, hdr.ingress)
    && (hdr.flags & 0x40 != 0 ==> Reads32(f, 16, hdr.outport))
  }

  /** Behind it the checksum of the frame with a zeroed checksum, and the payload. */
  predicate LaidOut(f: seq<u8>, hdr: Header, payload: seq<u8>) {
    var w := if hdr.flags & 0x40 != 0 then 24 else 20;
    && HeadAt(f, hdr, |payload|) && |f| == w + |payload| && f[w..] == payload
    && HoldsCrc(f, w - 4, Crc(f[..w - 4] + [0, 0, 0, 0] + payload, 0))
  }

  lemma {:induction false} RegBytesAre(f: seq<u8>, i: nat, c: Reg)
    requires i + 4 <= |f| && f[i..i + 4] == RegBytes(c)
    ensures HoldsCrc(f, i, c)
  {
    var r := f[i..i + 4];
    assert r[0] == f[i] && r[1] == f[i + 1] && r[2] == f[i + 2] && r[3] == f[i + 3];
  }

  lemma {:induction false} Packed32(f: seq<u8>, i: nat, n: u32)
    requires i + 4 <= |f| && f[i..i + 4] == Pack32(n)
    ensures Reads32(f, i, n)
  {
    var p := f[i..i + 4];
    assert p[0] == f[i] && p[1] == f[i + 1] && p[2] == f[i + 2] && p[3] == f[i + 3];
    assert Be32(p) == n;
    hide Pack32;
  }

  lemma {:induction false} HeadLayout(hdr: Header, n: u16, f: seq<u8>)
    requires Head(hdr, n) <= f
    ensures HeadAt(f, hdr, n)
  {
    var h := Head(hdr, n);
    HeadFields(hdr, n);
    hide Head, Pack32, Reads32;
    assert h[2] == Pack16(n)[0] && h[3] == Pack16(n)[1];
    assert f[4..8] == h[4..8] && f[8..12] == h[8..12] && f[12..16] == h[12..16];
    Packed32(f, 4, hdr.session);
    Packed32(f, 8, hdr.seqNum);
    Packed32(f, 12, hdr.ingress);
    if Has(hdr.flags, FLAG_HDR_ROUTE) {
      assert f[16..20] == h[16..20];
      Packed32(f, 16, hdr.outport);
    }
  }

  /** Every encoded frame has this layout. */
  lemma {:induction false} WireLayout(hdr: Header, payload: seq<u8>)
    requires |payload| <= MAX_PAYLOAD
    ensures LaidOut(Frame(hdr, payload), hdr, payload)
  {
    var crc := FrameCrc(hdr, payload);
    var h, r, f := Head(hdr, |payload|), RegBytes(crc), Frame(hdr, payload);
    Slices(h, r, payload);
    assert ZERO4 == [0, 0, 0, 0] && crc == Crc(h + ZERO4 + payload, 0);
    assert |h| + 4 == if hdr.flags & 0x40 != 0 then 24 else 20;
    hide Head, RegBytes, Crc, HeadAt, HoldsCrc, Frame, FrameCrc, Has;
    assert f == h + r + payload;
    HeadLayout(hdr, |payload|, f);
    RegBytesAre(f, |h|, crc);
  }

  /** What a reader needs, refuses and reads, in numbers: sixteen bytes first; then the
      magic byte and at most 65519 bytes of payload; then a header of 24, 20 or 16 bytes by
      its flags 0x40 and 0x80; and each field from its place, 0 where the header has none. */
  predicate PeekedAs(input: seq<u8>, p: Peeked) {
    if |input| < 16 then p == NeedMore
    else if input[0] != 0xF6 || input[2] as int * 256 + input[3] > 65519 then p == BadSegment
    else
      var flags := Bits(input[1]);
      var w := if flags & 0x40 != 0 then 24 else if flags & 0x80 != 0 then 20 else 16;
      if |input| < w then p == NeedMore
      else
        && p.Peeked? && p.width == w && p.hdr.flags == flags
        && p.hdr.payloadLen == input[2] as int * 256 + input[3]
        && Reads32(input, 4, p.hdr.session) && Reads32(input, 8, p.hdr.seqNum)
        && (if w == 16 then p.hdr.ingress == 0 else Reads32(input, 12, p.hdr.ingress))
        && (if w == 24 then Reads32(input, 16, p.hdr.outport) else p.hdr.outport == 0)
        && HoldsCrc(input, w - 4, p.hdr.crc)
  }

  lemma {:induction false} Be32Reads(f: seq<u8>, i: nat)
    requires i + 4 <= |f|
    ensures Reads32(f, i, Be32(f[i..i + 4]))
  {
    var p := f[i..i + 4];
    assert p[0] == f[i] && p[1] == f[i + 1] && p[2] == f[i + 2] && p[3] == f[i + 3];
  }

  lemma {:induction false} CrcReads(f: seq<u8>, i: nat)
    requires i + 4 <= |f|
    ensures HoldsCrc(f, i, BytesReg(f[i..i + 4]))
  {
    RegOfBytes(f[i..i + 4]);
    RegBytesAre(f, i, BytesReg(f[i..i + 4]));
  }

  lemma {:induction false} Be16Reads(f: seq<u8>, i: nat)
    requires i + 2 <= |f|
    ensures Be16(f[i..i + 2]) == f[i] as int * 256 + f[i + 1]
  {}

  lemma {:induction false} PeekReads(input: seq<u8>)
    ensures PeekedAs(input, Peek(input))
  {
    hide Bits, Be16, Be32, BytesReg, Reads32, HoldsCrc;
    if |input| >= 16 {
      Be16Reads(input, 2);
      Be32Reads(input, 4);
      Be32Reads(input, 8);
      if Bits(input[1]) & 0x40 != 0 {
        if |input| >= 24 {
          Be32Reads(input, 12);
          Be32Reads(input, 16);
          CrcReads(input, 20);
        }
      } else if Bits(input[1]) & 0x80 != 0 {
        if |input| >= 20 {
          Be32Reads(input, 12);
          CrcReads(input, 16);
        }
      } else {
        CrcReads(input, 12);
      }
    }
  }

  // ---- Checking a frame ----

  /** The frame as the checksum sees it: its checksum field is zero. */
  function Zeroed(frame: seq<u8>, width: nat, payloadLen: nat): seq<u8>
    requires 4 <= width && width + payloadLen <= |frame|
  {
    frame[..width - 4] + ZERO4 + frame[width..width + payloadLen]
  }

  predicate CrcOk(frame: seq<u8>, hdr: Header, width: nat)
    requires width + hdr.payloadLen <= |frame|
  {
    (width == LEGACY_SIZE || width == EXTENDED_SIZE || width == ROUTED_SIZE)
    && Crc(Zeroed(frame, width, hdr.payloadLen), 0) == hdr.crc
  }

  /** A whole frame: a readable header and exactly the payload it announces. */
  predicate WellFormed(frame: seq<u8>) {
    var p := Peek(frame);
    p.Peeked? && |frame| == p.width + p.hdr.payloadLen
  }

  function HdrOf(frame: seq<u8>): (h: Header)
    requires WellFormed(frame)
    ensures h.payloadLen <= MAX_PAYLOAD
  {
    Peek(frame).hdr
  }

  function WidthOf(frame: seq<u8>): (w: nat)
    requires WellFormed(frame)
    ensures LEGACY_SIZE <= w <= ROUTED_SIZE && |frame| == w + HdrOf(frame).payloadLen
  {
    Peek(frame).width
  }

  function PayloadOf(frame: seq<u8>): (p: seq<u8>)
    requires WellFormed(frame)
    ensures |p| == HdrOf(frame).payloadLen
  {
    frame[WidthOf(frame)..]
  }

  predicate Intact(frame: seq<u8>) {
    WellFormed(frame) && CrcOk(frame, HdrOf(frame), WidthOf(frame))
  }

  lemma {:induction false} FrameIntact(hdr: Header, payload: seq<u8>)
    requires |payload| <= MAX_PAYLOAD
    ensures Intact(Frame(hdr, payload))
  {
    hide Head, RegBytes, Peek, Crc, Has;
    var h, r := Head(hdr, |payload|), RegBytes(FrameCrc(hdr, payload));
    var f := Frame(hdr, payload);
    PeekFrame(hdr, payload, []);
    assert f + [] == f;
    Slices(h, r, payload);
    ExtFlag(hdr.flags);
    assert WidthOf(f) == |h| + 4 && HdrOf(f) == Sent(hdr, payload);
    assert f[|h| + 4..|h| + 4 + |payload|] == payload;
  }

  // ---- Re-encoding ----

  lemma {:induction false} PeekFields(f: seq<u8>)
    requires WellFormed(f)
    ensures WidthOf(f) == Width(HdrOf(f).flags)
    ensures HdrOf(f).crc == BytesReg(f[WidthOf(f) - 4..WidthOf(f)])
    ensures f[..2] == [MAGIC, f[1]] && HdrOf(f).flags == Bits(f[1]) && HdrOf(f).payloadLen == Be16(f[2..4])
    ensures HdrOf(f).session == Be32(f[4..8]) && HdrOf(f).seqNum == Be32(f[8..12])
    ensures WidthOf(f) > LEGACY_SIZE ==> HdrOf(f).ingress == Be32(f[12..16])
    ensures WidthOf(f) == ROUTED_SIZE ==> HdrOf(f).outport == Be32(f[16..20])
  {
    hide Bits, BytesReg, Be16, Be32, Has;
  }

  lemma {:induction false} ExtKept(flags: bv8) ensures Has(flags, FLAG_HDR_EXT) <==> flags | FLAG_HDR_EXT == flags {}

  lemma {:induction false} CommonOfPeek(f: seq<u8>)
    requires WellFormed(f) && Has(HdrOf(f).flags, FLAG_HDR_EXT)
    ensures Common(HdrOf(f), HdrOf(f).payloadLen) == f[..16]
  {
    PeekFields(f);
    ExtKept(HdrOf(f).flags);
    hide Peek, Pack16, Pack32, Be16, Be32, BytesReg, Has, WellFormed, HdrOf, WidthOf;
    assert f[..2] == [MAGIC, HdrOf(f).flags as int];
    hide Bits;
    Pack16Be16(f[2..4]);
    Pack32Be32(f[4..8]);
    Pack32Be32(f[8..12]);
    Pack32Be32(f[12..16]);
    SixteenBytes(f);
  }

  lemma {:induction false} SixteenBytes(f: seq<u8>)
    requires |f| >= 16
    ensures f[..16] == f[..2] + f[2..4] + f[4..8] + f[8..12] + f[12..16]
  {}

  lemma {:induction false} HeadOfPeek(f: seq<u8>)
    requires WellFormed(f) && Has(HdrOf(f).flags, FLAG_HDR_EXT)
    ensures Head(HdrOf(f), HdrOf(f).payloadLen) == f[..WidthOf(f) - 4]
  {
    PeekFields(f);
    hide Peek, Bits, Common, Pack32, Be16, Be32, BytesReg, Has;
    CommonOfPeek(f);
    if WidthOf(f) == ROUTED_SIZE {
      Pack32Be32(f[16..20]);
      assert f[..20] == f[..16] + f[16..20];
    }
  }

  lemma {:induction false} CrcField(f: seq<u8>)
    requires WellFormed(f)
    ensures RegBytes(HdrOf(f).crc) == f[WidthOf(f) - 4..WidthOf(f)]
  {
    PeekFields(f);
    hide *;
    RegOfBytes(f[WidthOf(f) - 4..WidthOf(f)]);
  }

  lemma {:induction false} ThreeParts(f: seq<u8>, w: nat, n: nat)
    requires 4 <= w && |f| == w + n
    ensures f == f[..w - 4] + f[w - 4..w] + f[w..] && f[w..w + n] == f[w..]
  {}

  lemma {:induction false} Reencodes(f: seq<u8>)
    requires Intact(f) && Has(HdrOf(f).flags, FLAG_HDR_EXT)
    ensures Frame(HdrOf(f), PayloadOf(f)) == f
  {
    hide Peek, Head, RegBytes, Crc, Has, WellFormed, HdrOf, WidthOf;
    HeadOfPeek(f);
    CrcField(f);
    ThreeParts(f, WidthOf(f), HdrOf(f).payloadLen);
  }

  /** Re-encoding a whole frame gives back its bytes exactly when the frame
      carries the extended flag and its checksum is right: the checksum loops
      over the frame in three parts, the encoder over one zeroed copy. */
  lemma {:induction false} ReencodeIff(f: seq<u8>)
    requires WellFormed(f)
    ensures Frame(HdrOf(f), PayloadOf(f)) == f <==> Has(HdrOf(f).flags, FLAG_HDR_EXT) && Intact(f)
  {
    if Has(HdrOf(f).flags, FLAG_HDR_EXT) && Intact(f) {
      Reencodes(f);
    }
    hide Head, RegBytes, Crc, Has, CrcOk, Frame;
    if Frame(HdrOf(f), PayloadOf(f)) == f {
      FrameIntact(HdrOf(f), PayloadOf(f));
      PeekFrame(HdrOf(f), PayloadOf(f), []);
      assert f + [] == f;
      ExtFlag(HdrOf(f).flags);
    }
  }

  // ---- Detecting a changed frame ----

  /** Two byte strings of one length differ, but only inside [i, i + 4). */
  ghost predicate Burst(a: seq<u8>, b: seq<u8>, i: nat) {
    |a| == |b| && i + 4 <= |a| && a != b && a[..i] == b[..i] && a[i + 4..] == b[i + 4..]
  }

  /** A change inside four consecutive bytes that keeps the header width and the
      payload length, and that does not reach from the checked bytes into the
      checksum field, makes the check fail. */
  lemma {:induction false} BurstRejected(a: seq<u8>, b: seq<u8>, i: nat, w: nat)
    requires Intact(a) && WellFormed(b) && Burst(a, b, i)
    requires WidthOf(a) == WidthOf(b) == w && HdrOf(a).payloadLen == HdrOf(b).payloadLen
    requires a[w - 4..w] == b[w - 4..w] || (a[..w - 4] == b[..w - 4] && a[w..] == b[w..])
    ensures !Intact(b)
  {
    hide Peek, RegBytes, Crc, Burst, WellFormed, HdrOf, WidthOf;
    CrcField(a);
    CrcField(b);
    var n := HdrOf(a).payloadLen;
    if a[w - 4..w] == b[w - 4..w] {
      ZeroedBurst(a, b, i, w, n);
      ChangedBody(Zeroed(a, w, n), Zeroed(b, w, n), i, HdrOf(a).crc, HdrOf(b).crc);
    } else {
      ThreeParts(a, w, n);
      ThreeParts(b, w, n);
    }
  }

  lemma {:induction false} ChangedBody(x: seq<u8>, y: seq<u8>, i: nat, c: Reg, d: Reg)
    requires Burst(x, y, i) && RegBytes(c) == RegBytes(d) && Crc(x, 0) == c
    ensures Crc(y, 0) != d
  {
    hide Crc, RegBytes;
    BurstChangesCrc(x, y, i, 0);
    BytesOfReg(c);
    BytesOfReg(d);
  }

  lemma {:induction false} ZeroedBurst(a: seq<u8>, b: seq<u8>, i: nat, w: nat, n: nat)
    requires Burst(a, b, i) && |a| == w + n && 4 <= w && a[w - 4..w] == b[w - 4..w]
    ensures Burst(Zeroed(a, w, n), Zeroed(b, w, n), i)
  {
    var x, y := Zeroed(a, w, n), Zeroed(b, w, n);
    ZeroedAt(a, w, n);
    ZeroedAt(b, w, n);
    hide Zeroed;
    assert forall k | 0 <= k < i :: a[k] == a[..i][k] && b[k] == b[..i][k];
    assert forall k | i + 4 <= k < |a| :: a[k] == a[i + 4..][k - i - 4] && b[k] == b[i + 4..][k - i - 4];
    assert forall k | w - 4 <= k < w :: a[k] == a[w - 4..w][k - w + 4] && b[k] == b[w - 4..w][k - w + 4];
    assert exists k :: 0 <= k < |a| && a[k] != b[k];
  }

  lemma {:induction false} ZeroedAt(frame: seq<u8>, width: nat, payloadLen: nat)
    requires 4 <= width && width + payloadLen <= |frame|
    ensures |Zeroed(frame, width, payloadLen)| == width + payloadLen
    ensures forall k | 0 <= k < width + payloadLen ::
              Zeroed(frame, width, payloadLen)[k] == if width - 4 <= k < width then 0 else frame[k]
  {}

  // ---- The operations ----

  /** Reads a header field by field; consumed is 0 if more bytes are needed, and ok is
      false for a bad segment. */
  method PeekHeader(input: seq<u8>) returns (ok: bool, consumed: nat, hdr: Header)
    ensures match Peek(input)
            case NeedMore => ok && consumed == 0
            case BadSegment => !ok
            case Peeked(h, width) => ok && consumed == width && hdr == h
  {
    ok, consumed, hdr := true, 0, Header(0, 0, 0, 0, 0, 0, 0);
    if |input| < LEGACY_SIZE { return; }
    if input[0] != MAGIC { return false, 0, hdr; }
    hide Bits, Has, BytesReg, Be16, Be32;
    hdr := hdr.(flags := Bits(input[1]), payloadLen := Be16(input[2..4]));
    hdr := hdr.(session := Be32(input[4..8]), seqNum := Be32(input[8..12]));
    if hdr.payloadLen > MAX_PAYLOAD { return false, 0, hdr; }
    if Has(hdr.flags, FLAG_HDR_ROUTE) {
      if |input| < ROUTED_SIZE { return; }
      hdr := hdr.(ingress := Be32(input[12..16]), outport := Be32(input[16..20]), crc := BytesReg(input[20..24]));
      consumed := ROUTED_SIZE;
    } else if Has(hdr.flags, FLAG_HDR_EXT) {
      if |input| < EXTENDED_SIZE { return; }
      hdr := hdr.(ingress := Be32(input[12..16]), outport := 0, crc := BytesReg(input[16..20]));
      consumed := EXTENDED_SIZE;
    } else {
      hdr := hdr.(ingress := 0, outport := 0, crc := BytesReg(input[12..16]));
      consumed := LEGACY_SIZE;
    }
  }

  datatype EncodeResult = Wrote(size: nat) | MemoryError | BadSegmentError

  /** s with the bytes from offset on replaced by data. */
  function Splice(s: seq<u8>, offset: nat, data: seq<u8>): seq<u8>
    requires offset + |data| <= |s|
  {
    s[..offset] + data + s[offset + |data|..]
  }

  lemma {:induction false} SpliceNext(s: seq<u8>, d: seq<u8>, e: seq<u8>)
    requires |d| + |e| <= |s|
    ensures Splice(Splice(s, 0, d), |d|, e) == Splice(s, 0, d + e)
  {}

  lemma {:induction false} SpliceOver(s: seq<u8>, d: seq<u8>, z: seq<u8>, r: seq<u8>, e: seq<u8>)
    requires |z| == |r| && |d| + |z| + |e| <= |s|
    ensures Splice(Splice(s, 0, d + z + e), |d|, r) == Splice(s, 0, d + r + e)
  {}

  /** Copies data to out from offset on. */
  method Put(out: array<u8>, offset: nat, data: seq<u8>)
    requires offset + |data| <= out.Length
    modifies out
    ensures out[..] == Splice(old(out[..]), offset, data)
  {
    forall i | 0 <= i < |data| {
      out[offset + i] := data[i];
    }
  }

  /** Put, where everything before offset has already been written over s. */
  method PutNext(out: array<u8>, offset: nat, data: seq<u8>, ghost s: seq<u8>, ghost done: seq<u8>)
    requires offset + |data| <= out.Length == |s| && |done| == offset && out[..] == Splice(s, 0, done)
    modifies out
    ensures out[..] == Splice(s, 0, done + data)
  {
    Put(out, offset, data);
    SpliceNext(s, done, data);
  }

  method PutCommon(out: array<u8>, hdr: Header, payloadLen: u16)
    requires out.Length >= 16
    modifies out
    ensures out[..] == Splice(old(out[..]), 0, Common(hdr, payloadLen))
  {
    ghost var s := out[..];
    assert s == Splice(s, 0, []);
    hide Pack16, Pack32, Splice;
    ghost var start: seq<u8> := [MAGIC, (hdr.flags | FLAG_HDR_EXT) as int];
    ghost var upTo4 := start + Pack16(payloadLen);
    ghost var upTo8 := upTo4 + Pack32(hdr.session);
    ghost var upTo12 := upTo8 + Pack32(hdr.seqNum);
    assert [] + start == start;
    PutNext(out, 0, [MAGIC, (hdr.flags | FLAG_HDR_EXT) as int], s, []);
    PutNext(out, 2, Pack16(payloadLen), s, start);
    PutNext(out, 4, Pack32(hdr.session), s, upTo4);
    PutNext(out, 8, Pack32(hdr.seqNum), s, upTo8);
    PutNext(out, 12, Pack32(hdr.ingress), s, upTo12);
  }

  method PutHead(out: array<u8>, hdr: Header, payloadLen: u16)
    requires out.Length >= |Head(hdr, payloadLen)|
    modifies out
    ensures out[..] == Splice(old(out[..]), 0, Head(hdr, payloadLen))
  {
    hide Common, Pack32, Has, Splice;
    PutCommon(out, hdr, payloadLen);
    if Has(hdr.flags, FLAG_HDR_ROUTE) {
      PutNext(out, 16, Pack32(hdr.outport), old(out[..]), Common(hdr, payloadLen));
    } else {
      assert Head(hdr, payloadLen) == Common(hdr, payloadLen);
    }
  }

  /** Behind a head of n bytes: the payload, and the checksum over a zeroed field. */
  method PutBody(table: Crc32Table, out: array<u8>, ghost s: seq<u8>, ghost head: seq<u8>, n: nat, payload: seq<u8>)
    requires table.Valid() && |head| == n && n + 4 + |payload| <= |s| && out[..] == Splice(s, 0, head)
    modifies out
    ensures out[..] == Splice(s, 0, head + RegBytes(Crc(head + ZERO4 + payload, 0)) + payload)
  {
    hide RegBytes, Crc, Crc32Table.Valid;
    PutNext(out, n, ZERO4, s, head);
    PutNext(out, n + 4, payload, s, head + ZERO4);
    var covered := out[..n + 4 + |payload|];
    assert covered == head + ZERO4 + payload;
    var crc := table.Checksum(covered, 0);
    Put(out, n, RegBytes(crc));
    SpliceOver(s, head, ZERO4, RegBytes(crc), payload);
  }

  method Encode(table: Crc32Table, out: array?<u8>, hdr: Header, payload: seq<u8>) returns (r: EncodeResult)
    requires table.Valid()
    modifies if out == null then {} else {out}
    ensures r == if out == null then MemoryError
                 else if |payload| > MAX_PAYLOAD then BadSegmentError
                 else if out.Length < |Frame(hdr, payload)| then MemoryError
                 else Wrote(|Frame(hdr, payload)|)
    ensures out != null ==>
              out[..] == if r.Wrote? then Splice(old(out[..]), 0, Frame(hdr, payload)) else old(out[..])
  {
    if out == null { return MemoryError; }
    if |payload| > MAX_PAYLOAD { return BadSegmentError; }
    var headerSize := if Has(hdr.flags, FLAG_HDR_ROUTE) then ROUTED_SIZE else EXTENDED_SIZE;
    var total := headerSize + |payload|;
    if out.Length < total { return MemoryError; }
    hide Head, Has, RegBytes, Crc, Splice, Crc32Table.Valid;
    ghost var s := out[..];
    PutHead(out, hdr, |payload|);
    PutBody(table, out, s, Head(hdr, |payload|), headerSize - 4, payload);
    r := Wrote(total);
  }

  lemma {:induction false} InvertZero() ensures Invert(0) == ONES {}

  /** Feeds the bytes of data from lo up to hi. */
  method FeedRange(table: Crc32Table, c: Reg, data: seq<u8>, lo: nat, hi: nat) returns (r: Reg)
    requires table.Valid() && lo <= hi <= |data|
    ensures r == Feed(c, data[lo..hi])
  {
    r := c;
    hide FeedByte;
    for i := lo to hi
      invariant r == Feed(c, data[lo..i])
    {
      FeedStep(c, data[lo..], i - lo);
      assert data[lo..][..i - lo] == data[lo..i] && data[lo..][..i - lo + 1] == data[lo..i + 1];
      r := table.Update(r, data[i]);
    }
  }

  /** The checksum in three parts is one pass over the zeroed frame. */
  lemma {:induction false} CrcInParts(input: seq<u8>, w: nat, n: nat)
    requires 4 <= w && w + n <= |input|
    ensures Invert(Feed(Feed(Feed(ONES, input[0..w - 4]), ZERO4[0..4]), input[w..w + n])) == Crc(Zeroed(input, w, n), 0)
  {
    InvertZero();
    hide Invert, Feed;
    assert input[0..w - 4] == input[..w - 4] && ZERO4[0..4] == ZERO4;
    FeedAppend(ONES, input[..w - 4], ZERO4);
    FeedAppend(ONES, input[..w - 4] + ZERO4, input[w..w + n]);
  }

  method Matches(table: Crc32Table, input: seq<u8>, width: nat, payloadLen: nat, stored: Reg) returns (ok: bool)
    requires table.Valid() && 4 <= width && width + payloadLen <= |input|
    ensures ok == (Crc(Zeroed(input, width, payloadLen), 0) == stored)
  {
    hide Invert, Feed, Zeroed, Crc, Crc32Table.Valid;
    var c := FeedRange(table, ONES, input, 0, width - 4);
    c := FeedRange(table, c, ZERO4, 0, 4);
    c := FeedRange(table, c, input, width, width + payloadLen);
    CrcInParts(input, width, payloadLen);
    ok := Invert(c) == stored;
  }

  /** The receiver's check of the frame at the start of input. */
  method VerifyCrc(table: Crc32Table, input: seq<u8>, hdr: Header, width: nat) returns (ok: bool)
    requires table.Valid() && width + hdr.payloadLen <= |input|
    ensures ok == CrcOk(input, hdr, width)
  {
    if width != LEGACY_SIZE && width != EXTENDED_SIZE && width != ROUTED_SIZE {
      return false;
    }
    hide Crc;
    ok := Matches(table, input, width, hdr.payloadLen, hdr.crc);
  }
}
