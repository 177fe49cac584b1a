/** What a DataStream puts on the wire: chunks, sequence numbers and frames. */
module Sending {
  import opened Words
  import opened Segment
  import opened Selector
  import opened StreamSpec

  /** One frame, handed to each of the chosen links. */
  datatype Transmission = Transmission(links: seq<u32>, frame: seq<u8>)

  datatype SendResult = Written(size: nat) | NoChannel

  type Payload = p: seq<u8> | |p| <= MAX_PAYLOAD witness []

  const USE_LOCAL: u32 := 0xFFFF_FFFF

  function FramesOf(sent: seq<Transmission>): seq<seq<u8>> {
    if sent == [] then [] else [sent[0].frame] + FramesOf(sent[1..])
  }

  lemma {:induction false} FramesAppend(a: seq<Transmission>, b: seq<Transmission>)
    ensures FramesOf(a + b) == FramesOf(a) + FramesOf(b)
  {
    if a == [] {
      assert a + b == b;
    } else {
      assert (a + b)[1..] == a[1..] + b;
      FramesAppend(a[1..], b);
    }
  }

  function HeaderFor(cfg: Config, key: Key, seqNum: u32, flags: bv8): Header {
    var hdr := Header(flags, 0, key.session, seqNum, key.ingress, 0, 0);
    if cfg.outport != 0 then hdr.(flags := flags | FLAG_HDR_ROUTE, outport := cfg.outport) else hdr
  }

  /** The frame of a session segment. */
  function SegmentFrame(cfg: Config, key: Key, seqNum: u32, flags: bv8, payload: Payload): seq<u8>
  {
    Frame(HeaderFor(cfg, key, seqNum, flags), payload)
  }

  predicate Unrouted(flags: bv8) { !Has(flags, FLAG_HDR_ROUTE) }

  lemma {:induction false} SessionFlags() ensures Unrouted(FLAG_SYN) && Unrouted(FLAG_FIN) && Unrouted(FLAG_DATA) {}

  lemma {:induction false} RouteFlag(flags: bv8) ensures Has(flags | FLAG_HDR_ROUTE, FLAG_HDR_ROUTE) {}

  lemma {:induction false} FrameSize(cfg: Config, key: Key, seqNum: u32, flags: bv8, payload: Payload)
    requires Unrouted(flags)
    ensures |SegmentFrame(cfg, key, seqNum, flags, payload)|
         == (if cfg.outport != 0 then ROUTED_SIZE else EXTENDED_SIZE) + |payload|
  {
    RouteFlag(flags);
    hide Has, FrameCrc;
  }

  lemma {:induction false} SegmentFlags(flags: bv8, routed: bool)
    requires flags == FLAG_SYN || flags == FLAG_FIN || flags == FLAG_DATA
    ensures var wire := (if routed then flags | FLAG_HDR_ROUTE else flags) | FLAG_HDR_EXT;
            && !Has(wire, FLAG_HELLO) && !Has(wire, FLAG_HEARTBEAT) && !Has(wire, FLAG_ACK) && Has(wire, FLAG_HDR_EXT)
            && (Has(wire, FLAG_SYN) <==> flags == FLAG_SYN) && (Has(wire, FLAG_FIN) <==> flags == FLAG_FIN)
            && (Has(wire, FLAG_DATA) <==> flags == FLAG_DATA)
  {}

  /** The receiver reads a sent segment as what it was meant to be. */
  lemma {:induction false} SegmentReads(cfg: Config, key: Key, seqNum: u32, flags: bv8, payload: Payload)
    requires flags == FLAG_SYN || flags == FLAG_FIN || flags == FLAG_DATA
    ensures var f := SegmentFrame(cfg, key, seqNum, flags, payload);
            && Intact(f) && IsSession(f)
            && SegOf(f) == Seg(key, seqNum, flags == FLAG_SYN, flags == FLAG_FIN, flags == FLAG_DATA, payload)
  {
    var hdr := HeaderFor(cfg, key, seqNum, flags);
    var f := Frame(hdr, payload);
    SegmentFlags(flags, cfg.outport != 0);
    FrameIntact(hdr, payload);
    FrameTail(hdr, payload);
    PeekFrame(hdr, payload, []);
    assert f + [] == f;
    hide Frame, Has, CrcOk, FrameCrc, Peek;
    assert HdrOf(f) == Segment.Sent(hdr, payload);
  }

  lemma {:induction false} WireFlags(flags: bv8)
    requires flags == 0x01 || flags == 0x02 || flags == 0x04
    ensures Unrouted(flags) && flags | FLAG_HDR_ROUTE == flags | 0x40
    ensures Has(flags | FLAG_HDR_ROUTE, FLAG_HDR_ROUTE) && Has(flags | 0x40 | 0x80, 0x40) && !Has(flags | 0x80, 0x40)
  {}

  /** The segment names the configured outport, and has the route flag exactly if there
      is one. Its flags on the wire are its kind, 1, 2 or 4, and those of its header. */
  lemma {:induction false} SegmentRoutes(cfg: Config, key: Key, seqNum: u32, flags: bv8, payload: Payload)
    requires flags == 0x01 || flags == 0x02 || flags == 0x04
    ensures var f := SegmentFrame(cfg, key, seqNum, flags, payload);
            && WellFormed(f) && HdrOf(f).outport == cfg.outport && HdrOf(f).ingress == key.ingress
            && HdrOf(f).flags == flags | 0x80 | (if cfg.outport != 0 then 0x40 else 0)
            && |f| == (if cfg.outport != 0 then 24 else 20) + |payload|
  {
    var hdr := HeaderFor(cfg, key, seqNum, flags);
    WireFlags(flags);
    FrameSize(cfg, key, seqNum, flags, payload);
    FrameIntact(hdr, payload);
    PeekFrame(hdr, payload, []);
    assert Frame(hdr, payload) + [] == Frame(hdr, payload);
    assert flags | 0x40 | 0x80 == flags | 0x80 | 0x40 && flags | 0x80 | 0 == flags | 0x80;
    hide Frame, Has, CrcOk, FrameCrc, Peek;
  }

  lemma {:induction false} FrameTail(hdr: Header, payload: Payload)
    ensures Intact(Frame(hdr, payload)) && PayloadOf(Frame(hdr, payload)) == payload
  {
    FrameIntact(hdr, payload);
    hide Head, RegBytes, FrameCrc, Intact, HdrOf, WidthOf;
    assert Frame(hdr, payload)[|Frame(hdr, payload)| - |payload|..] == payload;
    PeekFrame(hdr, payload, []);
    assert Frame(hdr, payload) + [] == Frame(hdr, payload);
  }

  function FinFrame(cfg: Config, event: Event): seq<seq<u8>> {
    match event
    case FinSent(key, n) => [SegmentFrame(cfg, key, n, FLAG_FIN, [])]
    case Called(_, _) => []
  }

  /** The FINs of handlers that closed their session, if any link could carry them. */
  function FinFrames(cfg: Config, live: seq<LinkInfo>, events: seq<Event>): seq<seq<u8>> {
    if events == [] || !HasLive(live) then []
    else FinFrame(cfg, events[0]) + FinFrames(cfg, live, events[1..])
  }

  lemma {:induction false} FinAppend(cfg: Config, live: seq<LinkInfo>, a: seq<Event>, b: seq<Event>)
    ensures FinFrames(cfg, live, a + b) == FinFrames(cfg, live, a) + FinFrames(cfg, live, b)
  {
    if a == [] {
      assert a + b == b;
    } else {
      assert (a + b)[0] == a[0] && (a + b)[1..] == a[1..] + b;
      hide HasLive, FinFrame;
      FinAppend(cfg, live, a[1..], b);
      Assoc(FinFrame(cfg, a[0]), FinFrames(cfg, live, a[1..]), FinFrames(cfg, live, b));
    }
  }

  /** Each FIN that a handler causes is read as a close of its session with its number. */
  lemma {:induction false} FinReads(cfg: Config, key: Key, n: u32)
    ensures var fins := FinFrame(cfg, FinSent(key, n));
            && |fins| == 1 && Intact(fins[0]) && IsSession(fins[0]) && HdrOf(fins[0]).outport == cfg.outport
            && SegOf(fins[0]) == Seg(key, n, false, true, false, [])
  {
    SegmentReads(cfg, key, n, FLAG_FIN, []);
    SegmentRoutes(cfg, key, n, FLAG_FIN, []);
    hide SegmentFrame, SegOf;
  }

  // ---- Feedback ----

  function LiveIds(live: seq<LinkInfo>): seq<u32> {
    if live == [] then [] else (if live[0].live then [live[0].id] else []) + LiveIds(live[1..])
  }

  /** Feedback is hop-local, so its header is never routed. */
  function FeedbackHeader(cfg: Config): Header { Header(FLAG_ACK, 0, 0, 0, cfg.local, 0, 0) }

  function FeedbackFrame(cfg: Config, payload: Payload): seq<u8> { Frame(FeedbackHeader(cfg), payload) }

  /** The links that feedback goes to are the live ones. */
  lemma {:induction false} LiveIdsAre(live: seq<LinkInfo>)
    ensures forall id: u32 :: id in LiveIds(live) <==> exists l :: l in live && l.live && l.id == id
  {
    if live != [] {
      LiveIdsAre(live[1..]);
      forall id: u32 ensures id in LiveIds(live) <==> exists l :: l in live && l.live && l.id == id {
        if l :| l in live && l.live && l.id == id {
          assert l == live[0] || l in live[1..];
        }
        if id in LiveIds(live) {
          if id in LiveIds(live[1..]) {
            var l :| l in live[1..] && l.live && l.id == id;
            assert l in live;
          } else {
            assert live[0] in live;
          }
        }
      }
    }
  }

  lemma {:induction false} AckWire()
    ensures FLAG_ACK | FLAG_HDR_EXT == 0x88 && FLAG_ACK & 0x40 == 0
    ensures !Has(0x88, FLAG_HELLO) && !Has(0x88, FLAG_HEARTBEAT) && Has(0x88, FLAG_ACK)
  {}

  /** The peer reads a feedback frame as feedback with this payload, also if it checks
      checksums; a transit does not forward it. */
  lemma {:induction false} FeedbackReads(cfg: Config, payload: Payload, peer: Config, c: Core, link: Link)
    ensures var f := FeedbackFrame(cfg, payload);
            && Intact(f) && HdrOf(f).flags == 0x88 && PayloadOf(f) == payload && !IsSession(f)
            && OnFrame(peer, c, link, f) == (OnAck(peer, c, payload), [])
  {
    var hdr, f := FeedbackHeader(cfg), FeedbackFrame(cfg, payload);
    AckWire();
    FrameTail(hdr, payload);
    PeekFrame(hdr, payload, []);
    assert f + [] == f;
    hide Frame, Has, CrcOk, FrameCrc, Peek, OnAck;
    assert HdrOf(f) == Segment.Sent(hdr, payload);
  }

  lemma {:induction false} FeedbackSize(cfg: Config, payload: Payload)
    ensures |FeedbackFrame(cfg, payload)| == EXTENDED_SIZE + |payload|
  {
    AckFlag();
    hide Has, FrameCrc;
  }

  lemma {:induction false} AckFlag() ensures !Has(FLAG_ACK, FLAG_HDR_ROUTE) {}

  // ---- Chunks ----

  function Chunks(data: seq<u8>, size: nat): seq<Payload>
    requires 0 < size <= MAX_PAYLOAD
  {
    if data == [] then []
    else if |data| <= size then [data]
    else [data[..size]] + Chunks(data[size..], size)
  }

  /** The chunks are the data, cut into pieces that are neither empty nor too long. */
  lemma {:induction false} ChunksAreData(data: seq<u8>, size: nat)
    requires 0 < size <= MAX_PAYLOAD
    ensures Flat(Chunks(data, size)) == data
    ensures forall c | c in Chunks(data, size) :: 0 < |c| <= size
    decreases |data|
  {
    if |data| > size {
      ChunksAreData(data[size..], size);
      FlatCons(data[..size], Chunks(data[size..], size));
      assert data == data[..size] + data[size..];
    } else if data != [] {
      FlatCons(data, []);
      assert [data] + [] == [data];
    }
  }

  /** All chunks but the last are of the segment size: as few as there can be. */
  lemma {:induction false} ChunksAreFull(data: seq<u8>, size: nat)
    requires 0 < size <= MAX_PAYLOAD
    ensures forall i | 0 <= i < |Chunks(data, size)| - 1 :: |Chunks(data, size)[i]| == size
    ensures size * |Chunks(data, size)| < |data| + size
    decreases |data|
  {
    if |data| > size {
      ChunksAreFull(data[size..], size);
      assert |Chunks(data, size)| == 1 + |Chunks(data[size..], size)|;
      assert size * (1 + |Chunks(data[size..], size)|) == size + size * |Chunks(data[size..], size)|;
    }
  }

  // ---- One call of sendSessionData ----

  datatype Piece = Piece(seqNum: u32, payload: Payload)

  /** The segments that go out, how many numbers the call uses, and whether all
      chunks went out. */
  datatype Burst = Burst(pieces: seq<Piece>, used: nat, complete: bool)

  function AfterPieces(done: seq<Piece>, used: nat, b: Burst): Burst {
    Burst(done + b.pieces, used + b.used, b.complete)
  }

  /** The live links that the i-th segment of a call finds; none beyond the list. */
  function PoolAt(pools: seq<seq<LinkInfo>>, i: nat): seq<LinkInfo> { if i < |pools| then pools[i] else [] }

  /** Every segment takes a number, also the one that finds no live link. */
  function SendChunks(pools: seq<seq<LinkInfo>>, i: nat, next: u32, chunks: seq<Payload>): Burst
    decreases |chunks|
  {
    if chunks == [] then Burst([], 0, true)
    else if !HasLive(PoolAt(pools, i)) then Burst([], 1, false)
    else AfterPieces([Piece(next, chunks[0])], 1, SendChunks(pools, i + 1, Succ32(next), chunks[1..]))
  }

  function PieceFrames(cfg: Config, key: Key, pieces: seq<Piece>): seq<seq<u8>>
  {
    if pieces == [] then []
    else
      var n := |pieces| - 1;
      PieceFrames(cfg, key, pieces[..n]) + [SegmentFrame(cfg, key, pieces[n].seqNum, FLAG_DATA, pieces[n].payload)]
  }

  /** f is read as data segment p of the session, and names the configured outport. */
  predicate ReadAs(cfg: Config, key: Key, f: seq<u8>, p: Piece) {
    && Intact(f) && IsSession(f) && HdrOf(f).outport == cfg.outport
    && SegOf(f) == Seg(key, p.seqNum, false, false, true, p.payload)
  }

  lemma {:induction false} PieceReads(cfg: Config, key: Key, p: Piece)
    ensures ReadAs(cfg, key, SegmentFrame(cfg, key, p.seqNum, FLAG_DATA, p.payload), p)
  {
    SegmentReads(cfg, key, p.seqNum, FLAG_DATA, p.payload);
    SegmentRoutes(cfg, key, p.seqNum, FLAG_DATA, p.payload);
    hide SegmentFrame, SegOf, Intact, IsSession;
  }

  /** Each frame is read as the piece at its place. */
  ghost predicate AllReadAs(cfg: Config, key: Key, frames: seq<seq<u8>>, pieces: seq<Piece>) {
    |frames| == |pieces| && forall i | 0 <= i < |pieces| :: ReadAs(cfg, key, frames[i], pieces[i])
  }

  lemma {:induction false} OneMoreRead(cfg: Config, key: Key, frames: seq<seq<u8>>, pieces: seq<Piece>, f: seq<u8>,
                                       p: Piece)
    requires AllReadAs(cfg, key, frames, pieces) && ReadAs(cfg, key, f, p)
    ensures AllReadAs(cfg, key, frames + [f], pieces + [p])
  {
    hide ReadAs;
  }

  /** The frames of a call are read as its pieces, in order, as data segments of the
      session with the numbers and payloads of the pieces. */
  lemma {:induction false} PiecesRead(cfg: Config, key: Key, pieces: seq<Piece>)
    ensures AllReadAs(cfg, key, PieceFrames(cfg, key, pieces), pieces)
  {
    if pieces != [] {
      hide *;
      var init, last := pieces[..|pieces| - 1], pieces[|pieces| - 1];
      assert pieces == init + [last];
      PiecesRead(cfg, key, init);
      PieceReads(cfg, key, last);
      PieceSnoc(cfg, key, init, last);
      OneMoreRead(cfg, key, PieceFrames(cfg, key, init), init,
                  SegmentFrame(cfg, key, last.seqNum, FLAG_DATA, last.payload), last);
    }
  }

  lemma {:induction false} PieceSnoc(cfg: Config, key: Key, done: seq<Piece>, p: Piece)
    ensures PieceFrames(cfg, key, done + [p])
         == PieceFrames(cfg, key, done) + [SegmentFrame(cfg, key, p.seqNum, FLAG_DATA, p.payload)]
  {
    assert (done + [p])[..|done|] == done;
  }

  function Number(next: u32, k: nat): u32 { (next + k) % TWO32 }

  /** The sent pieces are the first chunks, in order, numbered one after the other;
      an incomplete call has used one number more than it sent. */
  lemma {:induction false} SentPieces(pools: seq<seq<LinkInfo>>, i: nat, next: u32, chunks: seq<Payload>)
    ensures var b := SendChunks(pools, i, next, chunks);
            && |b.pieces| <= |chunks| && b.used == |b.pieces| + (if b.complete then 0 else 1)
            && (b.complete <==> |b.pieces| == |chunks|)
            && (!b.complete ==> !HasLive(PoolAt(pools, i + |b.pieces|)))
            && forall k | 0 <= k < |b.pieces| :: b.pieces[k] == Piece(Number(next, k), chunks[k])
    decreases |chunks|
  {
    if chunks != [] && HasLive(PoolAt(pools, i)) {
      SentPieces(pools, i + 1, Succ32(next), chunks[1..]);
      hide HasLive;
      var b, c := SendChunks(pools, i, next, chunks), SendChunks(pools, i + 1, Succ32(next), chunks[1..]);
      assert i + |b.pieces| == i + 1 + |c.pieces|;
      hide SendChunks;
      forall k | 0 <= k < |b.pieces| ensures b.pieces[k] == Piece(Number(next, k), chunks[k]) {
        if k > 0 {
          assert b.pieces[k] == c.pieces[k - 1];
          SuccAdd(next, k - 1);
        }
      }
    }
  }

  lemma {:induction false} SuccAdd(n: u32, k: nat)
    ensures Number(Succ32(n), k) == Number(n, k + 1)
  {}

  /** One call of sendSessionData: nothing at all for a session that is not there. */
  function DataBurst(cfg: Config, c: Core, key: Key, pools: seq<seq<LinkInfo>>, data: seq<u8>): Burst
    requires ValidConfig(cfg)
  {
    if key in c.sessions then SendChunks(pools, 0, c.sessions[key].nextSend, Chunks(data, cfg.segment))
    else Burst([], 0, false)
  }

  /** The segment at this place of the data: a full one, or what is left. */
  function NextChunk(data: seq<u8>, written: nat, size: nat): (chunk: Payload)
    requires written < |data| && 0 < size <= MAX_PAYLOAD
    ensures |chunk| == if |data| - written > size then size else |data| - written
  {
    data[written..written + if |data| - written > size then size else |data| - written]
  }

  /** So far the call has used i numbers, for the pieces done, and sent those frames;
      the data from written on is still to come. */
  ghost predicate Underway(cfg: Config, c: Core, key: Key, pools: seq<seq<LinkInfo>>, data: seq<u8>, i: nat,
                           written: nat,
                           done: seq<Piece>, frames: seq<seq<u8>>)
    requires ValidConfig(cfg)
  {
    && written <= |data| && key in c.sessions
    && DataBurst(cfg, c, key, pools, data)
       == AfterPieces(done, i,
                      SendChunks(pools, i, Number(c.sessions[key].nextSend, i), Chunks(data[written..], cfg.segment)))
    && frames == PieceFrames(cfg, key, done)
  }

  lemma {:induction false} SendBegin(cfg: Config, c: Core, key: Key, pools: seq<seq<LinkInfo>>, data: seq<u8>)
    requires ValidConfig(cfg) && key in c.sessions
    ensures Underway(cfg, c, key, pools, data, 0, 0, [], []) && Use(c, key, 0) == c && FramesOf([]) == []
  {
    UseNone(c, key);
    assert data[0..] == data;
    assert Number(c.sessions[key].nextSend, 0) == c.sessions[key].nextSend;
  }

  lemma {:induction false} SendSplit(pools: seq<seq<LinkInfo>>, i: nat, next: u32, rest: seq<u8>, chunk: nat,
                                     size: nat, done: seq<Piece>)
    requires rest != [] && 0 < size <= MAX_PAYLOAD && chunk == if |rest| > size then size else |rest|
    ensures AfterPieces(done, i, SendChunks(pools, i, next, Chunks(rest, size)))
            == if !HasLive(PoolAt(pools, i)) then Burst(done, i + 1, false)
               else AfterPieces(done + [Piece(next, rest[..chunk])], i + 1,
                                SendChunks(pools, i + 1, Succ32(next), Chunks(rest[chunk..], size)))
  {
    var cs := Chunks(rest, size);
    assert cs[0] == rest[..chunk] && cs[1..] == Chunks(rest[chunk..], size);
    assert done + [] == done;
    var later := SendChunks(pools, i + 1, Succ32(next), cs[1..]);
    assert done + ([Piece(next, cs[0])] + later.pieces) == done + [Piece(next, cs[0])] + later.pieces;
  }

  lemma {:induction false} NextChunkIs(data: seq<u8>, written: nat, size: nat)
    requires written < |data| && 0 < size <= MAX_PAYLOAD
    ensures var n := |NextChunk(data, written, size)|;
            && n <= |data| - written && data[written..][..n] == NextChunk(data, written, size)
            && data[written..][n..] == data[written + n..]
  {
    SliceOfTail(data, written, |NextChunk(data, written, size)|);
  }

  /** One round: the next chunk goes out, or the call ends with one number used for nothing. */
  lemma {:induction false} SendRound(cfg: Config, c: Core, key: Key, pools: seq<seq<LinkInfo>>, data: seq<u8>,
                                     i: nat, written: nat,
                  done: seq<Piece>, frames: seq<seq<u8>>)
    requires ValidConfig(cfg) && Underway(cfg, c, key, pools, data, i, written, done, frames) && written < |data|
    ensures key in c.sessions
    ensures var n, payload := Number(c.sessions[key].nextSend, i), NextChunk(data, written, cfg.segment);
            if HasLive(PoolAt(pools, i)) then
              Underway(cfg, c, key, pools, data, i + 1, written + |payload|, done + [Piece(n, payload)],
                       frames + [SegmentFrame(cfg, key, n, FLAG_DATA, payload)])
            else
              DataBurst(cfg, c, key, pools, data) == Burst(done, i + 1, false) && frames == PieceFrames(cfg, key, done)
  {
    var next, payload := Number(c.sessions[key].nextSend, i), NextChunk(data, written, cfg.segment);
    hide SendChunks, Chunks, DataBurst, HasLive, PoolAt, SegmentFrame, Number, Use, Succ32, PieceFrames, AfterPieces;
    hide NextChunk;
    NextChunkIs(data, written, cfg.segment);
    SendSplit(pools, i, next, data[written..], |payload|, cfg.segment, done);
    PieceSnoc(cfg, key, done, Piece(next, payload));
    UseOneMore(c, key, i);
  }

  /** What the round needs of the session's number, and what is left if no link is live. */
  lemma {:induction false} SendStep(cfg: Config, c: Core, key: Key, pools: seq<seq<LinkInfo>>, data: seq<u8>, i: nat,
                                    written: nat,
                                    done: seq<Piece>, frames: seq<seq<u8>>, i': nat)
    requires ValidConfig(cfg) && Underway(cfg, c, key, pools, data, i, written, done, frames) && written < |data|
            && i' == i + 1
    ensures key in Use(c, key, i).sessions && key in Use(c, key, i').sessions
            && Use(Use(c, key, i), key, 1) == Use(c, key, i')
    ensures !HasLive(PoolAt(pools, i)) ==>
              DataBurst(cfg, c, key, pools, data) == Burst(done, i', false) && frames == PieceFrames(cfg, key, done)
  {
    hide *;
    SendRound(cfg, c, key, pools, data, i, written, done, frames);
    UseOneMore(c, key, i);
  }

  lemma {:induction false} SendCommit(cfg: Config, c: Core, key: Key, pools: seq<seq<LinkInfo>>, data: seq<u8>,
                                      i: nat, written: nat,
                                      done: seq<Piece>, sent: seq<Transmission>, group: seq<Transmission>,
                                      piece: Piece, i': nat, written': nat)
    requires ValidConfig(cfg) && Underway(cfg, c, key, pools, data, i, written, done, FramesOf(sent))
            && written < |data|
    requires HasLive(PoolAt(pools, i)) && key in Use(c, key, i).sessions
    requires piece == Piece(Use(c, key, i).sessions[key].nextSend, NextChunk(data, written, cfg.segment))
    requires FramesOf(group) == [SegmentFrame(cfg, key, piece.seqNum, FLAG_DATA, piece.payload)]
    requires i' == i + 1 && written' == written + |piece.payload|
    ensures Underway(cfg, c, key, pools, data, i', written', done + [piece], FramesOf(sent + group))
  {
    hide *;
    SendRound(cfg, c, key, pools, data, i, written, done, FramesOf(sent));
    UseOneMore(c, key, i);
    FramesAppend(sent, group);
  }

  lemma {:induction false} SendEnd(cfg: Config, c: Core, key: Key, pools: seq<seq<LinkInfo>>, data: seq<u8>, i: nat,
                                   done: seq<Piece>, frames: seq<seq<u8>>)
    requires ValidConfig(cfg) && Underway(cfg, c, key, pools, data, i, |data|, done, frames)
    ensures DataBurst(cfg, c, key, pools, data) == Burst(done, i, true) && frames == PieceFrames(cfg, key, done)
  {
    assert data[|data|..] == [] && done + [] == done;
  }

  lemma {:induction false} UseOneMore(c: Core, key: Key, n: nat)
    requires key in c.sessions
    ensures Use(Use(c, key, n), key, 1) == Use(c, key, n + 1)
    ensures key in Use(c, key, n + 1).sessions
    ensures key in Use(c, key, n).sessions
            && Use(c, key, n).sessions[key].nextSend == Number(c.sessions[key].nextSend, n)
    ensures Succ32(Number(c.sessions[key].nextSend, n)) == Number(c.sessions[key].nextSend, n + 1)
  {
    var s := Use(c, key, n).sessions[key];
    assert Succ32(s.nextSend) == Number(c.sessions[key].nextSend, n + 1);
  }

  lemma {:induction false} UseNone(c: Core, key: Key)
    ensures Use(c, key, 0) == c
  {
    if key in c.sessions {
      assert c.sessions[key := c.sessions[key]] == c.sessions;
    }
  }

  // ---- One in-order run of callbacks ----

  /** What a call amounts to that comes after these events. */
  function Then(events: seq<Event>, r: (Core, seq<Event>)): (Core, seq<Event>) { (r.0, events + r.1) }

  lemma {:induction false} CallNext(cfg: Config, c: Core, key: Key, blocks: seq<seq<u8>>, before: seq<u8>,
                                    events: seq<Event>)
    requires blocks != []
    ensures Then(events, CallData(cfg, c, key, blocks, before))
            == if blocks[0] == [] then Then(events, CallData(cfg, c, key, blocks[1..], before))
               else var (d, e) := Call(cfg, c, key, OnData(blocks[0]), before);
                    Then(events + e, CallData(cfg, d, key, blocks[1..], before + blocks[0]))
  {
    if blocks[0] != [] {
      var (d, e) := Call(cfg, c, key, OnData(blocks[0]), before);
      var later := CallData(cfg, d, key, blocks[1..], before + blocks[0]).1;
      assert events + (e + later) == events + e + later;
    }
  }
}
