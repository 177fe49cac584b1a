/** A link that loses nothing: everything that one stream sends on a session is what
    the other stream's handler is told, directly and through a transit. */
module CleanLink {
  import opened Words
  import opened Segment
  import opened Framing
  import opened Race
  import opened Reassembly
  import opened StreamSpec
  import opened Runs
  import opened Sending
  import opened Isolation
  import Selector

  /** The session is open with a handler, has taken the numbers below n and nothing else. */
  ghost predicate Hearing(c: Core, key: Key, n: nat) {
    && key in c.sessions && c.sessions[key].handler && c.sessions[key].buffer == map[]
    && c.sessions[key].expected == n
    && forall k | k in c.memory.seen && k.key == key :: k.kind == SynKind || (k.kind == DataKind && k.seqNum < n)
  }

  /** Nothing of the session is there or remembered. */
  ghost predicate Unheard(c: Core, key: Key) {
    key !in c.sessions && forall k | k in c.memory.seen :: k.key != key
  }

  ghost predicate Inert(cfg: Config, key: Key) { forall callback, before :: !cfg.reacts(key, callback, before) }

  lemma {:induction false} HearsSyn(cfg: Config, c: Core, link: Link, key: Key)
    requires Unheard(c, key) && cfg.hasHandler(key) && Inert(cfg, key)
    ensures var (d, e) := Receive(cfg, c, link, Seg(key, 0, true, false, false, []));
            e == [Called(key, OnOpen)] && Hearing(d, key, 0)
  {
    var seg := Seg(key, 0, true, false, false, []);
    RememberOne(c.memory, DedupOf(seg), cfg.forgets);
    hide Won, Remember;
  }

  lemma {:induction false} HearsData(cfg: Config, c: Core, link: Link, key: Key, n: u32, payload: seq<u8>)
    requires ValidConfig(cfg) && Hearing(c, key, n) && Inert(cfg, key) && n < MAX32 && payload != []
    ensures var (d, e) := Receive(cfg, c, link, Seg(key, n, false, false, true, payload));
            e == [Called(key, OnData(payload))] && Hearing(d, key, n + 1)
  {
    var seg := Seg(key, n, false, false, true, payload);
    var c' := Noted(cfg, c, link, seg);
    RememberOne(c.memory, DedupOf(seg), cfg.forgets);
    var s := c.sessions[key];
    TakeNext(cfg.window, s, payload);
    var t := Insert(s, n, payload);
    OneBlock(t, payload);
    assert Ensure(cfg, c', key) == c';
    var d := c'.(sessions := c'.sessions[key := Deliver(t)]);
    OneCall(cfg, d, key, payload, s.delivered);
    assert Receive(cfg, c, link, seg) == OnPayload(cfg, c', seg);
    hide Won, Remember, CallData, Blocks, Receive;
  }

  lemma {:induction false} OneBlock(s: Session, payload: seq<u8>)
    requires s.buffer == map[s.expected := payload]
    ensures Blocks(s) == [payload]
  {
    assert Ready(s) && Advance(s).buffer == map[];
    DrainEnd(Advance(s));
  }

  lemma {:induction false} OneCall(cfg: Config, c: Core, key: Key, payload: seq<u8>, before: seq<u8>)
    requires Inert(cfg, key) && payload != []
    ensures CallData(cfg, c, key, [payload], before) == (c, [Called(key, OnData(payload))])
  {
    assert [payload][1..] == [];
    var called := [Called(key, OnData(payload))];
    assert Call(cfg, c, key, OnData(payload), before) == (c, called);
    assert CallData(cfg, c, key, [], before + payload) == (c, []) && called + [] == called;
  }

  lemma {:induction false} HearsFin(cfg: Config, c: Core, link: Link, key: Key, n: nat, fin: u32)
    requires Hearing(c, key, n) && Inert(cfg, key)
    ensures var (d, e) := Receive(cfg, c, link, Seg(key, fin, false, true, false, []));
            e == [Called(key, OnClose)] && key !in d.sessions
  {
    hide Won, Remember;
  }

  // ---- Frames ----

  function DataCalls(key: Key, pieces: seq<Piece>): seq<Event> {
    if pieces == [] then []
    else DataCalls(key, pieces[..|pieces| - 1]) + [Called(key, OnData(pieces[|pieces| - 1].payload))]
  }

  /** The pieces of a session from its start: numbered from 0 on, none empty. */
  predicate FromStart(pieces: seq<Piece>) {
    |pieces| < TWO32 && forall i | 0 <= i < |pieces| :: pieces[i].seqNum == i && pieces[i].payload != []
  }

  lemma {:induction false} ReadIs(cfg: Config, key: Key, f: seq<u8>, p: Piece)
    requires ReadAs(cfg, key, f, p)
    ensures WellFormed(f) && Intact(f) && IsSession(f)
    ensures SegOf(f) == Seg(key, p.seqNum, false, false, true, p.payload) && HdrOf(f).outport == cfg.outport
  {}

  lemma {:induction false} WellFormedSnoc(frames: seq<seq<u8>>, f: seq<u8>)
    requires AllWellFormed(frames) && WellFormed(f)
    ensures AllWellFormed(frames + [f])
  {
    hide WellFormed;
  }

  /** These frames lead the receiver from c to d, with these events. */
  ghost predicate Told(cfg: Config, c: Core, link: Link, frames: seq<seq<u8>>, d: Core, events: seq<Event>) {
    AllWellFormed(frames) && OnFrames(cfg, c, link, frames) == (d, events)
  }

  lemma {:induction false} ToldNothing(cfg: Config, c: Core, link: Link)
    ensures Told(cfg, c, link, [], c, [])
  {}

  lemma {:induction false} ToldMore(cfg: Config, c: Core, link: Link, frames: seq<seq<u8>>, d: Core, events: seq<Event>,
                                    f: seq<u8>, seg: Seg, d': Core, e: seq<Event>)
    requires Told(cfg, c, link, frames, d, events) && Intact(f) && IsSession(f) && SegOf(f) == seg
    requires Receive(cfg, d, link, seg) == (d', e)
    ensures Told(cfg, c, link, frames + [f], d', events + e)
  {
    hide Receive, OnFrame, OnFrames, SegOf, IsSession;
    WellFormedSnoc(frames, f);
    OnFramesSnoc(cfg, c, link, frames, f);
    SessionFrameReceived(cfg, d, link, f);
  }

  lemma {:induction false} OnFramesAppend(cfg: Config, c: Core, link: Link, a: seq<seq<u8>>, b: seq<seq<u8>>)
    requires AllWellFormed(a) && AllWellFormed(b)
    ensures AllWellFormed(a + b)
    ensures var (d, e) := OnFrames(cfg, c, link, a);
            var (d', e') := OnFrames(cfg, d, link, b);
            OnFrames(cfg, c, link, a + b) == (d', e + e')
    decreases |b|
  {
    if b == [] {
      assert a + b == a && OnFrames(cfg, c, link, a).1 + [] == OnFrames(cfg, c, link, a).1;
    } else {
      var init, last := b[..|b| - 1], b[|b| - 1];
      var (d, e) := OnFrames(cfg, c, link, a);
      var (d', e') := OnFrames(cfg, d, link, init);
      OnFramesAppend(cfg, c, link, a, init);
      assert b == init + [last] && a + b == (a + init) + [last];
      hide *;
      OnFramesSnoc(cfg, c, link, a + init, last);
      OnFramesSnoc(cfg, d, link, init, last);
      Assoc(e, e', OnFrame(cfg, d', link, last).1);
    }
  }

  lemma {:induction false} HearsPieces(near: Config, far: Config, c: Core, link: Link, key: Key, pieces: seq<Piece>)
      returns (d: Core)
    requires ValidConfig(far) && Hearing(c, key, 0) && Inert(far, key) && FromStart(pieces)
    ensures Told(far, c, link, PieceFrames(near, key, pieces), d, DataCalls(key, pieces))
    ensures Hearing(d, key, |pieces|)
  {
    if pieces == [] {
      d := c;
      ToldNothing(far, c, link);
      hide Hearing, Told;
    } else {
      var init, last := pieces[..|pieces| - 1], pieces[|pieces| - 1];
      assert pieces == init + [last] && last.seqNum == |init| < MAX32 && last.payload != [] && FromStart(init);
      hide *;
      var m := HearsPieces(near, far, c, link, key, init);
      var frame := SegmentFrame(near, key, last.seqNum, FLAG_DATA, last.payload);
      var seg := Seg(key, last.seqNum, false, false, true, last.payload);
      PieceSnoc(near, key, init, last);
      PieceReads(near, key, last);
      ReadIs(near, key, frame, last);
      HearsData(far, m, link, key, |init|, last.payload);
      d := Receive(far, m, link, seg).0;
      ToldMore(far, c, link, PieceFrames(near, key, init), m, DataCalls(key, init), frame, seg, d,
               [Called(key, OnData(last.payload))]);
      CallsSnoc(key, init, last);
    }
  }

  lemma {:induction false} CallsSnoc(key: Key, init: seq<Piece>, last: Piece)
    ensures DataCalls(key, init + [last]) == DataCalls(key, init) + [Called(key, OnData(last.payload))]
  {
    assert (init + [last])[..|init|] == init;
  }

  // ---- A whole transfer ----

  /** What a session's life puts on the wire: the open, the frames of a call, the close. */
  function Transfer(cfg: Config, key: Key, pieces: seq<Piece>, fin: u32): seq<seq<u8>> {
    [SegmentFrame(cfg, key, 0, FLAG_SYN, [])] + PieceFrames(cfg, key, pieces)
    + [SegmentFrame(cfg, key, fin, FLAG_FIN, [])]
  }

  lemma {:induction false} ToldAppend(cfg: Config, c: Core, link: Link, a: seq<seq<u8>>, d: Core, e: seq<Event>,
                                      b: seq<seq<u8>>, d': Core, e': seq<Event>)
    requires Told(cfg, c, link, a, d, e) && Told(cfg, d, link, b, d', e')
    ensures Told(cfg, c, link, a + b, d', e + e')
  {
    hide OnFrames;
    OnFramesAppend(cfg, c, link, a, b);
  }

  lemma {:induction false} ControlReads(cfg: Config, key: Key, n: u32)
    ensures var f := SegmentFrame(cfg, key, n, FLAG_SYN, []);
            Intact(f) && IsSession(f) && SegOf(f) == Seg(key, n, true, false, false, [])
    ensures var f := SegmentFrame(cfg, key, n, FLAG_FIN, []);
            Intact(f) && IsSession(f) && SegOf(f) == Seg(key, n, false, true, false, [])
  {
    SegmentReads(cfg, key, n, FLAG_SYN, []);
    SegmentReads(cfg, key, n, FLAG_FIN, []);
    hide SegmentFrame, SegOf, Intact, IsSession;
  }

  lemma {:induction false} OpenHeard(near: Config, far: Config, c: Core, link: Link, key: Key) returns (d: Core)
    requires Unheard(c, key) && far.hasHandler(key) && Inert(far, key)
    ensures Told(far, c, link, [SegmentFrame(near, key, 0, FLAG_SYN, [])], d, [Called(key, OnOpen)])
    ensures Hearing(d, key, 0)
  {
    hide *;
    var syn, seg := SegmentFrame(near, key, 0, FLAG_SYN, []), Seg(key, 0, true, false, false, []);
    ControlReads(near, key, 0);
    ToldNothing(far, c, link);
    HearsSyn(far, c, link, key);
    d := Receive(far, c, link, seg).0;
    ToldMore(far, c, link, [], c, [], syn, seg, d, [Called(key, OnOpen)]);
    assert [] + [syn] == [syn] && [] + [Called(key, OnOpen)] == [Called(key, OnOpen)];
  }

  lemma {:induction false} CloseHeard(near: Config, far: Config, c: Core, link: Link, key: Key, frames: seq<seq<u8>>,
                                      b: Core, events: seq<Event>, n: nat, fin: u32) returns (d: Core)
    requires Told(far, c, link, frames, b, events) && Hearing(b, key, n) && Inert(far, key)
    ensures Told(far, c, link, frames + [SegmentFrame(near, key, fin, FLAG_FIN, [])], d,
                 events + [Called(key, OnClose)])
    ensures key !in d.sessions
  {
    hide *;
    var last, seg := SegmentFrame(near, key, fin, FLAG_FIN, []), Seg(key, fin, false, true, false, []);
    ControlReads(near, key, fin);
    HearsFin(far, b, link, key, n, fin);
    d := Receive(far, b, link, seg).0;
    ToldMore(far, c, link, frames, b, events, last, seg, d, [Called(key, OnClose)]);
  }

  /** Over a link that loses nothing the handler is told of the open, of each piece of the
      data in order, and of the close, and of nothing else. */
  lemma {:induction false} TransferHeard(near: Config, far: Config, c: Core, link: Link, key: Key, pieces: seq<Piece>,
                                         fin: u32) returns (d: Core)
    requires ValidConfig(far) && Unheard(c, key) && far.hasHandler(key) && Inert(far, key) && FromStart(pieces)
    ensures Told(far, c, link, Transfer(near, key, pieces, fin), d,
                 [Called(key, OnOpen)] + DataCalls(key, pieces) + [Called(key, OnClose)])
    ensures key !in d.sessions
  {
    var syn, frames := [SegmentFrame(near, key, 0, FLAG_SYN, [])], PieceFrames(near, key, pieces);
    assert Transfer(near, key, pieces, fin) == syn + frames + [SegmentFrame(near, key, fin, FLAG_FIN, [])];
    hide *;
    var a := OpenHeard(near, far, c, link, key);
    var b := HearsPieces(near, far, a, link, key, pieces);
    ToldAppend(far, c, link, syn, a, [Called(key, OnOpen)], frames, b, DataCalls(key, pieces));
    d := CloseHeard(near, far, c, link, key, syn + frames, b, [Called(key, OnOpen)] + DataCalls(key, pieces),
                    |pieces|, fin);
  }

  // ---- From application to application ----

  /** The numbers and payloads of a complete first call. */
  lemma {:induction false} FirstCall(cfg: Config, c: Core, key: Key, pools: seq<seq<Selector.LinkInfo>>, data: seq<u8>)
    requires ValidConfig(cfg) && key in c.sessions && c.sessions[key].nextSend == 0
    requires var b := DataBurst(cfg, c, key, pools, data); b.complete && b.used < TWO32
    ensures var b := DataBurst(cfg, c, key, pools, data);
            b.used == |b.pieces| && FromStart(b.pieces) && Payloads(b.pieces) == Chunks(data, cfg.segment)
  {
    var chunks := Chunks(data, cfg.segment);
    var b := SendChunks(pools, 0, 0, chunks);
    SentPieces(pools, 0, 0, chunks);
    ChunksAreData(data, cfg.segment);
    assert DataBurst(cfg, c, key, pools, data) == b;
    forall k: nat | k < |b.pieces| ensures Number(0, k) == k {
      FromZero(k);
    }
    hide SendChunks, Chunks, DataBurst, Number;
    forall k | 0 <= k < |b.pieces| ensures b.pieces[k].seqNum == k && b.pieces[k].payload != [] {
      assert b.pieces[k] == Piece(Number(0, k), chunks[k]) && chunks[k] in chunks;
    }
    PayloadsAre(b.pieces, chunks);
  }

  lemma {:induction false} FromZero(k: nat)
    requires k < TWO32
    ensures Number(0, k) == k
  {}

  function Payloads(pieces: seq<Piece>): seq<Payload> {
    if pieces == [] then [] else Payloads(pieces[..|pieces| - 1]) + [pieces[|pieces| - 1].payload]
  }

  lemma {:induction false} PayloadsAre(pieces: seq<Piece>, chunks: seq<Payload>)
    requires |pieces| == |chunks| && forall k | 0 <= k < |pieces| :: pieces[k].payload == chunks[k]
    ensures Payloads(pieces) == chunks
  {
    if pieces != [] {
      PayloadsAre(pieces[..|pieces| - 1], chunks[..|chunks| - 1]);
      assert chunks == chunks[..|chunks| - 1] + [chunks[|chunks| - 1]];
    }
  }

  lemma {:induction false} DataGiven(key: Key, pieces: seq<Piece>)
    ensures Given(DataCalls(key, pieces), key) == Flat(Payloads(pieces))
  {
    if pieces != [] {
      var init, last := pieces[..|pieces| - 1], pieces[|pieces| - 1];
      DataGiven(key, init);
      var call := Called(key, OnData(last.payload));
      GivenAppend(DataCalls(key, init), [call], key);
      assert [call][1..] == [] && Given([call], key) == last.payload + [] == last.payload;
      FlatSnoc(Payloads(init), last.payload);
    }
  }

  /** A whole session over a link that loses nothing. One stream opens it, sends data and
      closes it, with a link live at each segment; and the frames of that, taken from the
      contracts of its methods, are handled by another stream to which the session is
      new. Its handler is then told of the open, given exactly the data, in pieces of the
      segment size, and told of the close; and the session is gone at both ends. */
  lemma {:induction false} SessionArrives(near: Config, s: Core, key: Key, handler: bool,
                                          pools: seq<seq<Selector.LinkInfo>>, live: seq<Selector.LinkInfo>,
                                          data: seq<u8>, far: Config, c: Core, link: Link)
      returns (d: Core, frames: seq<seq<u8>>)
    requires ValidConfig(near) && ValidConfig(far) && key !in s.sessions && Selector.HasLive(live)
    requires var b := DataBurst(near, StreamSpec.Open(s, key, handler), key, pools, data); b.complete && b.used < TWO32
    requires Unheard(c, key) && far.hasHandler(key) && Inert(far, key)
    ensures var a := StreamSpec.Open(s, key, handler);
            var b := DataBurst(near, a, key, pools, data);
            var (z, fin) := StreamSpec.Close(Use(a, key, b.used), key);
            && frames == [SegmentFrame(near, key, 0, FLAG_SYN, [])] + PieceFrames(near, key, b.pieces)
                         + FinFrames(near, live, fin)
            && Told(far, c, link, frames, d, [Called(key, OnOpen)] + DataCalls(key, b.pieces) + [Called(key, OnClose)])
            && Payloads(b.pieces) == Chunks(data, near.segment) && Given(DataCalls(key, b.pieces), key) == data
            && key !in z.sessions && key !in d.sessions
  {
    var a := StreamSpec.Open(s, key, handler);
    var b := DataBurst(near, a, key, pools, data);
    FirstCall(near, a, key, pools, data);
    DataGiven(key, b.pieces);
    ChunksAreData(data, near.segment);
    LastNumber(near, a, key, b.used, live);
    hide *;
    frames := Transfer(near, key, b.pieces, b.used);
    TransferIs(near, key, b.pieces, b.used);
    d := TransferHeard(near, far, c, link, key, b.pieces, b.used);
  }

  lemma {:induction false} TransferIs(cfg: Config, key: Key, pieces: seq<Piece>, fin: u32)
    ensures Transfer(cfg, key, pieces, fin)
            == [SegmentFrame(cfg, key, 0, FLAG_SYN, [])] + PieceFrames(cfg, key, pieces)
               + [SegmentFrame(cfg, key, fin, FLAG_FIN, [])]
  {}

  lemma {:induction false} LastNumber(cfg: Config, c: Core, key: Key, used: nat, live: seq<Selector.LinkInfo>)
    requires key in c.sessions && c.sessions[key].nextSend == 0 && used < TWO32 && Selector.HasLive(live)
    ensures var (z, fin) := StreamSpec.Close(Use(c, key, used), key);
            key !in z.sessions && FinFrames(cfg, live, fin) == [SegmentFrame(cfg, key, used, FLAG_FIN, [])]
  {
    var fin := FinSent(key, used);
    assert StreamSpec.Close(Use(c, key, used), key).1 == [fin] && [fin][1..] == [];
    hide SegmentFrame;
    assert FinFrames(cfg, live, []) == [];
  }
}
