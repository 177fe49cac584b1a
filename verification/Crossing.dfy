/** What one stream sends on a session, on its way through a transit. */
module Crossing {
  import opened Words
  import opened Segment
  import opened Framing
  import opened StreamSpec
  import opened Sending
  import opened CleanLink
  import T = TransitSpec
  import opened TransitRuns

  /** A session frame that names the outport. */
  ghost predicate Names(f: seq<u8>, outport: u32) { Intact(f) && IsSession(f) && HdrOf(f).outport == outport }

  lemma {:induction false} ForAll(frames: seq<seq<u8>>, outport: u32)
    requires forall f | f in frames :: Names(f, outport)
    ensures AllWellFormed(frames) && For(frames, outport) == frames
  {
    if frames != [] {
      var n := |frames| - 1;
      ForAll(frames[..n], outport);
      assert frames[n] in frames && frames == frames[..n] + [frames[n]];
      SessionIff(frames[n]);
      hide IsSession;
    }
  }

  lemma {:induction false} ControlNames(cfg: Config, key: Key, n: u32)
    ensures Names(SegmentFrame(cfg, key, n, FLAG_SYN, []), cfg.outport)
    ensures Names(SegmentFrame(cfg, key, n, FLAG_FIN, []), cfg.outport)
  {
    ControlReads(cfg, key, n);
    SegmentRoutes(cfg, key, n, FLAG_SYN, []);
    SegmentRoutes(cfg, key, n, FLAG_FIN, []);
    hide SegmentFrame, IsSession, Intact;
  }

  lemma {:induction false} PiecesName(cfg: Config, key: Key, pieces: seq<Piece>)
    ensures forall f | f in PieceFrames(cfg, key, pieces) :: Names(f, cfg.outport)
  {
    var frames := PieceFrames(cfg, key, pieces);
    PiecesRead(cfg, key, pieces);
    hide PieceFrames, IsSession, Intact;
    forall f | f in frames ensures Names(f, cfg.outport) {
      var i :| 0 <= i < |frames| && frames[i] == f;
      ReadIs(cfg, key, f, pieces[i]);
    }
  }

  lemma {:induction false} TransferMembers(cfg: Config, key: Key, pieces: seq<Piece>, fin: u32)
    ensures forall f | f in Transfer(cfg, key, pieces, fin) ::
              f == SegmentFrame(cfg, key, 0, FLAG_SYN, []) || f == SegmentFrame(cfg, key, fin, FLAG_FIN, [])
              || f in PieceFrames(cfg, key, pieces)
  {
    hide SegmentFrame, PieceFrames;
  }

  /** Every frame that a session's life puts on the wire names the configured outport. */
  lemma {:induction false} TransferNames(cfg: Config, key: Key, pieces: seq<Piece>, fin: u32)
    ensures forall f | f in Transfer(cfg, key, pieces, fin) :: Names(f, cfg.outport)
    ensures AllWellFormed(Transfer(cfg, key, pieces, fin))
    ensures For(Transfer(cfg, key, pieces, fin), cfg.outport) == Transfer(cfg, key, pieces, fin)
  {
    hide *;
    TransferMembers(cfg, key, pieces, fin);
    ControlNames(cfg, key, 0);
    ControlNames(cfg, key, fin);
    PiecesName(cfg, key, pieces);
    ForAll(Transfer(cfg, key, pieces, fin), cfg.outport);
  }

  lemma {:induction false} WholeFrames(frames: seq<seq<u8>>)
    requires AllWellFormed(frames)
    ensures Parse([]) == Parsed([], [], false) && [] + Flat(frames) == Flat(frames)
    ensures Parse(Flat(frames)) == Parsed(frames, [], false)
  {
    EmptyIsPartial();
    ParseFlat(frames, []);
    assert Flat(frames) + [] == Flat(frames);
  }

  /** So while the transit has a route for that outport, all of it is sent on the link to
      the outport, in order and byte for byte, however its bytes are cut on the way in
      and whatever else comes in meanwhile. */
  lemma {:induction false} TransferCrosses(cfg: Config, key: Key, pieces: seq<Piece>, fin: u32, hello: T.HelloDecoder,
                                           h: T.Hub, events: seq<T.HubEvent>, src: Link, dst: Link)
    requires InPlace(hello, h, events, src, cfg.outport, dst) && src < h.next && h.links[src].buffer == []
    requires Incoming(events, src) == Flat(Transfer(cfg, key, pieces, fin))
    ensures Between(Output(hello, h, events), src, dst) == Transfer(cfg, key, pieces, fin)
  {
    var frames := Transfer(cfg, key, pieces, fin);
    TransferNames(cfg, key, pieces, fin);
    WholeFrames(frames);
    assert src in h.links;
    hide *;
    Transparent(hello, h, events, src, cfg.outport, dst);
  }

  /** And a frame that comes back with the session's ingress id is sent on the link that
      the session's frames came from, whatever happened in between and as long as that
      does not dispute the route. */
  lemma {:induction false} AnswerReturns(near: Config, far: Config, key: Key, n: u32, payload: Payload, m: u32,
                                         answer: Payload, hello: T.HelloDecoder, h: T.Hub, src: Link,
                                         between: seq<T.HubEvent>, back: Link)
    requires src in h.links && h.links[src] == T.Port(false, [])
    requires var d := T.Step(hello, h, T.Bytes(src, SegmentFrame(near, key, n, FLAG_DATA, payload))).0;
             Undisputed(hello, d, between, src, key.ingress)
             && back in Continued(hello, d, between).links
             && Continued(hello, d, between).links[back] == T.Port(true, [])
    ensures var request := SegmentFrame(near, key, n, FLAG_DATA, payload);
            var reply := SegmentFrame(far, key, m, FLAG_DATA, answer);
            var d := Continued(hello, T.Step(hello, h, T.Bytes(src, request)).0, between);
            T.Step(hello, d, T.Bytes(back, reply)).1 == [T.Forwarded(back, src, reply)]
  {
    var request := SegmentFrame(near, key, n, FLAG_DATA, payload);
    var reply := SegmentFrame(far, key, m, FLAG_DATA, answer);
    SegmentReads(near, key, n, FLAG_DATA, payload);
    SegmentReads(far, key, m, FLAG_DATA, answer);
    SegmentRoutes(near, key, n, FLAG_DATA, payload);
    SegmentRoutes(far, key, m, FLAG_DATA, answer);
    SessionIff(request);
    SessionIff(reply);
    hide SegmentFrame, T.Step, Continued, Undisputed, IsSession, Intact, SegOf;
    ReplyReturns(hello, h, src, request, between, back, reply);
  }
}
