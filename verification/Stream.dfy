/** The DataStream as an object: sessions, duplicate memory, race counters and
    reassembly buffers, and the operations that update them in place. */
module Stream {
  import opened Words
  import opened Crc32
  import opened Segment
  import opened Framing
  import opened Reassembly
  import opened Race
  import opened Feedback
  import opened Selector
  import opened StreamSpec
  import opened Sending

  class DataStream {
    const cfg: Config
    const table: Crc32Table
    const selector: LinkSelector
    var scratch: map<Link, seq<u8>>
    var sessions: map<Key, Session>
    var seen: set<DedupKey>
    var ring: seq<DedupKey>
    var peers: map<Link, u32>
    var wins: map<u32, u32>
    var parts: map<u32, u32>
    var emitted: u32
    var applied: u32
    var generation: u32

    ghost function State(): Core
      reads this, selector
    {
      Core(sessions, Memory(seen, ring), peers, Race(wins, parts),
           Feedback.State(emitted, applied, generation, selector.primary))
    }

    ghost predicate Valid() { table.Valid() && ValidConfig(cfg) && cfg.forgets }

    /** An unusable segment size or window is replaced by the default. The selector is the
        manager's, and may have a primary link already. */
    constructor (config: Config, selector: LinkSelector)
      requires config.segment < 0x1_0000 && config.window < 0x1_0000
      ensures Valid() && this.selector == selector && scratch == map[]
      ensures State() == START.(feedback := INITIAL.(primary := selector.primary))
      ensures cfg == config.(segment := if 0 < config.segment <= MAX_PAYLOAD then config.segment else 1200,
                             window := if config.window > 0 then config.window else 1024, forgets := true)
    {
      var segment := if config.segment == 0 || config.segment > MAX_PAYLOAD then 1200 else config.segment;
      var window := if config.window == 0 then 1024 else config.window;
      cfg := config.(segment := segment, window := window, forgets := true);
      this.selector := selector;
      table := new Crc32Table();
      scratch, sessions, seen, ring, peers := map[], map[], {}, [], map[];
      wins, parts, emitted, applied, generation := map[], map[], 0, 0, 0;
    }

    // ---- Sending ----

    method SendSegment(live: seq<LinkInfo>, key: Key, seqNum: u32, flags: bv8, payload: Payload)
        returns (ok: bool, sent: seq<Transmission>)
      requires Valid() && Unrouted(flags)
      modifies selector`probeRotation
      ensures ok == HasLive(live) && |sent| == (if ok then 1 else 0)
      ensures ok ==> sent[0].frame == SegmentFrame(cfg, key, seqNum, flags, payload)
                     && IsChoice(live, selector.mode, selector.primary, old(selector.probeRotation), sent[0].links)
    {
      hide Frame, Choose, IsRanking;
      var hdr := HeaderFor(cfg, key, seqNum, flags);
      var block := new u8[(if cfg.outport != 0 then ROUTED_SIZE else EXTENDED_SIZE) + |payload|];
      FrameSize(cfg, key, seqNum, flags, payload);
      ghost var was := block[..];
      var r := Encode(table, block, hdr, payload);
      assert block[..] == Frame(hdr, payload) by {
        assert Splice(was, 0, Frame(hdr, payload)) == Frame(hdr, payload);
      }
      var ids, ranked := selector.Select(live);
      ChoosesIff(live, ranked, selector.mode, selector.primary, old(selector.probeRotation));
      if ids == [] { return false, []; }
      return true, [Transmission(ids, block[..])];
    }

    function ResolveIngressKey(key: u32): u32 {
      if key == USE_LOCAL then cfg.local else key
    }

    method OpenSession(live: seq<LinkInfo>, session: u32, handler: bool) returns (busy: bool, sent: seq<Transmission>)
      requires Valid()
      modifies this`sessions, selector`probeRotation
      ensures busy == (Key(cfg.local, session) in old(sessions))
      ensures State() == StreamSpec.Open(old(State()), Key(cfg.local, session), handler)
      ensures FramesOf(sent) == if busy || !HasLive(live) then []
                                else [SegmentFrame(cfg, Key(cfg.local, session), 0, FLAG_SYN, [])]
    {
      hide SegmentFrame, IsChoice, Unrouted;
      SessionFlags();
      var key := Key(cfg.local, session);
      if key in sessions { return true, []; }
      sessions := sessions[key := NewSession(handler)];
      var ok;
      ok, sent := SendSegment(live, key, 0, FLAG_SYN, []);
      busy := false;
    }

    method CloseKey(live: seq<LinkInfo>, key: Key) returns (sent: seq<Transmission>)
      requires Valid()
      modifies this`sessions, selector`probeRotation
      ensures State() == StreamSpec.Close(old(State()), key).0
      ensures FramesOf(sent) == FinFrames(cfg, live, StreamSpec.Close(old(State()), key).1)
    {
      hide SegmentFrame, IsChoice, Unrouted;
      SessionFlags();
      sent := [];
      if key in sessions {
        var ok;
        ok, sent := SendSegment(live, key, sessions[key].nextSend, FLAG_FIN, []);
        sessions := sessions - {key};
      }
    }

    method CloseSession(live: seq<LinkInfo>, session: u32, ingressKey: u32) returns (sent: seq<Transmission>)
      requires Valid()
      modifies this`sessions, selector`probeRotation
      ensures var key := Key(if ingressKey == 0xFFFF_FFFF then cfg.local else ingressKey, session);
              && State() == old(State()).(sessions := old(sessions) - {key})
              && FramesOf(sent)
                 == if key in old(sessions) && HasLive(live) then
                      [SegmentFrame(cfg, key, old(sessions)[key].nextSend, FLAG_FIN, [])]
                    else []
    {
      var key := Key(ResolveIngressKey(ingressKey), session);
      ghost var fin := StreamSpec.Close(State(), key).1;
      assert fin != [] ==> fin[1..] == [] && FinFrames(cfg, live, []) == [];
      sent := CloseKey(live, key);
      hide SegmentFrame;
      assert old(sessions) - {key} == old(sessions) || key in old(sessions);
    }

    /** Sends with the session's next number, which is used up in any case. */
    method SendNumbered(live: seq<LinkInfo>, key: Key, payload: Payload) returns (ok: bool, sent: seq<Transmission>)
      requires Valid() && key in sessions
      modifies this`sessions, selector`probeRotation
      ensures ok == HasLive(live) && State() == Use(old(State()), key, 1)
      ensures FramesOf(sent)
              == if ok then [SegmentFrame(cfg, key, old(sessions[key].nextSend), FLAG_DATA, payload)] else []
    {
      hide SegmentFrame, IsChoice, Unrouted, HasLive;
      SessionFlags();
      var seqNum := sessions[key].nextSend;
      sessions := sessions[key := sessions[key].(nextSend := Succ32(seqNum))];
      ok, sent := SendSegment(live, key, seqNum, FLAG_DATA, payload);
    }

    /** All chunks of the data, until one finds no live link. */
    method SendChunks(key: Key, pools: seq<seq<LinkInfo>>, data: seq<u8>) returns (complete: bool,
                      sent: seq<Transmission>)
      requires Valid() && key in sessions
      modifies this`sessions, selector`probeRotation
      ensures var b := DataBurst(cfg, old(State()), key, pools, data);
              && FramesOf(sent) == PieceFrames(cfg, key, b.pieces) && complete == b.complete
              && State() == Use(old(State()), key, b.used)
    {
      ghost var c := State();
      SendBegin(cfg, c, key, pools, data);
      complete, sent := true, [];
      var written, i := 0, 0;
      ghost var done: seq<Piece> := [];
      hide Use, DataBurst, Underway, SegmentFrame, HasLive, PieceFrames, FramesOf, Number, NextChunk;
      while written < |data|
        invariant written <= |data| && key in sessions && State() == Use(c, key, i)
        invariant Underway(cfg, c, key, pools, data, i, written, done, FramesOf(sent))
      {
        var payload := NextChunk(data, written, cfg.segment);
        var i', written' := i + 1, written + |payload|;
        ghost var piece := Piece(sessions[key].nextSend, payload);
        SendStep(cfg, c, key, pools, data, i, written, done, FramesOf(sent), i');
        var group;
        complete, group := SendNumbered(PoolAt(pools, i), key, payload);
        if !complete {
          i := i';
          break;
        }
        SendCommit(cfg, c, key, pools, data, i, written, done, sent, group, piece, i', written');
        i, written, sent, done := i', written', sent + group, done + [piece];
      }
      if complete {
        SendEnd(cfg, c, key, pools, data, i, done, FramesOf(sent));
      }
    }

    /** pools lists the live links at each of the segments. */
    method SendSessionData(pools: seq<seq<LinkInfo>>, session: u32, ingressKey: u32, data: seq<u8>)
        returns (r: SendResult, sent: seq<Transmission>)
      requires Valid()
      modifies this`sessions, selector`probeRotation
      ensures var key := Key(if ingressKey == 0xFFFF_FFFF then cfg.local else ingressKey, session);
              var b := DataBurst(cfg, old(State()), key, pools, data);
              && FramesOf(sent) == PieceFrames(cfg, key, b.pieces) && State() == Use(old(State()), key, b.used)
              && r == if b.complete then Written(|data|) else NoChannel
    {
      var key := Key(ResolveIngressKey(ingressKey), session);
      UseNone(State(), key);
      r, sent := NoChannel, [];
      if key in sessions {
        var complete;
        complete, sent := SendChunks(key, pools, data);
        if complete { r := Written(|data|); }
      }
    }

    // ---- Handlers ----

    /** One call of the session's handler, which may re-enter closeSession. */
    method CallHandler(live: seq<LinkInfo>, key: Key, callback: Callback, before: seq<u8>)
        returns (events: seq<Event>, sent: seq<Transmission>)
      requires Valid()
      modifies this`sessions, selector`probeRotation
      ensures (State(), events) == StreamSpec.Call(cfg, old(State()), key, callback, before)
      ensures FramesOf(sent) == FinFrames(cfg, live, events)
    {
      hide SegmentFrame;
      events, sent := [Called(key, callback)], [];
      if cfg.reacts(key, callback, before) {
        var fin := if key in sessions then [FinSent(key, sessions[key].nextSend)] else [];
        sent := CloseKey(live, key);
        FinAppend(cfg, live, events, fin);
        events := events + fin;
      }
    }

    method CallHandlerWithData(live: seq<LinkInfo>, key: Key, blocks: seq<seq<u8>>, before: seq<u8>)
        returns (events: seq<Event>, sent: seq<Transmission>)
      requires Valid()
      modifies this`sessions, selector`probeRotation
      ensures (State(), events) == CallData(cfg, old(State()), key, blocks, before)
      ensures FramesOf(sent) == FinFrames(cfg, live, events)
    {
      events, sent := [], [];
      var given := before;
      ghost var all := CallData(cfg, State(), key, blocks, before);
      assert Onwards(blocks, 0) == blocks && [] + all.1 == all.1;
      for i := 0 to |blocks|
        invariant all == Then(events, CallData(cfg, State(), key, Onwards(blocks, i), given))
        invariant FramesOf(sent) == FinFrames(cfg, live, events)
      {
        OnwardsNext(blocks, i);
        CallNext(cfg, State(), key, Onwards(blocks, i), given, events);
        hide CallData, Onwards, Call;
        if blocks[i] != [] {
          var e, s := CallHandler(live, key, OnData(blocks[i]), given);
          FramesAppend(sent, s);
          FinAppend(cfg, live, events, e);
          events, sent, given := events + e, sent + s, given + blocks[i];
        }
      }
      assert events + [] == events;
    }

    // ---- Delivery ----

    /** Takes the in-order run out of the session's buffer. */
    method CollectReady(key: Key) returns (ready: seq<seq<u8>>)
      requires key in sessions
      modifies this`sessions
      ensures sessions == old(sessions)[key := Drain(old(sessions[key]))]
      ensures ready == Blocks(old(sessions[key]))
    {
      ready := [];
      ghost var start := sessions[key];
      var going := sessions[key].buffer != map[];
      hide Drain, Blocks, Ready, Advance;
      while going
        invariant key in sessions && sessions == old(sessions)[key := sessions[key]]
        invariant Drain(start) == Drain(sessions[key]) && Blocks(start) == ready + Blocks(sessions[key])
        invariant if going then sessions[key].buffer != map[] else !Ready(sessions[key])
        decreases sessions[key].buffer.Keys, going
      {
        var s := sessions[key];
        ghost var least := LeastExists(s.buffer.Keys);
        var first :| first in s.buffer.Keys && forall k | k in s.buffer.Keys :: first <= k;
        DrainStep(s, first);
        if first != s.expected {
          going := false;
        } else {
          Assoc(ready, [s.buffer[first]], Blocks(Advance(s)));
          ready := ready + [s.buffer[first]];
          sessions := sessions[key := Advance(s)];
          going := Advance(s).buffer != map[];
        }
      }
      DrainEnd(sessions[key]);
      assert ready + [] == ready;
    }

    method DeliverInOrder(live: seq<LinkInfo>, key: Key) returns (events: seq<Event>, sent: seq<Transmission>)
      requires Valid() && key in sessions
      modifies this`sessions, selector`probeRotation
      ensures var c, s := old(State()), old(sessions[key]);
              (State(), events)
              == if s.handler then CallData(cfg, c.(sessions := c.sessions[key := Drain(s)]), key, Blocks(s),
                                            s.delivered)
                 else (c, [])
      ensures FramesOf(sent) == FinFrames(cfg, live, events)
    {
      events, sent := [], [];
      if sessions[key].handler {
        var before := sessions[key].delivered;
        var ready := CollectReady(key);
        hide CallData;
        events, sent := CallHandlerWithData(live, key, ready, before);
      }
    }

    // ---- Receiving ----

    method EnsureSession(key: Key)
      modifies this`sessions
      ensures State() == Ensure(cfg, old(State()), key)
    {
      if key !in sessions {
        sessions := sessions[key := NewSession(cfg.hasHandler(key))];
      }
    }

    method HandleSyn(live: seq<LinkInfo>, key: Key) returns (events: seq<Event>, sent: seq<Transmission>)
      requires Valid()
      modifies this`sessions, selector`probeRotation
      ensures (State(), events) == OnSyn(cfg, old(State()), key)
      ensures FramesOf(sent) == FinFrames(cfg, live, events)
    {
      events, sent := [], [];
      EnsureSession(key);
      if sessions[key].handler {
        events, sent := CallHandler(live, key, OnOpen, sessions[key].delivered);
      }
    }

    /** The entry is looked up again after the callback, which may have erased it. */
    method HandleFin(live: seq<LinkInfo>, key: Key) returns (events: seq<Event>, sent: seq<Transmission>)
      requires Valid()
      modifies this`sessions, selector`probeRotation
      ensures (State(), events) == OnFin(cfg, old(State()), key)
      ensures FramesOf(sent) == FinFrames(cfg, live, events)
    {
      events, sent := [], [];
      if key in sessions {
        if sessions[key].handler {
          events, sent := CallHandler(live, key, OnClose, sessions[key].delivered);
        }
        sessions := sessions - {key};
      }
    }

    method HandleData(live: seq<LinkInfo>, seg: Seg) returns (events: seq<Event>, sent: seq<Transmission>)
      requires Valid()
      modifies this`sessions, selector`probeRotation
      ensures (State(), events) == OnPayload(cfg, old(State()), seg)
      ensures FramesOf(sent) == FinFrames(cfg, live, events)
    {
      EnsureSession(seg.key);
      ghost var d := State();
      var s := sessions[seg.key];
      if seg.seqNum !in s.buffer {
        s := s.(buffer := s.buffer[seg.seqNum := seg.payload]);
      }
      sessions := sessions[seg.key := s];
      ghost var t := State();
      assert t.(sessions := t.sessions[seg.key := Drain(s)]) == d.(sessions := d.sessions[seg.key := Drain(s)]);
      hide CallData, Drain, Blocks;
      events, sent := DeliverInOrder(live, seg.key);
    }

    method HandleBody(live: seq<LinkInfo>, seg: Seg) returns (events: seq<Event>, sent: seq<Transmission>)
      requires Valid()
      modifies this`sessions, selector`probeRotation
      ensures (State(), events) == Body(cfg, old(State()), seg)
      ensures FramesOf(sent) == FinFrames(cfg, live, events)
    {
      events, sent := [], [];
      if seg.fin {
        events, sent := HandleFin(live, seg.key);
      } else if Carries(seg) {
        events, sent := HandleData(live, seg);
      }
    }

    method HandleSegment(live: seq<LinkInfo>, seg: Seg) returns (events: seq<Event>, sent: seq<Transmission>)
      requires Valid()
      modifies this`sessions, selector`probeRotation
      ensures (State(), events) == Process(cfg, old(State()), seg)
      ensures FramesOf(sent) == FinFrames(cfg, live, events)
    {
      events, sent := [], [];
      hide OnSyn, Body;
      if seg.syn {
        events, sent := HandleSyn(live, seg.key);
        if seg.key !in sessions { return events, sent; }
      }
      var e, s := HandleBody(live, seg);
      FramesAppend(sent, s);
      FinAppend(cfg, live, events, e);
      assert [] + e == e;
      events, sent := events + e, sent + s;
    }

    /** A duplicate: its link raced and lost. */
    method NoteLoss(link: Link)
      modifies this`parts
      ensures Race(wins, parts) == Lost(old(Race(wins, parts)), PeerOf(old(State()), link))
    {
      var peer := if link in peers then peers[link] else 0;
      if peer != 0 {
        parts := parts[peer := Succ32(Count(parts, peer))];
      }
    }

    method NoteWin(link: Link)
      modifies this`wins, this`parts
      ensures Race(wins, parts) == Won(old(Race(wins, parts)), PeerOf(old(State()), link))
    {
      var peer := if link in peers then peers[link] else 0;
      if peer != 0 {
        wins := wins[peer := Succ32(Count(wins, peer))];
        parts := parts[peer := Succ32(Count(parts, peer))];
      }
    }

    method NoteKey(k: DedupKey)
      modifies this`seen, this`ring
      ensures Memory(seen, ring) == Remember(old(Memory(seen, ring)), k, true)
    {
      seen := seen + {k};
      ring := ring + [k];
      if |ring| > DEDUP_RING {
        seen := seen - {ring[0]};
        ring := ring[1..];
      }
    }

    method ReceiveSegment(live: seq<LinkInfo>, link: Link, seg: Seg)
      returns (events: seq<Event>, sent: seq<Transmission>)
      requires Valid()
      modifies this, selector`probeRotation
      ensures (State(), events) == Receive(cfg, old(State()), link, seg) && scratch == old(scratch)
      ensures FramesOf(sent) == FinFrames(cfg, live, events)
    {
      hide Process, Won, Lost, Remember;
      events, sent := [], [];
      var k := DedupOf(seg);
      if k in seen {
        NoteLoss(link);
        return events, sent;
      }
      if Carries(seg) {
        var expected := if seg.key in sessions then sessions[seg.key].expected else 0;
        if Sub32(seg.seqNum, expected) >= cfg.window { return events, sent; }
      }
      ghost var c := State();
      NoteKey(k);
      NoteWin(link);
      assert State() == Noted(cfg, c, link, seg);
      events, sent := HandleSegment(live, seg);
    }

    method ApplyHello(link: Link, payload: seq<u8>)
      modifies this`peers, this`applied, this`generation, this`wins, this`parts
      ensures State() == OnHello(cfg, old(State()), link, payload)
    {
      var hello := cfg.hello(payload);
      if hello.Some? && hello.value.version == PROTO_VERSION {
        var h := hello.value;
        peers := peers[link := h.channel];
        if h.generation != 0 && h.generation != generation {
          generation, applied := h.generation, 0;
          wins, parts := map[], map[];
        }
      }
    }

    method ApplyFeedback(payload: seq<u8>)
      modifies this`applied, selector`primary
      ensures State() == OnAck(cfg, old(State()), payload)
    {
      var message := cfg.feedback(payload);
      if message.Some? && message.value.epoch > applied {
        applied := message.value.epoch;
        if message.value.primary != 0 {
          selector.SetPrimaryChannel(message.value.primary);
        }
      }
    }

    /** One whole frame: hello, heartbeat and feedback bypass the duplicate memory. */
    method HandleFrame(live: seq<LinkInfo>, link: Link, frame: seq<u8>) returns (events: seq<Event>,
                       sent: seq<Transmission>)
      requires Valid() && WellFormed(frame)
      modifies this, selector`probeRotation, selector`primary
      ensures (State(), events) == OnFrame(cfg, old(State()), link, frame) && scratch == old(scratch)
      ensures FramesOf(sent) == FinFrames(cfg, live, events)
    {
      hide Receive, OnHello, OnAck, SegOf, CrcOk, Crc32Table.Valid, Has;
      events, sent := [], [];
      if cfg.verify {
        var ok := VerifyCrc(table, frame, HdrOf(frame), WidthOf(frame));
        if !ok { return events, sent; }
      }
      var flags := HdrOf(frame).flags;
      if Has(flags, FLAG_HELLO) {
        ApplyHello(link, PayloadOf(frame));
      } else if Has(flags, FLAG_HEARTBEAT) {
      } else if Has(flags, FLAG_ACK) {
        ApplyFeedback(PayloadOf(frame));
      } else {
        events, sent := ReceiveSegment(live, link, SegOf(frame));
      }
    }

    /** Cuts buf into whole frames and handles each; rest is what stays buffered. */
    method HandleBuffer(live: seq<LinkInfo>, link: Link, buf: seq<u8>)
        returns (rest: seq<u8>, events: seq<Event>, sent: seq<Transmission>)
      requires Valid()
      modifies this, selector`probeRotation, selector`primary
      ensures rest == Parse(buf).rest && AllWellFormed(Parse(buf).frames) && scratch == old(scratch)
      ensures (State(), events) == OnFrames(cfg, old(State()), link, Parse(buf).frames)
      ensures FramesOf(sent) == FinFrames(cfg, live, events)
    {
      events, sent := [], [];
      var pos := 0;
      ghost var c, done: seq<seq<u8>> := State(), [];
      ProgressStart(cfg, c, link, buf);
      var found := NextFrame(buf);
      assert found == FindFrame(Tail(buf, 0)) && FramesOf(sent) == FinFrames(cfg, live, events);
      hide FindFrame, Parse, Tail, Cut, WellFormed, OnFrame, OnFrames, FramesOf, FinFrames, Progress;
      while found.Whole?
        invariant pos <= |buf| && found == FindFrame(Tail(buf, pos)) && scratch == old(scratch)
        invariant Progress(cfg, c, link, buf, pos, done, State(), events)
        invariant FramesOf(sent) == FinFrames(cfg, live, events)
        decreases |buf| - pos
      {
        ghost var d := State();
        ProgressFrame(cfg, c, link, buf, pos, done, d, events, found.size);
        var frame := Cut(buf, pos, found.size);
        CutSize(buf, pos, found.size);
        var e, s := HandleFrame(live, link, frame);
        var next := pos + |frame|;
        ProgressRound(cfg, c, link, buf, pos, done, d, events, frame, State(), e, next);
        FramesAppend(sent, s);
        FinAppend(cfg, live, events, e);
        done, events, sent := done + [frame], events + e, sent + s;
        pos := next;
        found := NextFrame(Tail(buf, pos));
      }
      ProgressEnd(cfg, c, link, buf, pos, done, State(), events);
      rest := if found.Bad? then [] else Tail(buf, pos);
    }

    method OnChannelBytes(live: seq<LinkInfo>, link: Link, bytes: seq<u8>) returns (events: seq<Event>,
                          sent: seq<Transmission>)
      requires Valid()
      modifies this, selector`probeRotation, selector`primary
      ensures var p := Parse(Held(old(scratch), link) + bytes);
              && AllWellFormed(p.frames) && scratch == old(scratch)[link := p.rest]
              && (State(), events) == OnFrames(cfg, old(State()), link, p.frames)
      ensures FramesOf(sent) == FinFrames(cfg, live, events)
    {
      hide Parse, OnFrames;
      var buf := (if link in scratch then scratch[link] else []) + bytes;
      var rest;
      rest, events, sent := HandleBuffer(live, link, buf);
      scratch := scratch[link := rest];
    }

    // ---- Feedback ----

    method RecommendedPrimary() returns (best: u32)
      ensures best == Pick(Race(wins, parts))
    {
      best := PickPrimary(Race(wins, parts));
      PickIs(Race(wins, parts), best);
    }

    method EmitFeedback(pack: Message -> Option<seq<u8>>, live: seq<LinkInfo>) returns (sent: seq<Transmission>)
      requires Valid() && forall m :: pack(m).Some? ==> |pack(m).value| <= 64
      modifies this
      ensures State() == Heartbeat(old(State())).0 && scratch == old(scratch)
      ensures var m := Heartbeat(old(State())).1;
              sent == if m.Some? && pack(m.value).Some?
                      then [Transmission(LiveIds(live), FeedbackFrame(cfg, pack(m.value).value))] else []
    {
      hide Frame;
      sent := [];
      if parts == map[] { return sent; }
      var best := RecommendedPrimary();
      wins := HalfOf(wins);
      parts := HalfOf(parts);
      if best == 0 { return sent; }
      emitted := Succ32(emitted);
      var payload := pack(Message(emitted, best));
      if payload.Some? {
        var frame := EncodeFeedback(payload.value);
        sent := [Transmission(LiveIds(live), frame)];
      }
    }

    method EncodeFeedback(payload: Payload) returns (frame: seq<u8>)
      requires Valid() && |payload| <= 64
      ensures frame == FeedbackFrame(cfg, payload)
    {
      var hdr := FeedbackHeader(cfg);
      FeedbackSize(cfg, payload);
      hide Frame;
      var block := new u8[128];
      ghost var was := block[..];
      var r := Encode(table, block, hdr, payload);
      frame := block[..r.size];
      assert Splice(was, 0, Frame(hdr, payload))[..|Frame(hdr, payload)|] == Frame(hdr, payload);
    }
  }
}
