/** What a DataStream does, as functions on its state: the receive path frame by
    frame, and the local operations. */
module StreamSpec {
  import opened Words
  import opened Segment
  import opened Framing
  import opened Reassembly
  import opened Race
  import opened Feedback

  /** A link is an IFgwChannel object; identities are never reused. */
  type Link = nat

  /** Sessions are keyed by the ingress id on the wire and the session id. */
  datatype Key = Key(ingress: u32, session: u32)

  datatype Kind = DataKind | SynKind | FinKind

  datatype DedupKey = DedupKey(key: Key, seqNum: u32, kind: Kind)

  const DEDUP_RING: nat := 4096

  datatype Callback = OnOpen | OnData(bytes: seq<u8>) | OnClose

  /** What the outside sees while frames are processed: calls of a session's
      handler, and the FIN of a handler that re-enters closeSession. */
  datatype Event = Called(key: Key, callback: Callback) | FinSent(key: Key, seqNum: u32)

  /** hasHandler is the unknown-session hook. reacts says whether a handler, in
      the given callback and with the bytes it has been given before, re-enters
      closeSession on its own session. hello and feedback decode the payloads of
      the two control segments. forgets is true for the code, whose duplicate
      memory is bounded; the unbounded memory is a reference only. */
  datatype Config = Config(
    local: u32, segment: nat, window: nat, verify: bool, outport: u32, forgets: bool,
    hasHandler: Key -> bool, reacts: (Key, Callback, seq<u8>) -> bool,
    hello: seq<u8> -> Option<Hello>, feedback: seq<u8> -> Option<Message>)

  predicate ValidConfig(cfg: Config) {
    0 < cfg.segment <= MAX_PAYLOAD && 0 < cfg.window < 0x1_0000
  }

  datatype Memory = Memory(seen: set<DedupKey>, ring: seq<DedupKey>)

  datatype Core = Core(sessions: map<Key, Session>, memory: Memory, peers: map<Link, u32>, race: Race, feedback: State)

  const START := Core(map[], Memory({}, []), map[], NO_RACE, INITIAL)

  function PeerOf(c: Core, link: Link): u32 { if link in c.peers then c.peers[link] else 0 }

  function Expected(c: Core, key: Key): u32 { if key in c.sessions then c.sessions[key].expected else 0 }

  // ---- Session segments ----

  datatype Seg = Seg(key: Key, seqNum: u32, syn: bool, fin: bool, data: bool, payload: seq<u8>)

  predicate Carries(seg: Seg) { seg.data && seg.payload != [] }

  function DedupOf(seg: Seg): DedupKey {
    DedupKey(seg.key, seg.seqNum, if seg.syn then SynKind else if seg.fin then FinKind else DataKind)
  }

  /** The bounded duplicate memory: a new key pushes out the oldest of 4096. */
  function Remember(m: Memory, k: DedupKey, forgets: bool): Memory {
    var ring := m.ring + [k];
    if forgets && |ring| > DEDUP_RING then Memory(m.seen + {k} - {ring[0]}, ring[1..]) else Memory(m.seen + {k}, ring)
  }

  predicate OutOfWindow(cfg: Config, c: Core, seg: Seg) {
    Carries(seg) && Ahead(seg.seqNum, Expected(c, seg.key)) >= cfg.window
  }

  /** closeSession: a FIN with the next number, and the entry is gone. */
  function Close(c: Core, key: Key): (Core, seq<Event>) {
    if key in c.sessions then
      (c.(sessions := c.sessions - {key}), [FinSent(key, c.sessions[key].nextSend)])
    else (c, [])
  }

  function Call(cfg: Config, c: Core, key: Key, callback: Callback, before: seq<u8>): (Core, seq<Event>) {
    if cfg.reacts(key, callback, before) then
      var (d, events) := Close(c, key);
      (d, [Called(key, callback)] + events)
    else (c, [Called(key, callback)])
  }

  /** The handler gets the blocks of one in-order run, one call each. */
  function CallData(cfg: Config, c: Core, key: Key, blocks: seq<seq<u8>>, before: seq<u8>): (Core, seq<Event>)
    decreases |blocks|
  {
    if blocks == [] then (c, [])
    else if blocks[0] == [] then CallData(cfg, c, key, blocks[1..], before)
    else
      var (d, e) := Call(cfg, c, key, OnData(blocks[0]), before);
      var (d', e') := CallData(cfg, d, key, blocks[1..], before + blocks[0]);
      (d', e + e')
  }

  function Ensure(cfg: Config, c: Core, key: Key): Core {
    if key in c.sessions then c else c.(sessions := c.sessions[key := NewSession(cfg.hasHandler(key))])
  }

  function OnSyn(cfg: Config, c: Core, key: Key): (Core, seq<Event>) {
    var d := Ensure(cfg, c, key);
    if d.sessions[key].handler then Call(cfg, d, key, OnOpen, d.sessions[key].delivered) else (d, [])
  }

  function OnFin(cfg: Config, c: Core, key: Key): (Core, seq<Event>) {
    if key !in c.sessions then (c, [])
    else
      var (d, e) := if c.sessions[key].handler then Call(cfg, c, key, OnClose, c.sessions[key].delivered) else (c, []);
      (d.(sessions := d.sessions - {key}), e)
  }

  function OnPayload(cfg: Config, c: Core, seg: Seg): (Core, seq<Event>) {
    var d := Ensure(cfg, c, seg.key);
    var s := Insert(d.sessions[seg.key], seg.seqNum, seg.payload);
    var d' := d.(sessions := d.sessions[seg.key := Deliver(s)]);
    if s.handler then CallData(cfg, d', seg.key, Blocks(s), s.delivered) else (d', [])
  }

  function Body(cfg: Config, c: Core, seg: Seg): (Core, seq<Event>) {
    if seg.fin then OnFin(cfg, c, seg.key) else if Carries(seg) then OnPayload(cfg, c, seg) else (c, [])
  }

  /** An accepted session segment. If the open callback closes the session, the
      segment has no further effect. */
  function Process(cfg: Config, c: Core, seg: Seg): (Core, seq<Event>) {
    if seg.syn then
      var (d, e) := OnSyn(cfg, c, seg.key);
      if seg.key !in d.sessions then (d, e)
      else
        var (d', e') := Body(cfg, d, seg);
        (d', e + e')
    else Body(cfg, c, seg)
  }

  /** The state in which an accepted segment is processed. */
  function Noted(cfg: Config, c: Core, link: Link, seg: Seg): Core {
    c.(memory := Remember(c.memory, DedupOf(seg), cfg.forgets), race := Won(c.race, PeerOf(c, link)))
  }

  function Receive(cfg: Config, c: Core, link: Link, seg: Seg): (Core, seq<Event>) {
    if DedupOf(seg) in c.memory.seen then (c.(race := Lost(c.race, PeerOf(c, link))), [])
    else if OutOfWindow(cfg, c, seg) then (c, [])
    else Process(cfg, Noted(cfg, c, link, seg), seg)
  }

  // ---- Frames ----

  function SegOf(frame: seq<u8>): Seg
    requires WellFormed(frame)
  {
    var h := HdrOf(frame);
    Seg(Key(if Has(h.flags, FLAG_HDR_EXT) then h.ingress else 0, h.session), h.seqNum,
        Has(h.flags, FLAG_SYN), Has(h.flags, FLAG_FIN), Has(h.flags, FLAG_DATA), PayloadOf(frame))
  }

  /** Neither hello, heartbeat nor feedback. */
  predicate IsSession(frame: seq<u8>)
    requires WellFormed(frame)
  {
    var flags := HdrOf(frame).flags;
    !Has(flags, FLAG_HELLO) && !Has(flags, FLAG_HEARTBEAT) && !Has(flags, FLAG_ACK)
  }

  /** Hello, heartbeat and feedback are told by their flags, the rest is session traffic. */
  lemma {:induction false} SessionIff(f: seq<u8>)
    requires WellFormed(f)
    ensures IsSession(f) <==> HdrOf(f).flags & 0x38 == 0
  {
    ControlFlags(HdrOf(f).flags);
  }

  lemma {:induction false} ControlFlags(flags: bv8)
    ensures flags & 0x38 == 0 <==> flags & 0x08 == 0 && flags & 0x10 == 0 && flags & 0x20 == 0
  {}

  predicate PassesCrc(cfg: Config, frame: seq<u8>)
    requires WellFormed(frame)
  {
    cfg.verify ==> CrcOk(frame, HdrOf(frame), WidthOf(frame))
  }

  function OnHello(cfg: Config, c: Core, link: Link, payload: seq<u8>): Core {
    match cfg.hello(payload)
    case None => c
    case Some(h) =>
      if h.version != PROTO_VERSION then c
      else c.(peers := c.peers[link := h.channel], feedback := Greet(c.feedback, h),
              race := if NewGeneration(c.feedback, h) then NO_RACE else c.race)
  }

  function OnAck(cfg: Config, c: Core, payload: seq<u8>): Core {
    match cfg.feedback(payload)
    case None => c
    case Some(m) => c.(feedback := Adopt(c.feedback, m))
  }

  function OnFrame(cfg: Config, c: Core, link: Link, frame: seq<u8>): (Core, seq<Event>)
    requires WellFormed(frame)
  {
    var flags := HdrOf(frame).flags;
    if !PassesCrc(cfg, frame) then (c, [])
    else if Has(flags, FLAG_HELLO) then (OnHello(cfg, c, link, PayloadOf(frame)), [])
    else if Has(flags, FLAG_HEARTBEAT) then (c, [])
    else if Has(flags, FLAG_ACK) then (OnAck(cfg, c, PayloadOf(frame)), [])
    else Receive(cfg, c, link, SegOf(frame))
  }

  function OnFrames(cfg: Config, c: Core, link: Link, frames: seq<seq<u8>>): (Core, seq<Event>)
    requires AllWellFormed(frames)
  {
    if frames == [] then (c, [])
    else
      var n := |frames| - 1;
      var (d, e) := OnFrames(cfg, c, link, frames[..n]);
      var (d', e') := OnFrame(cfg, d, link, frames[n]);
      (d', e + e')
  }

  lemma {:induction false} OnFramesSnoc(cfg: Config, c: Core, link: Link, frames: seq<seq<u8>>, frame: seq<u8>)
    requires AllWellFormed(frames + [frame]) && AllWellFormed(frames) && WellFormed(frame)
    ensures var (d, e) := OnFrames(cfg, c, link, frames);
            var (d', e') := OnFrame(cfg, d, link, frame);
            OnFrames(cfg, c, link, frames + [frame]) == (d', e + e')
  {
    assert (frames + [frame])[..|frames|] == frames;
  }

  /** A framing loop that started in state c has cut buf up to pos into the frames
      done, which led to the state d and these events. */
  ghost predicate Progress(cfg: Config, c: Core, link: Link, buf: seq<u8>, pos: nat, done: seq<seq<u8>>, d: Core,
                           events: seq<Event>) {
    && pos <= |buf| && AllWellFormed(done) && Parse(buf) == After(done, Parse(Tail(buf, pos)))
    && (d, events) == OnFrames(cfg, c, link, done)
  }

  lemma {:induction false} ProgressStart(cfg: Config, c: Core, link: Link, buf: seq<u8>)
    ensures Progress(cfg, c, link, buf, 0, [], c, []) && Tail(buf, 0) == buf
  {
    FramingStart(buf);
  }

  lemma {:induction false} ProgressFrame(cfg: Config, c: Core, link: Link, buf: seq<u8>, pos: nat,
                                         done: seq<seq<u8>>, d: Core, events: seq<Event>, n: nat)
    requires Progress(cfg, c, link, buf, pos, done, d, events) && FindFrame(Tail(buf, pos)) == Whole(n)
    ensures LEGACY_SIZE <= n && pos + n <= |buf| && WellFormed(Cut(buf, pos, n))
  {
    hide FindFrame, Parse, Tail, Cut, WellFormed, OnFrames, After, AllWellFormed;
    FramingRound(buf, pos, done);
  }

  /** One round: the frame at pos led from d to d', with the events e. */
  lemma {:induction false} ProgressRound(cfg: Config, c: Core, link: Link, buf: seq<u8>, pos: nat,
                                         done: seq<seq<u8>>, d: Core, events: seq<Event>,
                                         frame: seq<u8>, d': Core, e: seq<Event>, next: nat)
    requires Progress(cfg, c, link, buf, pos, done, d, events) && FindFrame(Tail(buf, pos)) == Whole(|frame|)
    requires next == pos + |frame| <= |buf| && frame == Cut(buf, pos, |frame|) && WellFormed(frame)
    requires (d', e) == OnFrame(cfg, d, link, frame)
    ensures Progress(cfg, c, link, buf, next, done + [frame], d', events + e)
  {
    hide FindFrame, Parse, Tail, Cut, WellFormed, OnFrame, OnFrames, After, AllWellFormed;
    FramingRound(buf, pos, done);
    OnFramesSnoc(cfg, c, link, done, frame);
  }

  lemma {:induction false} ProgressEnd(cfg: Config, c: Core, link: Link, buf: seq<u8>, pos: nat, done: seq<seq<u8>>,
                                       d: Core, events: seq<Event>)
    requires Progress(cfg, c, link, buf, pos, done, d, events) && !FindFrame(Tail(buf, pos)).Whole?
    ensures AllWellFormed(Parse(buf).frames) && (d, events) == OnFrames(cfg, c, link, Parse(buf).frames)
    ensures Parse(buf).rest == if FindFrame(Tail(buf, pos)).Bad? then [] else Tail(buf, pos)
  {
    hide FindFrame, Parse, Tail, Cut, WellFormed, OnFrame, OnFrames, After;
    FramingRound(buf, pos, done);
  }

  // ---- Local operations ----

  /** What a heartbeat does: the arbiter's recommendation, and the decay. */
  ghost function Heartbeat(c: Core): (Core, Option<Message>) {
    if c.race.parts == map[] then (c, None)
    else
      var best, d := Pick(c.race), c.(race := Halve(c.race));
      if best == 0 then (d, None)
      else
        var epoch := Succ32(c.feedback.emitted);
        (d.(feedback := c.feedback.(emitted := epoch)), Some(Message(epoch, best)))
  }

  function Open(c: Core, key: Key, handler: bool): Core {
    if key in c.sessions then c else c.(sessions := c.sessions[key := NewSession(handler)])
  }

  /** Sending uses up sequence numbers, and changes nothing else. */
  function Use(c: Core, key: Key, n: nat): Core {
    if key in c.sessions then
      c.(sessions := c.sessions[key := c.sessions[key].(nextSend := (c.sessions[key].nextSend + n) % TWO32)])
    else c
  }
}
