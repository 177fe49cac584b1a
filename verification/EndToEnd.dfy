/** From application to application: a sender, a receiver, a transit in between and
    the links that join them, under every schedule. */
module EndToEnd {
  import opened Words
  import opened Segment
  import opened Framing
  import opened Reassembly
  import opened StreamSpec
  import opened Runs
  import opened Sending
  import Isolation
  import Selector
  import T = TransitSpec
  import TransitRuns

  /** One direction of a link: the frames written to it so far, whole ones only, and
      how many of its bytes the far end has read. Bytes that are never read are
      lost with the link. */
  datatype Pipe = Pipe(frames: seq<seq<u8>>, read: nat)

  /** Which session is watched, how both ends are configured, and how the transit
      decodes a hello. */
  datatype Setting = Setting(key: Key, near: Config, far: Config, hello: T.HelloDecoder)

  /** slots records, for each sequence number the session has used at the sender, the
      payload that was sent with it, or None if that send found no live link. written
      is what the application passed to sendSessionData. outs are the links that the
      transit has dialed, towards Outports. */
  datatype World = World(
    sender: Core, begun: bool, slots: seq<Option<Payload>>, written: seq<u8>,
    pipes: map<PipeId, Pipe>, hub: T.Hub, outs: set<Link>, receiver: Core, scratch: map<Link, seq<u8>>)

  const BEGINNING := World(START, false, [], [], map[], T.EMPTY, {}, START, map[])

  /** The two directions of each link of the transit, and links that lead to the
      receiver directly. */
  datatype PipeId = HubIn(link: Link) | HubOut(link: Link) | Direct(id: nat)

  /** The pipes that lead to the receiver: from Inport links and on to Outport links. */
  predicate Forward(outs: set<Link>, p: PipeId) {
    match p
    case HubIn(link) => link !in outs
    case HubOut(link) => link in outs
    case Direct(_) => true
  }

  /** The pipes that end at the receiver, and the link that each is there. */
  predicate Ends(outs: set<Link>, p: PipeId) { p.Direct? || (p.HubOut? && p.link in outs) }

  function PortOf(p: PipeId): Link {
    match p
    case HubIn(_) => 0
    case HubOut(link) => 2 * link + 1
    case Direct(id) => 2 * id
  }

  lemma {:induction false} PortsDiffer(p: PipeId, q: PipeId)
    requires !p.HubIn? && !q.HubIn? && PortOf(p) == PortOf(q)
    ensures p == q
  {}

  datatype Act =
    | Asks(op: Op) // the sender does anything but send on the session
    | Calls(pools: seq<seq<Selector.LinkInfo>>, data: seq<u8>) // sendSessionData
    | Writes(pipe: PipeId, frame: seq<u8>) // some node hands a frame to a link
    | HubReads(link: Link, size: nat)
    | HubDoes(event: T.HubEvent)
    | Reads(pipe: PipeId, size: nat) // the receiver gets bytes of any length
    | Does(op: Op) // a local call at the receiver

  // ---- What may be on the wire ----

  /** A frame that carries data of the watched session carries the payload that the
      sender numbered so. */
  predicate Genuine(key: Key, slots: seq<Option<Payload>>, frame: seq<u8>) {
    WellFormed(frame)
    && (IsSession(frame) && SegOf(frame).key == key && Carries(SegOf(frame)) ==>
          SegOf(frame).seqNum < |slots| && slots[SegOf(frame).seqNum] == Some(SegOf(frame).payload))
  }

  const UNUSED := Pipe([], 0)

  function PipeAt(pipes: map<PipeId, Pipe>, p: PipeId): Pipe { if p in pipes then pipes[p] else UNUSED }

  function Pour(pipes: map<PipeId, Pipe>, p: PipeId, frame: seq<u8>): map<PipeId, Pipe> {
    pipes[p := PipeAt(pipes, p).(frames := PipeAt(pipes, p).frames + [frame])]
  }

  function PourAll(pipes: map<PipeId, Pipe>, sent: seq<T.Forwarded>): map<PipeId, Pipe> {
    if sent == [] then pipes
    else Pour(PourAll(pipes, sent[..|sent| - 1]), HubOut(sent[|sent| - 1].dst), sent[|sent| - 1].frame)
  }

  function Bytes(pipe: Pipe): seq<u8> { Flat(pipe.frames) }

  function NextBytes(pipe: Pipe, size: nat): seq<u8>
    requires pipe.read + size <= |Bytes(pipe)|
  {
    Bytes(pipe)[pipe.read..pipe.read + size]
  }

  function Made(pieces: seq<Piece>): seq<Option<Payload>> {
    if pieces == [] then [] else [Some(pieces[0].payload)] + Made(pieces[1..])
  }

  /** The numbers that one call uses. */
  function SlotsOf(b: Burst): seq<Option<Payload>> { Made(b.pieces) + if b.complete then [] else [None] }

  function Advanced(pipes: map<PipeId, Pipe>, p: PipeId, size: nat): map<PipeId, Pipe> {
    pipes[p := PipeAt(pipes, p).(read := PipeAt(pipes, p).read + size)]
  }

  function Dialed(outs: set<Link>, hub: T.Hub, event: T.HubEvent): set<Link> {
    if event.Dial? || event.Redial? then outs + {hub.next} else outs
  }

  predicate Local(op: Op) { op.Opens? || op.Sends? || op.Closes? || op.Beats? }

  ghost predicate Possible(x: Setting, w: World, a: Act) {
    match a
    case Asks(op) =>
      && !(op.Sends? && op.key == x.key)
      && (w.begun && x.key !in w.sender.sessions ==> x.key !in Step(x.near, w.sender, op).0.sessions)
    case Calls(_, _) => true
    case Writes(p, frame) =>
      (p.Direct? || p.link < w.hub.next) && WellFormed(frame) && (Forward(w.outs, p) ==> Genuine(x.key, w.slots, frame))
    case HubReads(link, size) =>
      link < w.hub.next && PipeAt(w.pipes, HubIn(link)).read + size <= |Bytes(PipeAt(w.pipes, HubIn(link)))|
    case HubDoes(event) => !event.Bytes? && T.Enabled(w.hub, event)
    case Reads(p, size) => Ends(w.outs, p) && PipeAt(w.pipes, p).read + size <= |Bytes(PipeAt(w.pipes, p))|
    case Does(op) => Local(op)
  }

  ghost function DoAct(x: Setting, w: World, a: Act): World
    requires ValidConfig(x.near) && Possible(x, w, a)
  {
    match a
    case Asks(op) =>
      var c := Step(x.near, w.sender, op).0;
      w.(sender := c, begun := w.begun || x.key in c.sessions)
    case Calls(pools, data) =>
      var b := DataBurst(x.near, w.sender, x.key, pools, data);
      if x.key !in w.sender.sessions then w
      else w.(sender := Use(w.sender, x.key, b.used), slots := w.slots + SlotsOf(b), written := w.written + data)
    case Writes(p, frame) => w.(pipes := Pour(w.pipes, p, frame))
    case HubReads(link, size) =>
      var pipe := PipeAt(w.pipes, HubIn(link));
      var (hub, sent) := T.OnBytes(x.hello, w.hub, link, NextBytes(pipe, size));
      w.(hub := hub, pipes := PourAll(Advanced(w.pipes, HubIn(link), size), sent))
    case HubDoes(event) => w.(hub := T.Step(x.hello, w.hub, event).0, outs := Dialed(w.outs, w.hub, event))
    case Reads(p, size) =>
      var pipe := PipeAt(w.pipes, p);
      var parsed := Parse(Held(w.scratch, PortOf(p)) + NextBytes(pipe, size));
      ParseWellFormed(Held(w.scratch, PortOf(p)) + NextBytes(pipe, size));
      w.(pipes := Advanced(w.pipes, p, size), scratch := w.scratch[PortOf(p) := parsed.rest],
         receiver := OnFrames(x.far, w.receiver, PortOf(p), parsed.frames).0)
    case Does(op) => w.(receiver := Step(x.far, w.receiver, op).0)
  }

  /** The state after a run, if all its acts are possible. */
  ghost function WorldAfter(x: Setting, acts: seq<Act>): Option<World>
    requires ValidConfig(x.near)
  {
    if acts == [] then Some(BEGINNING)
    else
      match WorldAfter(x, acts[..|acts| - 1])
      case Some(w) => if Possible(x, w, acts[|acts| - 1]) then Some(DoAct(x, w, acts[|acts| - 1])) else None
      case None => None
  }

  // ---- The slots, and what they say about the bytes ----

  predicate AllSent(slots: seq<Option<Payload>>) { forall o | o in slots :: o.Some? }

  /** The payloads up to the first number that was never sent. */
  function Reach(slots: seq<Option<Payload>>): seq<u8> {
    if slots == [] || slots[0].None? then [] else slots[0].value + Reach(slots[1..])
  }

  lemma {:induction false} AllSentCons(a: seq<Option<Payload>>)
    requires a != []
    ensures AllSent(a) <==> a[0].Some? && AllSent(a[1..])
  {
    assert a == [a[0]] + a[1..];
  }

  lemma {:induction false} ReachAppend(a: seq<Option<Payload>>, b: seq<Option<Payload>>)
    ensures Reach(a + b) == if AllSent(a) then Reach(a) + Reach(b) else Reach(a)
  {
    if a == [] {
      assert a + b == b;
    } else {
      assert (a + b)[0] == a[0] && (a + b)[1..] == a[1..] + b;
      AllSentCons(a);
      hide AllSent;
      ReachAppend(a[1..], b);
      if a[0].Some? {
        Assoc(a[0].value, Reach(a[1..]), Reach(b));
      }
    }
  }

  lemma {:induction false} MadeAt(pieces: seq<Piece>)
    ensures |Made(pieces)| == |pieces| && forall i | 0 <= i < |pieces| :: Made(pieces)[i] == Some(pieces[i].payload)
  {
    if pieces != [] {
      MadeAt(pieces[1..]);
    }
  }

  lemma {:induction false} MadeReach(pieces: seq<Piece>, chunks: seq<Payload>)
    requires |pieces| <= |chunks| && forall i | 0 <= i < |pieces| :: pieces[i].payload == chunks[i]
    ensures AllSent(Made(pieces)) && Reach(Made(pieces)) == Flat(chunks[..|pieces|])
  {
    if pieces != [] {
      MadeReach(pieces[1..], chunks[1..]);
      assert chunks[..|pieces|][1..] == chunks[1..][..|pieces| - 1];
    }
  }

  /** One call: its slots say a prefix of its data, all of it if nothing failed. */
  lemma {:induction false} CallReach(x: Setting, c: Core, pools: seq<seq<Selector.LinkInfo>>, data: seq<u8>)
    requires ValidConfig(x.near) && x.key in c.sessions
    ensures var b := DataBurst(x.near, c, x.key, pools, data);
            Reach(SlotsOf(b)) <= data && (b.complete ==> Reach(SlotsOf(b)) == data)
            && (AllSent(SlotsOf(b)) <==> b.complete)
            && |SlotsOf(b)| == b.used
  {
    var b := DataBurst(x.near, c, x.key, pools, data);
    var chunks := Chunks(data, x.near.segment);
    var n := |b.pieces|;
    SentPieces(pools, 0, c.sessions[x.key].nextSend, chunks);
    ChunksAreData(data, x.near.segment);
    hide SendChunks, Chunks;
    MadeReach(b.pieces, chunks);
    MadeAt(b.pieces);
    FlatPrefix(chunks, n);
    var more: seq<Option<Payload>> := if b.complete then [] else [None];
    FailureEnds(Made(b.pieces), b.complete);
    assert n == |chunks| ==> chunks[..n] == chunks;
    hide *;
  }

  lemma {:induction false} FailureEnds(made: seq<Option<Payload>>, complete: bool)
    requires AllSent(made)
    ensures var slots := made + if complete then [] else [None];
            Reach(slots) == Reach(made) && (AllSent(slots) <==> complete)
            && |slots| == |made| + if complete then 0 else 1
  {
    if complete {
      assert made + [] == made;
    } else {
      ReachAppend(made, [None]);
      var slots := made + [None];
      assert slots[|made|] in slots && Reach(made) + [] == Reach(made);
    }
  }

  // ---- Reading a pipe ----

  /** The partial frame at the reading end. */
  function Left(pipe: Pipe): seq<u8> { if pipe.read <= |Bytes(pipe)| then Parse(Bytes(pipe)[..pipe.read]).rest else [] }

  lemma {:induction false} WholeStream(pipe: Pipe)
    requires AllWellFormed(pipe.frames)
    ensures Parse(Bytes(pipe)) == Parsed(pipe.frames, [], false)
  {
    TransitRuns.EmptyIsPartial();
    ParseFlat(pipe.frames, []);
    assert Bytes(pipe) + [] == Bytes(pipe);
  }

  /** Reading on yields only frames that were written, and leaves the right rest. */
  lemma {:induction false} ReadOn(pipe: Pipe, size: nat)
    requires AllWellFormed(pipe.frames) && pipe.read + size <= |Bytes(pipe)|
    ensures var p := Parse(Left(pipe) + NextBytes(pipe, size));
            !p.bad && p.rest == Left(pipe.(read := pipe.read + size)) && forall f | f in p.frames :: f in pipe.frames
  {
    hide Parse, Flat, AllWellFormed;
    var all := Bytes(pipe);
    var a, b, c := all[..pipe.read], NextBytes(pipe, size), all[pipe.read + size..];
    ThreeParts(all, pipe.read, size);
    WholeStream(pipe);
    TransitRuns.Continues(a, b + c);
    TransitRuns.Continues(a + b, c);
    ParseAppend(a, b);
    var p := Parse(Left(pipe) + b);
    assert pipe.frames == Parse(a + b).frames + Parse(Parse(a + b).rest + c).frames;
    assert Parse(a + b).frames == Parse(a).frames + p.frames;
  }

  lemma {:induction false} ThreeParts(all: seq<u8>, i: nat, n: nat)
    requires i + n <= |all|
    ensures var a, b, c := all[..i], all[i..i + n], all[i + n..];
            all == a + (b + c) && all == (a + b) + c && a + b == all[..i + n]
  {}

  lemma {:induction false} WriteKeepsLeft(pipe: Pipe, frame: seq<u8>)
    requires pipe.read <= |Bytes(pipe)|
    ensures var q := pipe.(frames := pipe.frames + [frame]); q.read <= |Bytes(q)| && Left(q) == Left(pipe)
  {
    FlatSnoc(pipe.frames, frame);
    assert (Bytes(pipe) + frame)[..pipe.read] == Bytes(pipe)[..pipe.read];
  }

  // ---- The invariant ----

  ghost predicate AllGenuine(key: Key, slots: seq<Option<Payload>>, frames: seq<seq<u8>>) {
    forall f | f in frames :: Genuine(key, slots, f)
  }

  ghost predicate PipeOk(key: Key, slots: seq<Option<Payload>>, outs: set<Link>, p: PipeId, pipe: Pipe) {
    AllWellFormed(pipe.frames) && pipe.read <= |Bytes(pipe)|
    && (Forward(outs, p) ==> AllGenuine(key, slots, pipe.frames))
  }

  ghost predicate PipesOk(key: Key, slots: seq<Option<Payload>>, outs: set<Link>, pipes: map<PipeId, Pipe>) {
    forall p: PipeId :: PipeOk(key, slots, outs, p, PipeAt(pipes, p))
  }

  /** The transit's buffers are the partial frames of its links, and a link has no
      bytes before it is registered. */
  ghost predicate HubOk(pipes: map<PipeId, Pipe>, hub: T.Hub) {
    && (forall l | l in hub.links :: l < hub.next && hub.links[l].buffer == Left(PipeAt(pipes, HubIn(l))))
    && (forall l: Link | l >= hub.next :: PipeAt(pipes, HubIn(l)) == UNUSED && PipeAt(pipes, HubOut(l)) == UNUSED)
  }

  /** The transit's tables are sound, and its dialed links are the outbound ones. */
  ghost predicate TablesFit(hub: T.Hub, outs: set<Link>) {
    && TransitRuns.TablesOk(hub) && TransitRuns.ClosingKnown(hub)
    && (forall l | l in hub.links :: hub.links[l].outbound <==> l in outs)
    && (forall l | l in outs :: l < hub.next)
  }

  ghost predicate ScratchOk(pipes: map<PipeId, Pipe>, scratch: map<Link, seq<u8>>) {
    forall p: PipeId | !p.HubIn? :: Held(scratch, PortOf(p)) == Left(PipeAt(pipes, p))
  }

  /** What the session has been given, and holds, is what those numbers mean. */
  ghost predicate SessionOk(slots: seq<Option<Payload>>, s: Session) {
    && s.expected <= |slots| && AllSent(slots[..s.expected]) && s.delivered == Reach(slots[..s.expected])
    && (forall n | n in s.buffer :: n < |slots| && slots[n] == Some(s.buffer[n]))
  }

  ghost predicate ReceiverOk(key: Key, slots: seq<Option<Payload>>, c: Core) {
    key in c.sessions ==> SessionOk(slots, c.sessions[key])
  }

  ghost predicate SenderOk(key: Key, w: World) {
    && (key in w.sender.sessions ==> w.begun && w.sender.sessions[key].nextSend == |w.slots|)
    && (!w.begun ==> w.slots == [] && w.written == [])
    && Reach(w.slots) <= w.written && (AllSent(w.slots) ==> Reach(w.slots) == w.written)
  }

  ghost predicate Inv(key: Key, w: World) {
    && SenderOk(key, w) && PipesOk(key, w.slots, w.outs, w.pipes)
    && HubOk(w.pipes, w.hub) && TablesFit(w.hub, w.outs)
    && ScratchOk(w.pipes, w.scratch) && ReceiverOk(key, w.slots, w.receiver)
  }

  // ---- The receiver ----

  lemma {:induction false} DrainOk(slots: seq<Option<Payload>>, s: Session)
    requires SessionOk(slots, s) && |slots| < TWO32
    ensures SessionOk(slots, Drain(s))
    decreases s.buffer.Keys
  {
    if Ready(s) {
      assert Advance(s).buffer.Keys == s.buffer.Keys - {s.expected};
      AdvanceReaches(slots, s.expected);
      hide Reach, AllSent;
      DrainOk(slots, Advance(s));
    }
  }

  /** One slot further. */
  lemma {:induction false} AdvanceReaches(slots: seq<Option<Payload>>, n: nat)
    requires n < |slots| && slots[n].Some? && AllSent(slots[..n])
    ensures AllSent(slots[..n + 1]) && Reach(slots[..n + 1]) == Reach(slots[..n]) + slots[n].value
  {
    var a, o := slots[..n], slots[n];
    assert slots[..n + 1] == a + [o];
    ReachAppend(a, [o]);
    assert Reach([o]) == o.value + [] == o.value;
  }

  lemma {:induction false} ReceiveOk(cfg: Config, key: Key, slots: seq<Option<Payload>>, c: Core, link: Link, seg: Seg)
    requires ReceiverOk(key, slots, c) && |slots| < TWO32
    requires seg.key == key && Carries(seg) ==> seg.seqNum < |slots| && slots[seg.seqNum] == Some(seg.payload)
    ensures ReceiverOk(key, slots, Receive(cfg, c, link, seg).0)
  {
    ReceiveCases(cfg, c, link, seg);
    hide Receive;
    assert slots[..0] == [];
    if seg.key == key && !seg.fin && Carries(seg) {
      DrainOk(slots, Insert(Base(cfg, c, key), seg.seqNum, seg.payload));
    }
  }

  lemma {:induction false} FrameOk(cfg: Config, key: Key, slots: seq<Option<Payload>>, c: Core, link: Link,
                                   frame: seq<u8>)
    requires ReceiverOk(key, slots, c) && |slots| < TWO32 && Genuine(key, slots, frame)
    ensures ReceiverOk(key, slots, OnFrame(cfg, c, link, frame).0)
  {
    hide Receive, SegOf, PassesCrc, SessionOk, Has;
    if IsSession(frame) {
      ReceiveOk(cfg, key, slots, c, link, SegOf(frame));
    }
  }

  lemma {:induction false} FramesOk(cfg: Config, key: Key, slots: seq<Option<Payload>>, c: Core, link: Link,
                                    frames: seq<seq<u8>>)
    requires ReceiverOk(key, slots, c) && |slots| < TWO32 && AllGenuine(key, slots, frames)
    ensures AllWellFormed(frames) && ReceiverOk(key, slots, OnFrames(cfg, c, link, frames).0)
  {
    if frames != [] {
      var n := |frames| - 1;
      FramesOk(cfg, key, slots, c, link, frames[..n]);
      FrameOk(cfg, key, slots, OnFrames(cfg, c, link, frames[..n]).0, link, frames[n]);
    }
  }

  /** More numbers in use do not change the meaning of the old ones. */
  lemma {:induction false} GrowOk(key: Key, slots: seq<Option<Payload>>, more: seq<Option<Payload>>, c: Core)
    requires ReceiverOk(key, slots, c)
    ensures ReceiverOk(key, slots + more, c)
  {
    if key in c.sessions {
      var n := c.sessions[key].expected;
      assert (slots + more)[..n] == slots[..n];
    }
  }

  lemma {:induction false} LocalOk(cfg: Config, key: Key, slots: seq<Option<Payload>>, c: Core, op: Op)
    requires ReceiverOk(key, slots, c) && Local(op)
    ensures ReceiverOk(key, slots, Step(cfg, c, op).0)
  {
    assert slots[..0] == [];
  }

  // ---- The sender ----

  /** Only sending moves the session's next number, and a new session starts at 0. */
  lemma {:induction false} AskKeepsNumber(cfg: Config, key: Key, c: Core, op: Op)
    requires !(op.Sends? && op.key == key)
    ensures var d := Step(cfg, c, op).0;
            key in d.sessions ==> d.sessions[key].nextSend == if key in c.sessions then c.sessions[key].nextSend else 0
  {
    match op
    case Arrives(link, seg) =>
      ReceiveCases(cfg, c, link, seg);
      DrainKeeps(Insert(Base(cfg, c, seg.key), seg.seqNum, seg.payload));
      hide Receive, Drain;
    case _ =>
  }

  lemma {:induction false} AskOk(x: Setting, w: World, op: Op)
    requires ValidConfig(x.near) && Inv(x.key, w) && Possible(x, w, Asks(op))
    ensures Inv(x.key, DoAct(x, w, Asks(op)))
  {
    AskKeepsNumber(x.near, x.key, w.sender, op);
    hide Step, PipesOk, HubOk, TablesFit, ScratchOk, ReceiverOk;
  }

  lemma {:induction false} SlotsSay(slots: seq<Option<Payload>>, more: seq<Option<Payload>>, written: seq<u8>,
                                    data: seq<u8>)
    requires Reach(slots) <= written && (AllSent(slots) ==> Reach(slots) == written)
    requires Reach(more) <= data && (AllSent(more) ==> Reach(more) == data)
    ensures Reach(slots + more) <= written + data && (AllSent(slots + more) ==> Reach(slots + more) == written + data)
  {
    ReachAppend(slots, more);
    AllSentAppend(slots, more);
    hide Reach, AllSent;
  }

  lemma {:induction false} CallIs(x: Setting, w: World, pools: seq<seq<Selector.LinkInfo>>, data: seq<u8>)
    requires ValidConfig(x.near) && x.key in w.sender.sessions
    ensures Possible(x, w, Calls(pools, data))
    ensures var b := DataBurst(x.near, w.sender, x.key, pools, data);
            DoAct(x, w, Calls(pools, data))
            == w.(sender := Use(w.sender, x.key, b.used), slots := w.slots + SlotsOf(b), written := w.written + data)
  {
    hide DataBurst, SlotsOf, Use;
  }

  lemma {:induction false} SenderCalls(key: Key, w: World, more: seq<Option<Payload>>, data: seq<u8>)
    requires SenderOk(key, w) && key in w.sender.sessions && |w.slots + more| < TWO32
    requires Reach(more) <= data && (AllSent(more) ==> Reach(more) == data)
    ensures SenderOk(key, w.(sender := Use(w.sender, key, |more|), slots := w.slots + more,
                             written := w.written + data))
  {
    SlotsSay(w.slots, more, w.written, data);
    hide Reach, AllSent;
  }

  lemma {:induction false} CallOk(x: Setting, w: World, pools: seq<seq<Selector.LinkInfo>>, data: seq<u8>)
    requires ValidConfig(x.near) && Inv(x.key, w)
    requires |DoAct(x, w, Calls(pools, data)).slots| < TWO32
    ensures Inv(x.key, DoAct(x, w, Calls(pools, data)))
  {
    if x.key in w.sender.sessions {
      hide *;
      var b := DataBurst(x.near, w.sender, x.key, pools, data);
      CallIs(x, w, pools, data);
      CallReach(x, w.sender, pools, data);
      InvIs(x.key, w);
      SenderCalls(x.key, w, SlotsOf(b), data);
      GrowOk(x.key, w.slots, SlotsOf(b), w.receiver);
      GenuineGrows(x.key, w.slots, SlotsOf(b), w.outs, w.pipes);
      InvIs(x.key, DoAct(x, w, Calls(pools, data)));
    }
  }

  lemma {:induction false} AllSentAppend(a: seq<Option<Payload>>, b: seq<Option<Payload>>)
    ensures AllSent(a + b) <==> AllSent(a) && AllSent(b)
  {
    assert forall o | o in a :: o in a + b;
    assert forall o | o in b :: o in a + b;
  }

  lemma {:induction false} GenuineGrows(key: Key, slots: seq<Option<Payload>>, more: seq<Option<Payload>>,
                                        outs: set<Link>,
                                        pipes: map<PipeId, Pipe>)
    requires PipesOk(key, slots, outs, pipes)
    ensures PipesOk(key, slots + more, outs, pipes)
  {
    forall p: PipeId ensures PipeOk(key, slots + more, outs, p, PipeAt(pipes, p)) {
      assert PipeOk(key, slots, outs, p, PipeAt(pipes, p));
      forall f | f in PipeAt(pipes, p).frames && Genuine(key, slots, f) ensures Genuine(key, slots + more, f) {}
    }
  }

  /** A frame that may be written to this pipe. */
  ghost predicate Fits(key: Key, slots: seq<Option<Payload>>, outs: set<Link>, next: Link, p: PipeId, frame: seq<u8>) {
    (p.Direct? || p.link < next) && WellFormed(frame) && (Forward(outs, p) ==> Genuine(key, slots, frame))
  }

  lemma {:induction false} PourPipe(key: Key, slots: seq<Option<Payload>>, outs: set<Link>, next: Link, p: PipeId,
                                    pipe: Pipe,
                                    frame: seq<u8>)
    requires PipeOk(key, slots, outs, p, pipe) && Fits(key, slots, outs, next, p, frame)
    ensures PipeOk(key, slots, outs, p, pipe.(frames := pipe.frames + [frame]))
  {
    hide Left, Bytes, Genuine, WellFormed;
    WriteKeepsLeft(pipe, frame);
  }

  /** Writing such a frame to a pipe disturbs no reader. */
  lemma {:induction false} PourOk(key: Key, slots: seq<Option<Payload>>, outs: set<Link>, pipes: map<PipeId, Pipe>,
                                  hub: T.Hub,
                                  scratch: map<Link, seq<u8>>, p: PipeId, frame: seq<u8>)
    requires PipesOk(key, slots, outs, pipes) && HubOk(pipes, hub) && ScratchOk(pipes, scratch)
    requires Fits(key, slots, outs, hub.next, p, frame)
    ensures var after := Pour(pipes, p, frame);
            PipesOk(key, slots, outs, after) && HubOk(after, hub) && ScratchOk(after, scratch)
  {
    hide Left, Bytes, Genuine, PortOf, AllGenuine, AllWellFormed;
    assert PipeOk(key, slots, outs, p, PipeAt(pipes, p));
    WriteKeepsLeft(PipeAt(pipes, p), frame);
    PourPipe(key, slots, outs, hub.next, p, PipeAt(pipes, p), frame);
    var after := Pour(pipes, p, frame);
    assert forall q: PipeId | q != p :: PipeAt(after, q) == PipeAt(pipes, q);
    assert PipeAt(after, p) == PipeAt(pipes, p).(frames := PipeAt(pipes, p).frames + [frame]);
    hide Pour, PipeAt, PipeOk;
  }

  lemma {:induction false} PourAllOk(key: Key, slots: seq<Option<Payload>>, outs: set<Link>, pipes: map<PipeId, Pipe>,
                                     hub: T.Hub,
                                     scratch: map<Link, seq<u8>>, sent: seq<T.Forwarded>)
    requires PipesOk(key, slots, outs, pipes) && HubOk(pipes, hub) && ScratchOk(pipes, scratch)
    requires forall s | s in sent :: Fits(key, slots, outs, hub.next, HubOut(s.dst), s.frame)
    ensures var after := PourAll(pipes, sent);
            PipesOk(key, slots, outs, after) && HubOk(after, hub) && ScratchOk(after, scratch)
  {
    if sent != [] {
      var n := |sent| - 1;
      PourAllOk(key, slots, outs, pipes, hub, scratch, sent[..n]);
      assert sent[n] in sent;
      PourOk(key, slots, outs, PourAll(pipes, sent[..n]), hub, scratch, HubOut(sent[n].dst), sent[n].frame);
    }
  }

  /** Reading on, at either kind of reader. */
  lemma {:induction false} AdvanceOk(key: Key, slots: seq<Option<Payload>>, outs: set<Link>, pipes: map<PipeId, Pipe>,
                                     p: PipeId,
                                     size: nat)
    requires PipesOk(key, slots, outs, pipes) && PipeAt(pipes, p).read + size <= |Bytes(PipeAt(pipes, p))|
    ensures PipesOk(key, slots, outs, Advanced(pipes, p, size))
  {
    hide Genuine, AllGenuine, AllWellFormed;
    var after := Advanced(pipes, p, size);
    assert forall q: PipeId | q != p :: PipeAt(after, q) == PipeAt(pipes, q);
    assert PipeOk(key, slots, outs, p, PipeAt(pipes, p));
  }

  lemma {:induction false} PipeIs(key: Key, slots: seq<Option<Payload>>, outs: set<Link>,
                                  pipes: map<PipeId, Pipe>, p: PipeId)
    requires PipesOk(key, slots, outs, pipes)
    ensures AllWellFormed(PipeAt(pipes, p).frames)
    ensures Forward(outs, p) ==> AllGenuine(key, slots, PipeAt(pipes, p).frames)
  {
    assert PipeOk(key, slots, outs, p, PipeAt(pipes, p));
    hide AllWellFormed, AllGenuine, Bytes;
  }

  lemma {:induction false} ReadGenuine(key: Key, slots: seq<Option<Payload>>, outs: set<Link>,
                                       pipes: map<PipeId, Pipe>, p: PipeId, size: nat)
    requires PipesOk(key, slots, outs, pipes) && PipeAt(pipes, p).read + size <= |Bytes(PipeAt(pipes, p))|
    ensures var pipe := PipeAt(pipes, p);
            var parsed := Parse(Left(pipe) + NextBytes(pipe, size));
            && parsed.rest == Left(pipe.(read := pipe.read + size)) && AllWellFormed(parsed.frames)
            && (Forward(outs, p) ==> AllGenuine(key, slots, parsed.frames))
  {
    hide *;
    var pipe := PipeAt(pipes, p);
    PipeIs(key, slots, outs, pipes, p);
    ReadOn(pipe, size);
    FewerGenuine(key, slots, Parse(Left(pipe) + NextBytes(pipe, size)).frames, pipe.frames);
  }

  lemma {:induction false} FewerGenuine(key: Key, slots: seq<Option<Payload>>, few: seq<seq<u8>>, many: seq<seq<u8>>)
    requires forall f | f in few :: f in many
    ensures AllWellFormed(many) ==> AllWellFormed(few)
    ensures AllGenuine(key, slots, many) ==> AllGenuine(key, slots, few)
  {
    hide WellFormed, Genuine;
  }

  /** The transit's reading does not concern the receiver, nor the other way round. */
  lemma {:induction false} AdvanceElsewhere(pipes: map<PipeId, Pipe>, p: PipeId, size: nat, hub: T.Hub,
                                            scratch: map<Link, seq<u8>>)
    requires p.Direct? || p.link < hub.next
    ensures p.HubIn? && ScratchOk(pipes, scratch) ==> ScratchOk(Advanced(pipes, p, size), scratch)
    ensures !p.HubIn? && HubOk(pipes, hub) ==> HubOk(Advanced(pipes, p, size), hub)
  {
    assert forall q: PipeId | q != p :: PipeAt(Advanced(pipes, p, size), q) == PipeAt(pipes, q);
    hide Left, Bytes, Advanced, PortOf, PipeAt;
  }

  lemma {:induction false} HubBuffer(pipes: map<PipeId, Pipe>, hub: T.Hub, link: Link)
    requires HubOk(pipes, hub)
    ensures forall l | l in hub.links :: l < hub.next
    ensures link in hub.links ==> hub.links[link].buffer == Left(PipeAt(pipes, HubIn(link)))
  {
    hide Left, PipeAt;
  }

  lemma {:induction false} HubAdvances(x: Setting, w: World, link: Link, size: nat)
    requires PipesOk(x.key, w.slots, w.outs, w.pipes) && HubOk(w.pipes, w.hub) && link < w.hub.next
    requires PipeAt(w.pipes, HubIn(link)).read + size <= |Bytes(PipeAt(w.pipes, HubIn(link)))|
    ensures HubOk(Advanced(w.pipes, HubIn(link), size),
                  T.OnBytes(x.hello, w.hub, link, NextBytes(PipeAt(w.pipes, HubIn(link)), size)).0)
  {
    hide *;
    HubBuffer(w.pipes, w.hub, link);
    HubKeeps(x, w, link, size);
    AdvanceHub(w.pipes, w.hub, T.OnBytes(x.hello, w.hub, link, NextBytes(PipeAt(w.pipes, HubIn(link)), size)).0, link,
               size);
  }

  lemma {:induction false} HubReadPipes(x: Setting, w: World, link: Link, size: nat)
    requires PipesOk(x.key, w.slots, w.outs, w.pipes) && HubOk(w.pipes, w.hub) && TablesFit(w.hub, w.outs)
    requires ScratchOk(w.pipes, w.scratch) && link < w.hub.next
    requires PipeAt(w.pipes, HubIn(link)).read + size <= |Bytes(PipeAt(w.pipes, HubIn(link)))|
    ensures var (hub, sent) := T.OnBytes(x.hello, w.hub, link, NextBytes(PipeAt(w.pipes, HubIn(link)), size));
            var after := PourAll(Advanced(w.pipes, HubIn(link), size), sent);
            PipesOk(x.key, w.slots, w.outs, after) && HubOk(after, hub) && TablesFit(hub, w.outs)
            && ScratchOk(after, w.scratch)
  {
    var (hub, sent) := T.OnBytes(x.hello, w.hub, link, NextBytes(PipeAt(w.pipes, HubIn(link)), size));
    hide *;
    HubBuffer(w.pipes, w.hub, link);
    AdvanceOk(x.key, w.slots, w.outs, w.pipes, HubIn(link), size);
    AdvanceElsewhere(w.pipes, HubIn(link), size, w.hub, w.scratch);
    HubSends(x, w, link, size);
    HubAdvances(x, w, link, size);
    BytesFit(x, w.hub, w.outs, link, NextBytes(PipeAt(w.pipes, HubIn(link)), size));
    PourAllOk(x.key, w.slots, w.outs, Advanced(w.pipes, HubIn(link), size), hub, w.scratch, sent);
  }

  lemma {:induction false} HubReadOk(x: Setting, w: World, link: Link, size: nat)
    requires ValidConfig(x.near) && Inv(x.key, w) && Possible(x, w, HubReads(link, size))
    ensures Inv(x.key, DoAct(x, w, HubReads(link, size)))
  {
    InvIs(x.key, w);
    HubReadIs(x, w, link, size);
    assert link < w.hub.next && PipeAt(w.pipes, HubIn(link)).read + size <= |Bytes(PipeAt(w.pipes, HubIn(link)))|;
    hide *;
    HubReadPipes(x, w, link, size);
    var w' := DoAct(x, w, HubReads(link, size));
    SenderIgnores(x.key, w, w');
    InvIs(x.key, w');
  }

  lemma {:induction false} HubReadIs(x: Setting, w: World, link: Link, size: nat)
    requires ValidConfig(x.near) && Possible(x, w, HubReads(link, size))
    ensures var (hub, sent) := T.OnBytes(x.hello, w.hub, link, NextBytes(PipeAt(w.pipes, HubIn(link)), size));
            DoAct(x, w, HubReads(link, size))
            == w.(hub := hub, pipes := PourAll(Advanced(w.pipes, HubIn(link), size), sent))
  {
    hide T.OnBytes, PourAll, Advanced, NextBytes;
  }

  lemma {:induction false} InvIs(key: Key, w: World)
    ensures Inv(key, w) <==> SenderOk(key, w) && PipesOk(key, w.slots, w.outs, w.pipes) && HubOk(w.pipes, w.hub)
                             && TablesFit(w.hub, w.outs) && ScratchOk(w.pipes, w.scratch)
                             && ReceiverOk(key, w.slots, w.receiver)
  {}

  lemma {:induction false} SenderIgnores(key: Key, w: World, w': World)
    requires SenderOk(key, w) && w'.sender == w.sender && w'.begun == w.begun && w'.slots == w.slots
            && w'.written == w.written
    ensures SenderOk(key, w')
  {}

  /** Reading on keeps step with the buffer, if only that buffer moves. */
  lemma {:induction false} AdvanceHub(pipes: map<PipeId, Pipe>, hub: T.Hub, hub': T.Hub, link: Link, size: nat)
    requires HubOk(pipes, hub) && hub'.next == hub.next && link < hub.next
    requires forall l :: l in hub'.links <==> l in hub.links
    requires forall l | l in hub.links && l != link :: hub'.links[l].buffer == hub.links[l].buffer
    requires link in hub.links ==>
               hub'.links[link].buffer
               == Left(PipeAt(pipes, HubIn(link)).(read := PipeAt(pipes, HubIn(link)).read + size))
    ensures HubOk(Advanced(pipes, HubIn(link), size), hub')
  {
    assert forall l: Link | l != link ::
             PipeAt(Advanced(pipes, HubIn(link), size), HubIn(l)) == PipeAt(pipes, HubIn(l));
    assert PipeAt(Advanced(pipes, HubIn(link), size), HubIn(link))
        == PipeAt(pipes, HubIn(link)).(read := PipeAt(pipes, HubIn(link)).read + size);
    hide Left, Advanced, PipeAt;
  }

  /** What the transit sends after reading on: only what it has read, and only from Inport
      links to Outport links or the other way round. */
  lemma {:induction false} HubSends(x: Setting, w: World, link: Link, size: nat)
    requires PipesOk(x.key, w.slots, w.outs, w.pipes) && TablesFit(w.hub, w.outs)
    requires forall l | l in w.hub.links :: l < w.hub.next
    requires var pipe := PipeAt(w.pipes, HubIn(link));
             pipe.read + size <= |Bytes(pipe)| && (link in w.hub.links ==> w.hub.links[link].buffer == Left(pipe))
    ensures var (hub, sent) := T.OnBytes(x.hello, w.hub, link, NextBytes(PipeAt(w.pipes, HubIn(link)), size));
            forall s | s in sent :: Fits(x.key, w.slots, w.outs, hub.next, HubOut(s.dst), s.frame)
  {
    var pipe := PipeAt(w.pipes, HubIn(link));
    var bytes := NextBytes(pipe, size);
    var (hub, sent) := T.OnBytes(x.hello, w.hub, link, bytes);
    var frames := Parse(Left(pipe) + bytes).frames;
    hide Parse, T.OnBytes, Genuine, NextBytes, Bytes, Left, PipesOk, PipeAt, WellFormed;
    ReadGenuine(x.key, w.slots, w.outs, w.pipes, HubIn(link), size);
    TransitRuns.OnBytesForwards(x.hello, w.hub, link, bytes);
    TransitRuns.OnBytesCrosses(x.hello, w.hub, link, bytes);
    hide TransitRuns.TablesOk;
    forall s | s in sent ensures Fits(x.key, w.slots, w.outs, hub.next, HubOut(s.dst), s.frame) {
      assert s.frame in frames && s.dst in w.hub.links;
    }
  }

  /** And it keeps the rest of what it reads. */
  lemma {:induction false} HubKeeps(x: Setting, w: World, link: Link, size: nat)
    requires PipesOk(x.key, w.slots, w.outs, w.pipes)
    requires var pipe := PipeAt(w.pipes, HubIn(link));
             pipe.read + size <= |Bytes(pipe)| && (link in w.hub.links ==> w.hub.links[link].buffer == Left(pipe))
    ensures var pipe := PipeAt(w.pipes, HubIn(link));
            var hub := T.OnBytes(x.hello, w.hub, link, NextBytes(pipe, size)).0;
            && hub.next == w.hub.next && (forall l :: l in hub.links <==> l in w.hub.links)
            && (forall l | l in w.hub.links && l != link :: hub.links[l].buffer == w.hub.links[l].buffer)
            && (link in w.hub.links ==> hub.links[link].buffer == Left(pipe.(read := pipe.read + size)))
  {
    hide *;
    ReadGenuine(x.key, w.slots, w.outs, w.pipes, HubIn(link), size);
    TransitRuns.OnBytesForwards(x.hello, w.hub, link, NextBytes(PipeAt(w.pipes, HubIn(link)), size));
  }

  lemma {:induction false} BytesFit(x: Setting, hub: T.Hub, outs: set<Link>, link: Link, bytes: seq<u8>)
    requires TablesFit(hub, outs)
    ensures TablesFit(T.OnBytes(x.hello, hub, link, bytes).0, outs)
  {
    TransitRuns.BytesSound(x.hello, hub, link, bytes);
    TransitRuns.OnBytesForwards(x.hello, hub, link, bytes);
    TransitRuns.OnBytesKeepsSides(x.hello, hub, link, bytes);
    hide T.OnBytes, TransitRuns.TablesOk;
  }

  lemma {:induction false} HubDoesOk(x: Setting, w: World, event: T.HubEvent)
    requires ValidConfig(x.near) && Inv(x.key, w) && Possible(x, w, HubDoes(event))
    ensures Inv(x.key, DoAct(x, w, HubDoes(event)))
  {
    var hub, outs := T.Step(x.hello, w.hub, event).0, Dialed(w.outs, w.hub, event);
    var w' := w.(hub := hub, outs := outs);
    assert DoAct(x, w, HubDoes(event)) == w';
    InvIs(x.key, w);
    TransitRuns.OtherLinks(x.hello, w.hub, event);
    StepTablesFit(x, w.hub, w.outs, event);
    hide Step, OnFrames, T.Step, T.OnBytes, DataBurst, Left, PipesOk, ScratchOk, HubOk, ReceiverOk, SenderOk, PipeAt,
        TablesFit;
    StepHubOk(w.pipes, w.hub, hub);
    DialedOk(x.key, w.slots, w.outs, w.pipes, w.hub, event);
    SenderIgnores(x.key, w, w');
    InvIs(x.key, w');
  }

  lemma {:induction false} StepTablesFit(x: Setting, hub: T.Hub, outs: set<Link>, event: T.HubEvent)
    requires TablesFit(hub, outs) && !event.Bytes? && T.Enabled(hub, event)
    ensures TablesFit(T.Step(x.hello, hub, event).0, Dialed(outs, hub, event))
  {
    TransitRuns.StepTables(x.hello, hub, event);
    TransitRuns.StepClosing(x.hello, hub, event);
    TransitRuns.OtherLinks(x.hello, hub, event);
    hide T.Step, TransitRuns.TablesOk, TransitRuns.ClosingKnown;
  }

  /** A link that is dialed now has carried nothing yet. */
  lemma {:induction false} DialedOk(key: Key, slots: seq<Option<Payload>>, outs: set<Link>, pipes: map<PipeId, Pipe>,
                                    hub: T.Hub,
                                    event: T.HubEvent)
    requires PipesOk(key, slots, outs, pipes) && HubOk(pipes, hub)
    ensures PipesOk(key, slots, Dialed(outs, hub, event), pipes)
  {
    forall p: PipeId ensures PipeOk(key, slots, Dialed(outs, hub, event), p, PipeAt(pipes, p)) {
      assert PipeOk(key, slots, outs, p, PipeAt(pipes, p));
      hide Genuine, Bytes;
    }
  }

  /** A link that is registered afresh starts with an empty buffer, before any of its bytes. */
  lemma {:induction false} StepHubOk(pipes: map<PipeId, Pipe>, hub: T.Hub, hub': T.Hub)
    requires HubOk(pipes, hub) && hub.next <= hub'.next
    requires forall l | l in hub'.links :: (l in hub.links && hub'.links[l] == hub.links[l])
                                          || (l == hub.next < hub'.next && hub'.links[l].buffer == [])
    ensures HubOk(pipes, hub')
  {
    assert Bytes(UNUSED)[..0] == [];
    assert Left(UNUSED) == [];
    hide Left, PipeAt;
  }

  lemma {:induction false} WriteOk(x: Setting, w: World, p: PipeId, frame: seq<u8>)
    requires ValidConfig(x.near) && Inv(x.key, w) && Possible(x, w, Writes(p, frame))
    ensures Inv(x.key, DoAct(x, w, Writes(p, frame)))
  {
    hide Pour, PipesOk, HubOk, TablesFit, ScratchOk, ReceiverOk, SenderOk, Genuine, WellFormed, Forward;
    PourOk(x.key, w.slots, w.outs, w.pipes, w.hub, w.scratch, p, frame);
    SenderIgnores(x.key, w, w.(pipes := Pour(w.pipes, p, frame)));
  }

  lemma {:induction false} DoesOk(x: Setting, w: World, op: Op)
    requires ValidConfig(x.near) && Inv(x.key, w) && Possible(x, w, Does(op))
    ensures Inv(x.key, DoAct(x, w, Does(op)))
  {
    LocalOk(x.far, x.key, w.slots, w.receiver, op);
    SenderIgnores(x.key, w, w.(receiver := Step(x.far, w.receiver, op).0));
    hide Step, PipesOk, HubOk, TablesFit, ScratchOk, ReceiverOk, SenderOk;
  }

  lemma {:induction false} ScratchAdvanceOk(pipes: map<PipeId, Pipe>, scratch: map<Link, seq<u8>>, p: PipeId, size: nat)
    requires ScratchOk(pipes, scratch) && !p.HubIn?
    ensures ScratchOk(Advanced(pipes, p, size),
                      scratch[PortOf(p) := Left(PipeAt(pipes, p).(read := PipeAt(pipes, p).read + size))])
  {
    assert forall q: PipeId | q != p :: PipeAt(Advanced(pipes, p, size), q) == PipeAt(pipes, q);
    assert PipeAt(Advanced(pipes, p, size), p) == PipeAt(pipes, p).(read := PipeAt(pipes, p).read + size);
    hide Left, PortOf, Advanced, PipeAt;
    forall q: PipeId | !q.HubIn? ensures PortOf(q) == PortOf(p) ==> q == p {
      if PortOf(q) == PortOf(p) { PortsDiffer(p, q); }
    }
  }

  lemma {:induction false} ReadIs(x: Setting, w: World, p: PipeId, size: nat)
    requires ValidConfig(x.near) && ScratchOk(w.pipes, w.scratch) && Possible(x, w, Reads(p, size))
    ensures var pipe := PipeAt(w.pipes, p);
            var parsed := Parse(Left(pipe) + NextBytes(pipe, size));
            AllWellFormed(parsed.frames)
            && DoAct(x, w, Reads(p, size))
               == w.(pipes := Advanced(w.pipes, p, size), scratch := w.scratch[PortOf(p) := parsed.rest],
                     receiver := OnFrames(x.far, w.receiver, PortOf(p), parsed.frames).0)
  {
    hide Left, Parse, NextBytes, OnFrames, Advanced, PipeAt, PortOf;
    assert Held(w.scratch, PortOf(p)) == Left(PipeAt(w.pipes, p));
    ParseWellFormed(Left(PipeAt(w.pipes, p)) + NextBytes(PipeAt(w.pipes, p), size));
  }

  lemma {:induction false} ReadPipes(key: Key, slots: seq<Option<Payload>>, outs: set<Link>, pipes: map<PipeId, Pipe>,
                                     hub: T.Hub,
                                     scratch: map<Link, seq<u8>>, p: PipeId, size: nat)
    requires PipesOk(key, slots, outs, pipes) && HubOk(pipes, hub) && ScratchOk(pipes, scratch)
    requires !p.HubIn? && Forward(outs, p) && (p.Direct? || p.link < hub.next)
    requires PipeAt(pipes, p).read + size <= |Bytes(PipeAt(pipes, p))|
    ensures var parsed := Parse(Left(PipeAt(pipes, p)) + NextBytes(PipeAt(pipes, p), size));
            && AllGenuine(key, slots, parsed.frames) && PipesOk(key, slots, outs, Advanced(pipes, p, size))
            && HubOk(Advanced(pipes, p, size), hub)
            && ScratchOk(Advanced(pipes, p, size), scratch[PortOf(p) := parsed.rest])
  {
    hide *;
    AdvanceOk(key, slots, outs, pipes, p, size);
    AdvanceElsewhere(pipes, p, size, hub, scratch);
    ReadGenuine(key, slots, outs, pipes, p, size);
    ScratchAdvanceOk(pipes, scratch, p, size);
  }

  lemma {:induction false} ReadOk(x: Setting, w: World, p: PipeId, size: nat)
    requires ValidConfig(x.near) && Inv(x.key, w) && Possible(x, w, Reads(p, size)) && |w.slots| < TWO32
    ensures Inv(x.key, DoAct(x, w, Reads(p, size)))
  {
    InvIs(x.key, w);
    assert Forward(w.outs, p) && (p.Direct? || p.link < w.hub.next);
    ReadIs(x, w, p, size);
    hide *;
    ReadPipes(x.key, w.slots, w.outs, w.pipes, w.hub, w.scratch, p, size);
    var w' := DoAct(x, w, Reads(p, size));
    var frames := Parse(Left(PipeAt(w.pipes, p)) + NextBytes(PipeAt(w.pipes, p), size)).frames;
    FramesOk(x.far, x.key, w.slots, w.receiver, PortOf(p), frames);
    SenderIgnores(x.key, w, w');
    InvIs(x.key, w');
  }

  lemma {:induction false} ActOk(x: Setting, w: World, a: Act)
    requires ValidConfig(x.near) && Inv(x.key, w) && Possible(x, w, a) && |DoAct(x, w, a).slots| < TWO32
    ensures Inv(x.key, DoAct(x, w, a)) && |w.slots| <= |DoAct(x, w, a).slots|
  {
    match a
    case Asks(op) => AskOk(x, w, op);
    case Calls(pools, data) => CallOk(x, w, pools, data);
    case Writes(p, frame) => WriteOk(x, w, p, frame);
    case HubReads(link, size) => HubReadOk(x, w, link, size);
    case HubDoes(event) => HubDoesOk(x, w, event);
    case Reads(p, size) => ReadOk(x, w, p, size);
    case Does(op) => DoesOk(x, w, op);
  }

  lemma {:induction false} StartOk(key: Key)
    ensures Inv(key, BEGINNING)
  {
    assert Bytes(UNUSED)[..0] == [];
    assert Left(UNUSED) == [];
  }

  lemma {:induction false} RunOk(x: Setting, acts: seq<Act>)
    requires ValidConfig(x.near) && WorldAfter(x, acts).Some? && |WorldAfter(x, acts).value.slots| < TWO32
    ensures Inv(x.key, WorldAfter(x, acts).value)
  {
    if acts == [] {
      StartOk(x.key);
    } else {
      var w, a := WorldAfter(x, acts[..|acts| - 1]).value, acts[|acts| - 1];
      SlotsGrow(x, w, a);
      RunOk(x, acts[..|acts| - 1]);
      ActOk(x, w, a);
    }
  }

  lemma {:induction false} SlotsGrow(x: Setting, w: World, a: Act)
    requires ValidConfig(x.near) && Possible(x, w, a)
    ensures |w.slots| <= |DoAct(x, w, a).slots|
  {
    hide Step, OnFrames, T.Step, T.OnBytes, DataBurst, Genuine, Parse;
  }

  // ---- What the handler sees ----

  /** End to end, on every run with loss, duplication, reordering across links, any
      fragmentation and any link failures, directly or through a transit: the bytes
      given to the session's handler are a prefix of the bytes that the application
      passed to sendSessionData. This holds for each incarnation at the receiver,
      while the session has used fewer than 2^32 numbers. */
  lemma {:induction false} PrefixSafety(x: Setting, acts: seq<Act>)
    requires ValidConfig(x.near) && WorldAfter(x, acts).Some? && |WorldAfter(x, acts).value.slots| < TWO32
    ensures var w := WorldAfter(x, acts).value;
            x.key in w.receiver.sessions ==> w.receiver.sessions[x.key].delivered <= w.written
  {
    hide WorldAfter;
    RunOk(x, acts);
    var w := WorldAfter(x, acts).value;
    InvIs(x.key, w);
    assert Reach(w.slots) <= w.written;
    if x.key in w.receiver.sessions {
      SessionReaches(w.slots, w.receiver.sessions[x.key]);
      hide SessionOk, Reach;
    }
  }

  lemma {:induction false} SessionReaches(slots: seq<Option<Payload>>, s: Session)
    requires SessionOk(slots, s)
    ensures s.delivered <= Reach(slots)
  {
    ReachAppend(slots[..s.expected], slots[s.expected..]);
    assert slots == slots[..s.expected] + slots[s.expected..];
  }

  lemma {:induction false} GivenOther(events: seq<Event>, key: Key)
    requires forall e | e in events :: e.key != key
    ensures Given(events, key) == []
  {
    if events != [] {
      assert events[0] in events;
      GivenOther(events[1..], key);
    }
  }

  /** The bytes that one genuine segment makes the handler see come next, even if the
      handler closes its session while it gets them. */
  lemma {:induction false} SegmentGives(cfg: Config, key: Key, slots: seq<Option<Payload>>, c: Core, link: Link,
                                        seg: Seg)
    requires ReceiverOk(key, slots, c) && |slots| < TWO32
    requires seg.key == key && Carries(seg) ==> seg.seqNum < |slots| && slots[seg.seqNum] == Some(seg.payload)
    ensures Base(cfg, c, key).delivered + Given(Receive(cfg, c, link, seg).1, key) <= Reach(slots)
  {
    var base := Base(cfg, c, key);
    assert slots[..0] == [];
    assert SessionOk(slots, base);
    SessionReaches(slots, base);
    if seg.key == key {
      ReceiveGives(cfg, c, link, seg);
      if Carries(seg) {
        var s := Insert(base, seg.seqNum, seg.payload);
        DrainOk(slots, s);
        SessionReaches(slots, Deliver(s));
      }
    } else {
      Isolation.ProcessOwn(cfg, Noted(cfg, c, link, seg), seg);
      GivenOther(Receive(cfg, c, link, seg).1, key);
    }
    hide Receive, Deliver, SessionOk, Reach, Base, Given;
    assert base.delivered + [] == base.delivered;
  }

  lemma {:induction false} FrameGives(cfg: Config, key: Key, slots: seq<Option<Payload>>, c: Core, link: Link,
                                      frame: seq<u8>)
    requires ReceiverOk(key, slots, c) && |slots| < TWO32 && Genuine(key, slots, frame)
    ensures Base(cfg, c, key).delivered + Given(OnFrame(cfg, c, link, frame).1, key) <= Reach(slots)
  {
    assert slots[..0] == [];
    assert SessionOk(slots, Base(cfg, c, key));
    SessionReaches(slots, Base(cfg, c, key));
    hide Receive, SegOf, PassesCrc, SessionOk, Has, Base, Reach;
    assert Base(cfg, c, key).delivered + [] == Base(cfg, c, key).delivered;
    if IsSession(frame) {
      SegmentGives(cfg, key, slots, c, link, SegOf(frame));
    }
  }

  /** What the receiver reads next is genuine. */
  lemma {:induction false} ReaderGets(x: Setting, w: World, p: PipeId, size: nat)
    requires Inv(x.key, w) && Possible(x, w, Reads(p, size))
    ensures var frames := Parse(Held(w.scratch, PortOf(p)) + NextBytes(PipeAt(w.pipes, p), size)).frames;
            AllWellFormed(frames) && AllGenuine(x.key, w.slots, frames)
  {
    InvIs(x.key, w);
    assert Forward(w.outs, p) && !p.HubIn?;
    assert Held(w.scratch, PortOf(p)) == Left(PipeAt(w.pipes, p));
    hide *;
    ReadGenuine(x.key, w.slots, w.outs, w.pipes, p, size);
  }

  lemma {:induction false} PrefixGenuine(key: Key, slots: seq<Option<Payload>>, frames: seq<seq<u8>>, i: nat)
    requires i < |frames| && AllWellFormed(frames) && AllGenuine(key, slots, frames)
    ensures AllWellFormed(frames[..i]) && AllGenuine(key, slots, frames[..i])
    ensures WellFormed(frames[i]) && Genuine(key, slots, frames[i])
  {
    hide WellFormed, Genuine;
  }

  lemma {:induction false} WrittenReaches(key: Key, w: World)
    requires SenderOk(key, w)
    ensures Reach(w.slots) <= w.written
  {}

  /** The same seen from the handler: whenever a frame makes the receiver call it, what
      it had before in this incarnation and the new bytes are together a prefix of
      what was written. */
  lemma {:induction false} HandlerSeesPrefix(x: Setting, acts: seq<Act>, p: PipeId, size: nat, i: nat)
    requires ValidConfig(x.near) && WorldAfter(x, acts).Some? && |WorldAfter(x, acts).value.slots| < TWO32
    requires Possible(x, WorldAfter(x, acts).value, Reads(p, size))
    requires var w := WorldAfter(x, acts).value;
             i < |Parse(Held(w.scratch, PortOf(p)) + NextBytes(PipeAt(w.pipes, p), size)).frames|
    ensures var w := WorldAfter(x, acts).value;
            var frames := Parse(Held(w.scratch, PortOf(p)) + NextBytes(PipeAt(w.pipes, p), size)).frames;
            && AllWellFormed(frames[..i]) && WellFormed(frames[i])
            && (var c := OnFrames(x.far, w.receiver, PortOf(p), frames[..i]).0;
                Base(x.far, c, x.key).delivered + Given(OnFrame(x.far, c, PortOf(p), frames[i]).1, x.key) <= w.written)
  {
    var w := WorldAfter(x, acts).value;
    var frames := Parse(Held(w.scratch, PortOf(p)) + NextBytes(PipeAt(w.pipes, p), size)).frames;
    hide *;
    RunOk(x, acts);
    InvIs(x.key, w);
    ReaderGets(x, w, p, size);
    PrefixGenuine(x.key, w.slots, frames, i);
    WrittenReaches(x.key, w);
    FramesOk(x.far, x.key, w.slots, w.receiver, PortOf(p), frames[..i]);
    FrameGives(x.far, x.key, w.slots, OnFrames(x.far, w.receiver, PortOf(p), frames[..i]).0, PortOf(p), frames[i]);
  }

  lemma {:induction false} AllSentAt(slots: seq<Option<Payload>>, n: nat)
    requires n <= |slots| && AllSent(slots[..n])
    ensures forall i | 0 <= i < n :: slots[i].Some?
  {
    assert forall i | 0 <= i < n :: slots[..n][i] in slots[..n];
  }

  /** A failed send uses up a number that never reaches the wire: the receiver stops
      at that gap, and neither holds nor delivers anything under that number. */
  lemma {:induction false} StopsAtGap(x: Setting, acts: seq<Act>, gap: nat)
    requires ValidConfig(x.near) && WorldAfter(x, acts).Some? && |WorldAfter(x, acts).value.slots| < TWO32
    requires gap < |WorldAfter(x, acts).value.slots| && WorldAfter(x, acts).value.slots[gap] == None
    ensures var w := WorldAfter(x, acts).value;
            x.key in w.receiver.sessions ==>
              && w.receiver.sessions[x.key].expected <= gap && gap !in w.receiver.sessions[x.key].buffer
              && w.receiver.sessions[x.key].delivered <= Reach(w.slots[..gap])
  {
    RunOk(x, acts);
    var w := WorldAfter(x, acts).value;
    InvIs(x.key, w);
    hide WorldAfter, Inv, SessionOk, Reach;
    if x.key in w.receiver.sessions {
      SessionStops(w.slots, w.receiver.sessions[x.key], gap);
    }
  }

  lemma {:induction false} SessionStops(slots: seq<Option<Payload>>, s: Session, gap: nat)
    requires SessionOk(slots, s) && gap < |slots| && slots[gap] == None
    ensures s.expected <= gap && gap !in s.buffer && s.delivered <= Reach(slots[..gap])
  {
    var n := s.expected;
    AllSentAt(slots, n);
    assert n <= gap;
    ReachAppend(slots[..n], slots[n..gap]);
    assert slots[..gap] == slots[..n] + slots[n..gap];
  }

  // ---- The sender's frames ----

  lemma {:induction false} PiecesGenuine(cfg: Config, key: Key, slots: seq<Option<Payload>>, pieces: seq<Piece>)
    requires forall p | p in pieces :: p.seqNum < |slots| && slots[p.seqNum] == Some(p.payload)
    ensures forall f | f in PieceFrames(cfg, key, pieces) :: Genuine(key, slots, f) && Intact(f)
  {
    if pieces != [] {
      var n := |pieces| - 1;
      PiecesGenuine(cfg, key, slots, pieces[..n]);
      SegmentReads(cfg, key, pieces[n].seqNum, FLAG_DATA, pieces[n].payload);
      assert pieces[n] in pieces;
      hide SegmentFrame, Intact;
    }
  }

  /** Every frame of a sendSessionData call may be written to any links, any number
      of times and at any later time, and passes the receiver's checksum. */
  lemma {:induction false} CallFramesGenuine(x: Setting, w: World, pools: seq<seq<Selector.LinkInfo>>, data: seq<u8>)
    requires ValidConfig(x.near) && SenderOk(x.key, w) && x.key in w.sender.sessions
    requires |DoAct(x, w, Calls(pools, data)).slots| < TWO32
    ensures var b := DataBurst(x.near, w.sender, x.key, pools, data);
            forall f | f in PieceFrames(x.near, x.key, b.pieces) ::
              Genuine(x.key, DoAct(x, w, Calls(pools, data)).slots, f) && Intact(f)
  {
    var b := DataBurst(x.near, w.sender, x.key, pools, data);
    var next := w.sender.sessions[x.key].nextSend;
    SentPieces(pools, 0, next, Chunks(data, x.near.segment));
    MadeAt(b.pieces);
    hide SendChunks, Chunks, Made, Genuine, Step, OnFrames, T.OnBytes, T.Step;
    assert |w.slots| + |b.pieces| <= |DoAct(x, w, Calls(pools, data)).slots|;
    NumberedSlots(w.slots, b);
    PiecesGenuine(x.near, x.key, w.slots + SlotsOf(b), b.pieces);
  }

  lemma {:induction false} NumberIs(next: u32, i: nat)
    requires next + i < TWO32
    ensures Number(next, i) == next + i
  {}

  lemma {:induction false} NumberedSlots(slots: seq<Option<Payload>>, b: Burst)
    requires |slots| + |b.pieces| < TWO32
    requires forall i | 0 <= i < |b.pieces| :: b.pieces[i].seqNum == Number(|slots|, i)
    ensures forall p | p in b.pieces ::
              p.seqNum < |slots + SlotsOf(b)| && (slots + SlotsOf(b))[p.seqNum] == Some(p.payload)
  {
    MadeAt(b.pieces);
    forall p | p in b.pieces
      ensures p.seqNum < |slots + SlotsOf(b)| && (slots + SlotsOf(b))[p.seqNum] == Some(p.payload)
    {
      var i: nat :| i < |b.pieces| && b.pieces[i] == p;
      NumberIs(|slots|, i);
      hide Number, Made;
      assert SlotsOf(b)[i] == Made(b.pieces)[i];
    }
  }

  /** So may the segments that open and close a session, whatever number they use. */
  lemma {:induction false} ControlGenuine(x: Setting, key: Key, slots: seq<Option<Payload>>, n: u32, flags: bv8)
    requires flags == FLAG_SYN || flags == FLAG_FIN
    ensures Genuine(x.key, slots, SegmentFrame(x.near, key, n, flags, []))
  {
    SegmentReads(x.near, key, n, flags, []);
    hide SegmentFrame;
  }
}
