/** Runs of a DataStream: what every reachable state keeps. */
module Runs {
  import opened Words
  import opened Segment
  import opened Framing
  import opened Reassembly
  import opened Race
  import opened StreamSpec

  /** One event at a DataStream: a session segment or a control payload that
      passed the checksum, or a local call. */
  datatype Op =
    | Arrives(link: Link, seg: Seg)
    | Greets(link: Link, payload: seq<u8>)
    | Advises(payload: seq<u8>)
    | Opens(key: Key, handler: bool)
    | Sends(key: Key, count: nat)
    | Closes(key: Key)
    | Beats

  ghost function Step(cfg: Config, c: Core, op: Op): (Core, seq<Event>) {
    match op
    case Arrives(link, seg) => Receive(cfg, c, link, seg)
    case Greets(link, payload) => (OnHello(cfg, c, link, payload), [])
    case Advises(payload) => (OnAck(cfg, c, payload), [])
    case Opens(key, handler) => (StreamSpec.Open(c, key, handler), [])
    case Sends(key, count) => (Use(c, key, count), [])
    case Closes(key) => Close(c, key)
    case Beats => (Heartbeat(c).0, [])
  }

  ghost function Run(cfg: Config, ops: seq<Op>): Core {
    if ops == [] then START else Step(cfg, Run(cfg, ops[..|ops| - 1]), ops[|ops| - 1]).0
  }

  /** The run goes on from state c. */
  ghost function Continue(cfg: Config, c: Core, ops: seq<Op>): Core {
    if ops == [] then c else Step(cfg, Continue(cfg, c, ops[..|ops| - 1]), ops[|ops| - 1]).0
  }

  lemma {:induction false} RunSnoc(cfg: Config, ops: seq<Op>, op: Op)
    ensures Run(cfg, ops + [op]) == Step(cfg, Run(cfg, ops), op).0
  {
    assert (ops + [op])[..|ops|] == ops;
  }

  lemma {:induction false} RunAppend(cfg: Config, a: seq<Op>, b: seq<Op>)
    ensures Run(cfg, a + b) == Continue(cfg, Run(cfg, a), b)
  {
    if b == [] {
      assert a + b == a;
    } else {
      var init := b[..|b| - 1];
      assert (a + b)[..|a + b| - 1] == a + init;
      RunAppend(cfg, a, init);
      hide Step;
    }
  }

  /** Every frame of the receive path is one of these events, or none. */
  function OpOf(cfg: Config, link: Link, frame: seq<u8>): Option<Op>
    requires WellFormed(frame)
  {
    var flags := HdrOf(frame).flags;
    if cfg.verify && !Intact(frame) then None
    else if Has(flags, FLAG_HELLO) then Some(Greets(link, PayloadOf(frame)))
    else if Has(flags, FLAG_HEARTBEAT) then None
    else if Has(flags, FLAG_ACK) then Some(Advises(PayloadOf(frame)))
    else Some(Arrives(link, SegOf(frame)))
  }

  lemma {:induction false} OnFrameIsStep(cfg: Config, c: Core, link: Link, frame: seq<u8>)
    requires WellFormed(frame)
    ensures OnFrame(cfg, c, link, frame)
         == match OpOf(cfg, link, frame) case None => (c, []) case Some(op) => Step(cfg, c, op)
  {
    hide Receive, CrcOk, SegOf, Has;
  }

  /** With verification on, a frame that is not intact changes nothing and tells nobody. */
  lemma {:induction false} CorruptLeavesNoTrace(cfg: Config, c: Core, link: Link, frame: seq<u8>)
    requires WellFormed(frame) && cfg.verify && !Intact(frame)
    ensures OnFrame(cfg, c, link, frame) == (c, [])
  {}

  /** A session frame that is intact, or any with verification off, is received as its segment. */
  lemma {:induction false} SessionFrameReceived(cfg: Config, c: Core, link: Link, frame: seq<u8>)
    requires WellFormed(frame) && IsSession(frame) && (Intact(frame) || !cfg.verify)
    ensures OnFrame(cfg, c, link, frame) == Receive(cfg, c, link, SegOf(frame))
  {
    hide Receive, SegOf, Has;
  }

  /** So a burst error in an intact frame, confined to four consecutive bytes of what the
      checksum covers or of the checksum, leaves no trace at the receiver. */
  lemma {:induction false} BurstLeavesNoTrace(cfg: Config, c: Core, link: Link, a: seq<u8>, b: seq<u8>, i: nat, w: nat)
    requires cfg.verify && Intact(a) && WellFormed(b) && Burst(a, b, i)
    requires WidthOf(a) == WidthOf(b) == w && HdrOf(a).payloadLen == HdrOf(b).payloadLen
    requires a[w - 4..w] == b[w - 4..w] || (a[..w - 4] == b[..w - 4] && a[w..] == b[w..])
    ensures OnFrame(cfg, c, link, b) == (c, [])
  {
    BurstRejected(a, b, i, w);
    hide Intact, Burst;
    CorruptLeavesNoTrace(cfg, c, link, b);
  }

  // ---- Frames of the callbacks ----

  /** Nothing but the entry of key differs. */
  ghost predicate OnlyEntry(c: Core, d: Core, key: Key) {
    && d == c.(sessions := d.sessions)
    && (forall k | k != key :: k in d.sessions <==> k in c.sessions)
    && (forall k | k != key && k in c.sessions :: d.sessions[k] == c.sessions[k])
  }

  /** The callbacks of an open session can only take its entry away. */
  lemma {:induction false} CallDataFrame(cfg: Config, c: Core, key: Key, blocks: seq<seq<u8>>, before: seq<u8>)
    ensures var d := CallData(cfg, c, key, blocks, before).0;
            OnlyEntry(c, d, key) && (key in d.sessions ==> key in c.sessions && d.sessions[key] == c.sessions[key])
    decreases |blocks|
  {
    if blocks != [] {
      if blocks[0] == [] {
        CallDataFrame(cfg, c, key, blocks[1..], before);
      } else {
        CallDataFrame(cfg, Call(cfg, c, key, OnData(blocks[0]), before).0, key, blocks[1..], before + blocks[0]);
      }
    }
  }

  lemma {:induction false} OnPayloadFrame(cfg: Config, c: Core, seg: Seg)
    ensures var d := OnPayload(cfg, c, seg).0;
            OnlyEntry(c, d, seg.key)
            && (seg.key in d.sessions ==>
                  d.sessions[seg.key] == Deliver(Insert(Ensure(cfg, c, seg.key).sessions[seg.key], seg.seqNum,
                                                        seg.payload)))
  {
    var e := Ensure(cfg, c, seg.key);
    var s := Insert(e.sessions[seg.key], seg.seqNum, seg.payload);
    CallDataFrame(cfg, e.(sessions := e.sessions[seg.key := Deliver(s)]), seg.key, Blocks(s), s.delivered);
  }

  lemma {:induction false} OnSynFrame(cfg: Config, c: Core, key: Key)
    ensures var d := OnSyn(cfg, c, key).0;
            OnlyEntry(c, d, key) && (key in d.sessions ==> d.sessions[key] == Ensure(cfg, c, key).sessions[key])
  {}

  lemma {:induction false} OnFinFrame(cfg: Config, c: Core, key: Key)
    ensures OnlyEntry(c, OnFin(cfg, c, key).0, key) && key !in OnFin(cfg, c, key).0.sessions
  {}

  /** An accepted segment touches only its own session. */
  lemma {:induction false} ProcessFrame(cfg: Config, c: Core, seg: Seg)
    ensures OnlyEntry(c, Process(cfg, c, seg).0, seg.key)
  {
    var d := if seg.syn then OnSyn(cfg, c, seg.key).0 else c;
    OnSynFrame(cfg, c, seg.key);
    OnFinFrame(cfg, d, seg.key);
    OnPayloadFrame(cfg, d, seg);
    hide OnSyn, OnFin, OnPayload;
  }

  function Base(cfg: Config, c: Core, key: Key): Session { Ensure(cfg, c, key).sessions[key] }

  /** What a segment can make of its session: nothing, a fresh one, or the delivery
      of its payload; or the session is gone. */
  lemma {:induction false} ReceiveCases(cfg: Config, c: Core, link: Link, seg: Seg)
    ensures var d := Receive(cfg, c, link, seg).0;
            && (forall k | k != seg.key :: k in d.sessions <==> k in c.sessions)
            && (forall k | k != seg.key && k in c.sessions :: d.sessions[k] == c.sessions[k])
            && (seg.key in d.sessions ==>
                  || d.sessions[seg.key] == Base(cfg, c, seg.key)
                  || (Carries(seg) && !seg.fin
                      && d.sessions[seg.key] == Deliver(Insert(Base(cfg, c, seg.key), seg.seqNum, seg.payload))))
  {
    if DedupOf(seg) !in c.memory.seen && !OutOfWindow(cfg, c, seg) {
      var c' := Noted(cfg, c, link, seg);
      ProcessFrame(cfg, c', seg);
      var d := if seg.syn then OnSyn(cfg, c', seg.key).0 else c';
      OnSynFrame(cfg, c', seg.key);
      OnFinFrame(cfg, d, seg.key);
      OnPayloadFrame(cfg, d, seg);
      hide OnSyn, OnFin, OnPayload, Deliver;
    }
  }

  // ---- What the handler is given ----

  /** The data bytes that the session's handler gets in these events. */
  function Given(events: seq<Event>, key: Key): seq<u8> {
    if events == [] then []
    else
      (match events[0]
       case Called(k, OnData(bytes)) => if k == key then bytes else []
       case _ => [])
      + Given(events[1..], key)
  }

  lemma {:induction false} GivenAppend(a: seq<Event>, b: seq<Event>, key: Key)
    ensures Given(a + b, key) == Given(a, key) + Given(b, key)
  {
    if a == [] {
      assert a + b == b;
    } else {
      assert (a + b)[1..] == a[1..] + b;
      GivenAppend(a[1..], b, key);
    }
  }

  lemma {:induction false} CallGives(cfg: Config, c: Core, key: Key, callback: Callback, before: seq<u8>)
    ensures Given(Call(cfg, c, key, callback, before).1, key) == match callback case OnData(bytes) => bytes case _ => []
  {
    var rest := if cfg.reacts(key, callback, before) then Close(c, key).1 else [];
    assert Call(cfg, c, key, callback, before).1 == [Called(key, callback)] + rest;
    assert Given(rest, key) == [];
    assert ([Called(key, callback)] + rest)[1..] == rest;
  }

  /** One run of callbacks gives the handler all blocks, also if it closes half-way. */
  lemma {:induction false} CallDataGives(cfg: Config, c: Core, key: Key, blocks: seq<seq<u8>>, before: seq<u8>)
    ensures Given(CallData(cfg, c, key, blocks, before).1, key) == Flat(blocks)
    decreases |blocks|
  {
    if blocks != [] {
      if blocks[0] == [] {
        CallDataGives(cfg, c, key, blocks[1..], before);
      } else {
        var (d, e) := Call(cfg, c, key, OnData(blocks[0]), before);
        CallGives(cfg, c, key, OnData(blocks[0]), before);
        CallDataGives(cfg, d, key, blocks[1..], before + blocks[0]);
        GivenAppend(e, CallData(cfg, d, key, blocks[1..], before + blocks[0]).1, key);
        hide Call;
      }
    }
  }

  /** A payload gives the handler the in-order run that it completes, no more and no
      less, and that is what the session records as delivered. */
  lemma {:induction false} PayloadGives(cfg: Config, c: Core, seg: Seg)
    ensures var s := Insert(Base(cfg, c, seg.key), seg.seqNum, seg.payload);
            && Given(OnPayload(cfg, c, seg).1, seg.key) == (if s.handler then Flat(Blocks(s)) else [])
            && Deliver(s).delivered == s.delivered + Given(OnPayload(cfg, c, seg).1, seg.key)
  {
    var d := Ensure(cfg, c, seg.key);
    var s := Insert(d.sessions[seg.key], seg.seqNum, seg.payload);
    CallDataGives(cfg, d.(sessions := d.sessions[seg.key := Deliver(s)]), seg.key, Blocks(s), s.delivered);
    DrainDelivers(s);
    hide CallData;
  }

  lemma {:induction false} ControlGives(cfg: Config, c: Core, key: Key)
    ensures Given(OnSyn(cfg, c, key).1, key) == [] && Given(OnFin(cfg, c, key).1, key) == []
  {
    var d := Ensure(cfg, c, key);
    CallGives(cfg, d, key, OnOpen, d.sessions[key].delivered);
    CallGives(cfg, c, key, OnClose, d.sessions[key].delivered);
    hide Call;
  }

  lemma {:induction false} BodyGives(cfg: Config, c: Core, seg: Seg)
    ensures var base, got := Base(cfg, c, seg.key), Given(Body(cfg, c, seg).1, seg.key);
            var d, s := Body(cfg, c, seg).0, Insert(base, seg.seqNum, seg.payload);
            && (got == [] || (Carries(seg) && !seg.fin && base.delivered + got == Deliver(s).delivered))
            && (seg.key in d.sessions ==> d.sessions[seg.key].delivered == base.delivered + got)
  {
    ControlGives(cfg, c, seg.key);
    OnFinFrame(cfg, c, seg.key);
    OnPayloadFrame(cfg, c, seg);
    PayloadGives(cfg, c, seg);
    assert Given([], seg.key) == [] && Base(cfg, c, seg.key).delivered + [] == Base(cfg, c, seg.key).delivered;
    hide OnFin, OnPayload, Deliver, Insert;
  }

  lemma {:induction false} ProcessGives(cfg: Config, c: Core, seg: Seg)
    ensures var base, got := Base(cfg, c, seg.key), Given(Process(cfg, c, seg).1, seg.key);
            var d, s := Process(cfg, c, seg).0, Insert(base, seg.seqNum, seg.payload);
            && (got == [] || (Carries(seg) && !seg.fin && base.delivered + got == Deliver(s).delivered))
            && (seg.key in d.sessions ==> d.sessions[seg.key].delivered == base.delivered + got)
  {
    if seg.syn {
      var (d, e) := OnSyn(cfg, c, seg.key);
      ControlGives(cfg, c, seg.key);
      OnSynFrame(cfg, c, seg.key);
      if seg.key in d.sessions {
        BodyGives(cfg, d, seg);
        GivenAppend(e, Body(cfg, d, seg).1, seg.key);
        assert [] + Given(Body(cfg, d, seg).1, seg.key) == Given(Body(cfg, d, seg).1, seg.key);
      }
      hide OnSyn, Body, Deliver, Insert, Given;
    } else {
      BodyGives(cfg, c, seg);
    }
  }

  /** For any segment: what the handler is given, and its relation to the record. */
  lemma {:induction false} ReceiveGives(cfg: Config, c: Core, link: Link, seg: Seg)
    ensures var base, got := Base(cfg, c, seg.key), Given(Receive(cfg, c, link, seg).1, seg.key);
            var d, s := Receive(cfg, c, link, seg).0, Insert(base, seg.seqNum, seg.payload);
            && (got == [] || (Carries(seg) && !seg.fin && base.delivered + got == Deliver(s).delivered))
            && (seg.key in d.sessions ==> d.sessions[seg.key].delivered == base.delivered + got)
  {
    assert Given([], seg.key) == [] && Base(cfg, c, seg.key).delivered + [] == Base(cfg, c, seg.key).delivered;
    ProcessGives(cfg, Noted(cfg, c, link, seg), seg);
    hide Process, Deliver, Insert, Given, DedupOf, OutOfWindow;
  }

  // ---- Frames as events of a run ----

  function OpsOf(cfg: Config, link: Link, frames: seq<seq<u8>>): seq<Op>
    requires AllWellFormed(frames)
  {
    if frames == [] then []
    else
      var n := |frames| - 1;
      OpsOf(cfg, link, frames[..n]) + match OpOf(cfg, link, frames[n]) case Some(op) => [op] case None => []
  }

  /** So one call of onChannelBytes goes on with the run by its frames. */
  lemma {:induction false} RunExtends(cfg: Config, ops: seq<Op>, link: Link, frames: seq<seq<u8>>)
    requires AllWellFormed(frames)
    ensures OnFrames(cfg, Run(cfg, ops), link, frames).0 == Run(cfg, ops + OpsOf(cfg, link, frames))
  {
    if frames == [] {
      assert ops + [] == ops;
    } else {
      var n := |frames| - 1;
      RunExtends(cfg, ops, link, frames[..n]);
      var before := ops + OpsOf(cfg, link, frames[..n]);
      OnFrameIsStep(cfg, Run(cfg, before), link, frames[n]);
      match OpOf(cfg, link, frames[n])
      case None => assert ops + OpsOf(cfg, link, frames) == before;
      case Some(op) =>
        assert ops + OpsOf(cfg, link, frames) == before + [op];
        assert (before + [op])[..|before|] == before;
      hide OnFrame, Step, OpOf;
    }
  }

  // ---- The window ----

  ghost predicate Windowed(cfg: Config, c: Core) {
    forall k | k in c.sessions :: InWindow(c.sessions[k], cfg.window)
  }

  lemma {:induction false} PayloadWindowed(cfg: Config, c: Core, seg: Seg)
    requires Windowed(cfg, c) && Ahead(seg.seqNum, Expected(c, seg.key)) < cfg.window
    ensures Windowed(cfg, OnPayload(cfg, c, seg).0)
  {
    OnPayloadFrame(cfg, c, seg);
    var s := Ensure(cfg, c, seg.key).sessions[seg.key];
    InsertInWindow(s, cfg.window, seg.seqNum, seg.payload);
    DrainInWindow(Insert(s, seg.seqNum, seg.payload), cfg.window);
    hide OnPayload, InWindow;
  }

  lemma {:induction false} ReceiveWindowed(cfg: Config, c: Core, link: Link, seg: Seg)
    requires Windowed(cfg, c)
    ensures Windowed(cfg, Receive(cfg, c, link, seg).0)
  {
    if DedupOf(seg) !in c.memory.seen && !OutOfWindow(cfg, c, seg) {
      var c' := Noted(cfg, c, link, seg);
      var d := if seg.syn then OnSyn(cfg, c', seg.key).0 else c';
      OnSynFrame(cfg, c', seg.key);
      OnFinFrame(cfg, d, seg.key);
      hide OnSyn, OnFin, OnPayload, InWindow;
      assert forall k | k in d.sessions ::
               (k in c.sessions && d.sessions[k] == c.sessions[k]) || d.sessions[k] == NewSession(cfg.hasHandler(k));
      NewWindowed(cfg);
      assert Windowed(cfg, d);
      if (seg.syn ==> seg.key in d.sessions) && !seg.fin && Carries(seg) {
        assert Expected(d, seg.key) == Expected(c, seg.key);
        PayloadWindowed(cfg, d, seg);
      }
    }
  }

  lemma {:induction false} NewWindowed(cfg: Config)
    ensures InWindow(NewSession(true), cfg.window) && InWindow(NewSession(false), cfg.window)
  {}

  lemma {:induction false} StepWindowed(cfg: Config, c: Core, op: Op)
    requires Windowed(cfg, c)
    ensures Windowed(cfg, Step(cfg, c, op).0)
  {
    match op
    case Arrives(link, seg) => ReceiveWindowed(cfg, c, link, seg);
    case Opens(key, handler) => NewWindowed(cfg);
    case _ =>
  }

  /** In every reachable state, whatever a peer sends and even across wrap-around,
      every buffered number lies within the window: buffers are bounded by it. */
  lemma {:induction false} WindowAlways(cfg: Config, ops: seq<Op>)
    ensures Windowed(cfg, Run(cfg, ops))
    ensures forall k | k in Run(cfg, ops).sessions :: |Run(cfg, ops).sessions[k].buffer| <= cfg.window
  {
    if ops != [] {
      WindowAlways(cfg, ops[..|ops| - 1]);
      StepWindowed(cfg, Run(cfg, ops[..|ops| - 1]), ops[|ops| - 1]);
    }
    forall k | k in Run(cfg, ops).sessions ensures |Run(cfg, ops).sessions[k].buffer| <= cfg.window {
      BufferBounded(Run(cfg, ops).sessions[k], cfg.window);
    }
  }

  // ---- The duplicate memory ----

  ghost predicate MemoryOk(m: Memory, forgets: bool) {
    && (forall k :: k in m.seen <==> k in m.ring)
    && (forall i, j | 0 <= i < j < |m.ring| :: m.ring[i] != m.ring[j])
    && (forgets ==> |m.ring| <= 4096)
  }

  lemma {:induction false} RememberOk(m: Memory, k: DedupKey, forgets: bool)
    requires MemoryOk(m, forgets) && k !in m.seen
    ensures MemoryOk(Remember(m, k, forgets), forgets)
  {
    var ring := m.ring + [k];
    var r := Remember(m, k, forgets);
    assert forall j :: j in ring <==> j in m.ring || j == k;
    assert forall i, j | 0 <= i < j < |ring| :: ring[i] != ring[j];
    if forgets && |ring| > DEDUP_RING {
      forall j ensures j in r.seen <==> j in r.ring {
        if j in r.ring {
          var i :| 0 <= i < |ring[1..]| && ring[1..][i] == j;
          assert ring[i + 1] == j && ring[i + 1] != ring[0];
        }
        if j in r.seen {
          var i :| 0 <= i < |ring| && ring[i] == j;
          assert ring[1..][i - 1] == j;
        }
      }
    }
  }

  /** Map and queue always hold the same, distinct keys, and at most 4096. */
  lemma {:induction false} MemoryAlways(cfg: Config, ops: seq<Op>)
    ensures MemoryOk(Run(cfg, ops).memory, cfg.forgets)
  {
    if ops != [] {
      var c := Run(cfg, ops[..|ops| - 1]);
      MemoryAlways(cfg, ops[..|ops| - 1]);
      match ops[|ops| - 1]
      case Arrives(link, seg) =>
        if DedupOf(seg) !in c.memory.seen {
          RememberOk(c.memory, DedupOf(seg), cfg.forgets);
          ProcessFrame(cfg, Noted(cfg, c, link, seg), seg);
        }
      case _ =>
    }
  }

  // ---- Rejected frames leave no trace ----

  type Sighting = (Link, seq<u8>)

  ghost predicate Whole(frames: seq<Sighting>) { forall f | f in frames :: WellFormed(f.1) }

  /** The receive path over frames from any links. */
  function Receives(cfg: Config, c: Core, frames: seq<Sighting>): (Core, seq<Event>)
    requires Whole(frames)
    decreases |frames|
  {
    if frames == [] then (c, [])
    else
      assert frames[0] in frames;
      var (d, e) := OnFrame(cfg, c, frames[0].0, frames[0].1);
      var (d', e') := Receives(cfg, d, frames[1..]);
      (d', e + e')
  }

  /** Refused by the checksum or, not being a duplicate, by the window. */
  predicate Rejected(cfg: Config, c: Core, frame: seq<u8>)
    requires WellFormed(frame)
  {
    (cfg.verify && !Intact(frame))
    || (IsSession(frame) && DedupOf(SegOf(frame)) !in c.memory.seen && OutOfWindow(cfg, c, SegOf(frame)))
  }

  function Kept(cfg: Config, c: Core, frames: seq<Sighting>): (kept: seq<Sighting>)
    requires Whole(frames)
    ensures Whole(kept)
    decreases |frames|
  {
    if frames == [] then []
    else
      assert frames[0] in frames;
      (if Rejected(cfg, c, frames[0].1) then [] else [frames[0]])
      + Kept(cfg, OnFrame(cfg, c, frames[0].0, frames[0].1).0, frames[1..])
  }

  /** Deleting every rejected frame from a run changes neither state nor events. */
  lemma {:induction false} RejectedLeaveNoTrace(cfg: Config, c: Core, frames: seq<Sighting>)
    requires Whole(frames)
    ensures Receives(cfg, c, Kept(cfg, c, frames)) == Receives(cfg, c, frames)
    decreases |frames|
  {
    if frames != [] {
      var f := frames[0];
      assert f in frames;
      var d := OnFrame(cfg, c, f.0, f.1).0;
      RejectedLeaveNoTrace(cfg, d, frames[1..]);
      if Rejected(cfg, c, f.1) {
        assert OnFrame(cfg, c, f.0, f.1) == (c, []);
        assert [] + Receives(cfg, c, frames[1..]).1 == Receives(cfg, c, frames[1..]).1;
        assert Kept(cfg, c, frames) == Kept(cfg, d, frames[1..]);
      } else {
        hide OnFrame, Rejected;
        assert Kept(cfg, c, frames)[1..] == Kept(cfg, d, frames[1..]);
      }
    }
  }

  /** Every segment of the run with this duplicate key came outside the window. */
  ghost predicate NeverInWindow(cfg: Config, ops: seq<Op>, k: DedupKey) {
    ops == []
    || (NeverInWindow(cfg, ops[..|ops| - 1], k)
        && (ops[|ops| - 1].Arrives? && DedupOf(ops[|ops| - 1].seg) == k ==>
              OutOfWindow(cfg, Run(cfg, ops[..|ops| - 1]), ops[|ops| - 1].seg)))
  }

  lemma {:induction false} NotRemembered(cfg: Config, ops: seq<Op>, k: DedupKey)
    requires NeverInWindow(cfg, ops, k)
    ensures k !in Run(cfg, ops).memory.seen
  {
    if ops != [] {
      var c := Run(cfg, ops[..|ops| - 1]);
      NotRemembered(cfg, ops[..|ops| - 1], k);
      match ops[|ops| - 1]
      case Arrives(link, seg) =>
        ProcessFrame(cfg, Noted(cfg, c, link, seg), seg);
      case _ =>
    }
  }

  /** So a segment that came too early, however often, is taken by the first copy
      that arrives once the window covers it. */
  lemma {:induction false} LaterCopyAccepted(cfg: Config, ops: seq<Op>, link: Link, seg: Seg)
    requires NeverInWindow(cfg, ops, DedupOf(seg))
    requires Carries(seg) && !seg.syn && !seg.fin && !OutOfWindow(cfg, Run(cfg, ops), seg)
    ensures var c, d := Run(cfg, ops), Receive(cfg, Run(cfg, ops), link, seg).0;
            DedupOf(seg) in d.memory.seen
            && (seg.key in d.sessions ==>
                  d.sessions[seg.key] == Deliver(Insert(Ensure(cfg, c, seg.key).sessions[seg.key], seg.seqNum,
                                                        seg.payload)))
  {
    var c := Run(cfg, ops);
    NotRemembered(cfg, ops, DedupOf(seg));
    MemoryAlways(cfg, ops);
    var k := DedupOf(seg);
    var c' := c.(memory := Remember(c.memory, k, cfg.forgets), race := Won(c.race, PeerOf(c, link)));
    ProcessFrame(cfg, c', seg);
    OnPayloadFrame(cfg, c', seg);
    assert k != (c.memory.ring + [k])[0] || |c.memory.ring + [k]| <= DEDUP_RING;
  }
}
