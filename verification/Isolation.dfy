/** While a session stays open, what it delivers depends on its own segments
    alone: neither other sessions nor the bounded duplicate memory matter. */
module Isolation {
  import opened Words
  import opened Reassembly
  import opened Race
  import opened StreamSpec
  import opened Runs

  /** The segments that a DataStream sends, which are an open, a close, or data; and
      a close that carries data, of which only the close has an effect. The other
      kinds share their duplicate key with one of these, and do something else. */
  predicate Plain(seg: Seg) {
    if seg.syn then !seg.fin && !Carries(seg) else seg.fin || Carries(seg)
  }

  /** The receive side of a session. */
  function Rx(s: Session): Session { s.(nextSend := 0) }

  /** Of two segments with the same duplicate key the second is dropped, whatever it
      is: an open with data behind a plain open, a plain open behind one that closed
      at once, and data behind a segment without flags and payload. */
  lemma {:induction false} SecondOfAKeyIsDropped(cfg: Config, c: Core, first: Seg, second: Seg, a: Link, b: Link)
    requires ValidConfig(cfg) && MemoryOk(c.memory, cfg.forgets)
    requires DedupOf(first) == DedupOf(second) && !OutOfWindow(cfg, c, first)
    ensures var d := Receive(cfg, c, a, first).0;
            Receive(cfg, d, b, second).0.sessions == d.sessions && Receive(cfg, d, b, second).1 == []
  {
    var k := DedupOf(first);
    if k !in c.memory.seen {
      ProcessFrame(cfg, Noted(cfg, c, a, first), first);
      RememberOk(c.memory, k, cfg.forgets);
      var ring := c.memory.ring + [k];
      assert ring[|ring| - 1] == k;
      assert |ring| > DEDUP_RING ==> ring[1..][|ring| - 2] == k;
    }
    hide Process, Won, Lost;
  }

  /** So a segment without payload does harm: it is remembered, and the real segment
      of that number is then its duplicate, although nothing of it was delivered. */
  lemma {:induction false} EmptyDataPoisons(cfg: Config, c: Core, key: Key, n: u32, payload: seq<u8>, a: Link, b: Link)
    requires ValidConfig(cfg) && MemoryOk(c.memory, cfg.forgets) && DedupKey(key, n, DataKind) !in c.memory.seen
    ensures var d := Receive(cfg, c, a, Seg(key, n, false, false, true, [])).0;
            d.sessions == c.sessions
            && Receive(cfg, d, b, Seg(key, n, false, false, true, payload)).0.sessions == c.sessions
  {
    SecondOfAKeyIsDropped(cfg, c, Seg(key, n, false, false, true, []), Seg(key, n, false, false, true, payload), a, b);
  }

  // ---- A single session that remembers no duplicate ----

  function SoloStep(cfg: Config, key: Key, solo: Option<Session>, op: Op): Option<Session> {
    match op
    case Arrives(_, seg) =>
      if seg.key != key || seg.fin then solo
      else if seg.syn then Some(OrNew(solo, cfg.hasHandler(key)))
      else if Ahead(seg.seqNum, OrNew(solo, false).expected) >= cfg.window then solo
      else Some(Take(cfg.window, OrNew(solo, cfg.hasHandler(key)), Offer(seg.seqNum, seg.payload)))
    case Opens(k, handler) => if k == key then Some(OrNew(solo, handler)) else solo
    case _ => solo
  }

  function OrNew(solo: Option<Session>, handler: bool): Session {
    match solo case Some(s) => s case None => NewSession(handler)
  }

  function Solo(cfg: Config, key: Key, ops: seq<Op>): Option<Session> {
    if ops == [] then None else SoloStep(cfg, key, Solo(cfg, key, ops[..|ops| - 1]), ops[|ops| - 1])
  }

  // ---- Runs in which the session stays open ----

  ghost predicate Silent(events: seq<Event>, key: Key) {
    forall e | e in events :: !(e.FinSent? && e.key == key)
  }

  /** The step closes the session of key, by a FIN or by its own handler. */
  ghost predicate Closing(cfg: Config, c: Core, op: Op, key: Key) {
    (key in c.sessions && key !in Step(cfg, c, op).0.sessions)
    || !Silent(Step(cfg, c, op).1, key)
  }

  ghost predicate StaysOpen(cfg: Config, ops: seq<Op>, key: Key) {
    ops == []
    || (StaysOpen(cfg, ops[..|ops| - 1], key) && !Closing(cfg, Run(cfg, ops[..|ops| - 1]), ops[|ops| - 1], key))
  }

  /** The session's own segments are plain, and its data uses fewer than 2^32 - window
      numbers. */
  predicate Proper(cfg: Config, op: Op, key: Key) {
    op.Arrives? && op.seg.key == key ==>
      Plain(op.seg) && (op.seg.syn || op.seg.fin || op.seg.seqNum + cfg.window < TWO32)
  }

  ghost predicate AllProper(cfg: Config, ops: seq<Op>, key: Key) { forall op | op in ops :: Proper(cfg, op, key) }

  // ---- What a session without memory keeps ----

  /** Numbers below expected are behind the window, and nothing is deliverable. */
  ghost predicate Settled(cfg: Config, s: Session) {
    && s.expected + cfg.window <= TWO32
    && (forall k | k in s.buffer :: s.expected <= k && k + cfg.window < TWO32)
    && (s.handler ==> s.expected !in s.buffer)
  }

  lemma {:induction false} DrainSettled(cfg: Config, s: Session)
    requires s.expected + cfg.window <= TWO32 && 0 < cfg.window
    requires forall k | k in s.buffer :: s.expected <= k && k + cfg.window < TWO32
    ensures Drain(s).expected + cfg.window <= TWO32
    ensures forall k | k in Drain(s).buffer :: Drain(s).expected <= k && k + cfg.window < TWO32
    ensures Drain(s).expected !in Drain(s).buffer
    decreases s.buffer.Keys
  {
    if Ready(s) {
      assert Advance(s).buffer.Keys == s.buffer.Keys - {s.expected};
      DrainSettled(cfg, Advance(s));
    }
  }

  lemma {:induction false} TakeSettled(cfg: Config, s: Session, o: Offer)
    requires Settled(cfg, s) && 0 < cfg.window && o.seqNum + cfg.window < TWO32
    ensures Settled(cfg, Take(cfg.window, s, o)) && Take(cfg.window, s, o).handler == s.handler
    ensures s.expected <= Take(cfg.window, s, o).expected
  {
    if Ahead(o.seqNum, s.expected) < cfg.window {
      DrainSettled(cfg, Insert(s, o.seqNum, o.payload));
      DrainKeeps(Insert(s, o.seqNum, o.payload));
      DrainGrows(cfg, Insert(s, o.seqNum, o.payload));
    }
  }

  /** Draining moves expected up, and every number it passes was buffered. */
  lemma {:induction false} DrainGrows(cfg: Config, s: Session)
    requires s.expected + cfg.window <= TWO32 && 0 < cfg.window
    requires forall k | k in s.buffer :: s.expected <= k && k + cfg.window < TWO32
    ensures s.expected <= Drain(s).expected
    ensures forall k | k in s.buffer :: k < Drain(s).expected || k in Drain(s).buffer
    decreases s.buffer.Keys
  {
    if Ready(s) {
      assert Advance(s).buffer.Keys == s.buffer.Keys - {s.expected};
      DrainGrows(cfg, Advance(s));
    }
  }

  /** A number already taken, below expected or buffered, is absorbed: by the
      window test, or by the insertion that does not overwrite. */
  predicate Has(s: Session, seqNum: u32) { seqNum < s.expected || seqNum in s.buffer }

  lemma {:induction false} TakeAbsorbs(cfg: Config, s: Session, o: Offer)
    requires Settled(cfg, s) && Has(s, o.seqNum)
    ensures Take(cfg.window, s, o) == s
  {}

  lemma {:induction false} TakeHas(cfg: Config, s: Session, o: Offer, n: u32)
    requires Settled(cfg, s) && 0 < cfg.window && o.seqNum + cfg.window < TWO32
    requires Has(s, n) || (n == o.seqNum && Ahead(n, s.expected) < cfg.window)
    ensures Has(Take(cfg.window, s, o), n)
  {
    if Ahead(o.seqNum, s.expected) < cfg.window {
      DrainGrows(cfg, Insert(s, o.seqNum, o.payload));
    }
  }

  // ---- The simulation ----

  /** The machine's session is the solo one, and whatever duplicate key of the
      session it still remembers is already part of that session. */
  ghost predicate Agrees(cfg: Config, c: Core, key: Key, solo: Option<Session>) {
    && (key in c.sessions <==> solo.Some?)
    && (solo.Some? ==> Rx(c.sessions[key]) == solo.value && Settled(cfg, solo.value))
    && (forall k | k in c.memory.seen && k.key == key && k.kind == DataKind :: solo.Some? && Has(solo.value, k.seqNum))
    && (forall k | k in c.memory.seen && k.key == key && k.kind == SynKind :: solo.Some?)
  }

  lemma {:induction false} QuietCall(cfg: Config, c: Core, key: Key, callback: Callback, before: seq<u8>)
    requires key in c.sessions && Silent(Call(cfg, c, key, callback, before).1, key)
    ensures !cfg.reacts(key, callback, before) && Call(cfg, c, key, callback, before).0 == c
  {
    var fin := FinSent(key, c.sessions[key].nextSend);
    assert fin in [Called(key, callback), fin];
    assert cfg.reacts(key, callback, before) ==> Call(cfg, c, key, callback, before).1 == [Called(key, callback), fin];
  }

  /** Callbacks without a close leave the state alone. */
  lemma {:induction false} QuietCalls(cfg: Config, c: Core, key: Key, blocks: seq<seq<u8>>, before: seq<u8>)
    requires key in c.sessions && Silent(CallData(cfg, c, key, blocks, before).1, key)
    ensures CallData(cfg, c, key, blocks, before).0 == c
    decreases |blocks|
  {
    if blocks != [] {
      if blocks[0] == [] {
        QuietCalls(cfg, c, key, blocks[1..], before);
      } else {
        var (d, e) := Call(cfg, c, key, OnData(blocks[0]), before);
        var rest := CallData(cfg, d, key, blocks[1..], before + blocks[0]).1;
        assert CallData(cfg, c, key, blocks, before).1 == e + rest;
        assert forall x | x in e :: x in e + rest;
        assert forall x | x in rest :: x in e + rest;
        QuietCall(cfg, c, key, OnData(blocks[0]), before);
        QuietCalls(cfg, c, key, blocks[1..], before + blocks[0]);
      }
    }
  }

  /** A payload that does not close its session is a Take. */
  lemma {:induction false} QuietPayload(cfg: Config, c: Core, seg: Seg)
    requires Silent(OnPayload(cfg, c, seg).1, seg.key)
    ensures var d := Ensure(cfg, c, seg.key);
            var t := Deliver(Insert(d.sessions[seg.key], seg.seqNum, seg.payload));
            OnPayload(cfg, c, seg).0 == d.(sessions := d.sessions[seg.key := t])
  {
    var d := Ensure(cfg, c, seg.key);
    var s := Insert(d.sessions[seg.key], seg.seqNum, seg.payload);
    if s.handler {
      QuietCalls(cfg, d.(sessions := d.sessions[seg.key := Deliver(s)]), seg.key, Blocks(s), s.delivered);
    }
  }

  lemma {:induction false} DrainRx(s: Session)
    ensures Rx(Drain(s)) == Drain(Rx(s))
    decreases s.buffer.Keys
  {
    if Ready(s) {
      assert Advance(s).buffer.Keys == s.buffer.Keys - {s.expected};
      DrainRx(Advance(s));
    }
  }

  lemma {:induction false} TakeRx(window: nat, s: Session, o: Offer)
    ensures Rx(Take(window, s, o)) == Take(window, Rx(s), o)
  {
    DrainRx(Insert(s, o.seqNum, o.payload));
  }

  /** What a step at the machine does to the memory of one session. */
  lemma {:induction false} RememberOne(m: Memory, k: DedupKey, forgets: bool)
    ensures Remember(m, k, forgets).seen <= m.seen + {k}
  {}

  lemma {:induction false} NewSettled(cfg: Config, handler: bool)
    requires ValidConfig(cfg)
    ensures Settled(cfg, NewSession(handler))
  {}

  lemma {:induction false} OtherAgrees(cfg: Config, c: Core, key: Key, solo: Option<Session>, link: Link, seg: Seg)
    requires Agrees(cfg, c, key, solo) && seg.key != key
    ensures Agrees(cfg, Receive(cfg, c, link, seg).0, key, solo)
  {
    if DedupOf(seg) !in c.memory.seen && !OutOfWindow(cfg, c, seg) {
      ProcessFrame(cfg, Noted(cfg, c, link, seg), seg);
      RememberOne(c.memory, DedupOf(seg), cfg.forgets);
      hide Process, Settled;
    }
  }

  lemma {:induction false} DataAgrees(cfg: Config, c: Core, key: Key, solo: Option<Session>, link: Link, seg: Seg)
    requires ValidConfig(cfg) && Agrees(cfg, c, key, solo) && seg.key == key
    requires Plain(seg) && !seg.syn && !seg.fin && seg.seqNum + cfg.window < TWO32
    requires !Closing(cfg, c, Arrives(link, seg), key)
    ensures Agrees(cfg, Receive(cfg, c, link, seg).0, key, SoloStep(cfg, key, solo, Arrives(link, seg)))
  {
    var o := Offer(seg.seqNum, seg.payload);
    if DedupOf(seg) in c.memory.seen {
      TakeAbsorbs(cfg, solo.value, o);
    } else if !OutOfWindow(cfg, c, seg) {
      var c' := Noted(cfg, c, link, seg);
      var s := OrNew(solo, cfg.hasHandler(key));
      NewSettled(cfg, cfg.hasHandler(key));
      assert Receive(cfg, c, link, seg) == OnPayload(cfg, c', seg);
      QuietPayload(cfg, c', seg);
      TakeRx(cfg.window, Ensure(cfg, c', key).sessions[key], o);
      TakeSettled(cfg, s, o);
      RememberOne(c.memory, DedupOf(seg), cfg.forgets);
      var d := Receive(cfg, c, link, seg).0;
      hide OnPayload, Receive, Settled, Take;
      forall k | k in d.memory.seen && k.key == key && k.kind == DataKind
        ensures Has(Take(cfg.window, s, o), k.seqNum)
      {
        TakeHas(cfg, s, o, k.seqNum);
      }
    }
  }

  lemma {:induction false} ControlAgrees(cfg: Config, c: Core, key: Key, solo: Option<Session>, link: Link, seg: Seg)
    requires ValidConfig(cfg) && Agrees(cfg, c, key, solo) && seg.key == key
    requires Plain(seg) && (seg.syn || seg.fin)
    requires !Closing(cfg, c, Arrives(link, seg), key)
    ensures Agrees(cfg, Receive(cfg, c, link, seg).0, key, SoloStep(cfg, key, solo, Arrives(link, seg)))
  {
    NewSettled(cfg, cfg.hasHandler(key));
    if DedupOf(seg) !in c.memory.seen && !OutOfWindow(cfg, c, seg) {
      var c' := Noted(cfg, c, link, seg);
      RememberOne(c.memory, DedupOf(seg), cfg.forgets);
      OnSynFrame(cfg, c', key);
      OnFinFrame(cfg, c', key);
      hide OnFin, Settled;
      var e := Ensure(cfg, c', key);
      if seg.syn && e.sessions[key].handler {
        QuietCall(cfg, e, key, OnOpen, e.sessions[key].delivered);
      }
    }
  }

  lemma {:induction false} StepAgrees(cfg: Config, c: Core, key: Key, solo: Option<Session>, op: Op)
    requires ValidConfig(cfg) && Agrees(cfg, c, key, solo) && Proper(cfg, op, key) && !Closing(cfg, c, op, key)
    ensures Agrees(cfg, Step(cfg, c, op).0, key, SoloStep(cfg, key, solo, op))
  {
    match op
    case Arrives(link, seg) =>
      if seg.key != key {
        OtherAgrees(cfg, c, key, solo, link, seg);
      } else if !seg.syn && !seg.fin {
        DataAgrees(cfg, c, key, solo, link, seg);
      } else {
        ControlAgrees(cfg, c, key, solo, link, seg);
      }
    case Opens(k, handler) => NewSettled(cfg, handler);
    case _ =>
  }

  // ---- One incarnation of a session ----

  /** No session of this key is there, and of an earlier one at most FINs are remembered. */
  ghost predicate Fresh(c: Core, key: Key) {
    key !in c.sessions && forall k | k in c.memory.seen && k.key == key :: k.kind == FinKind
  }

  /** From state c on, the session stays open. */
  ghost predicate StaysOpenFrom(cfg: Config, c: Core, ops: seq<Op>, key: Key) {
    ops == []
    || (StaysOpenFrom(cfg, c, ops[..|ops| - 1], key)
        && !Closing(cfg, Continue(cfg, c, ops[..|ops| - 1]), ops[|ops| - 1], key))
  }

  /** As long as an incarnation stays open it is the session that remembers no duplicate. */
  lemma {:induction false} IncarnationIsSolo(cfg: Config, c: Core, ops: seq<Op>, key: Key)
    requires ValidConfig(cfg) && AllProper(cfg, ops, key) && Fresh(c, key) && StaysOpenFrom(cfg, c, ops, key)
    ensures Agrees(cfg, Continue(cfg, c, ops), key, Solo(cfg, key, ops))
  {
    if ops != [] {
      var init, op := ops[..|ops| - 1], ops[|ops| - 1];
      IncarnationIsSolo(cfg, c, init, key);
      assert Proper(cfg, op, key);
      StepAgrees(cfg, Continue(cfg, c, init), key, Solo(cfg, key, init), op);
      hide Agrees, SoloStep, Step, Closing;
    }
  }

  lemma {:induction false} FromStart(cfg: Config, ops: seq<Op>, key: Key)
    ensures Continue(cfg, START, ops) == Run(cfg, ops)
    ensures StaysOpenFrom(cfg, START, ops, key) <==> StaysOpen(cfg, ops, key)
  {
    if ops != [] {
      FromStart(cfg, ops[..|ops| - 1], key);
      hide Step, Closing;
    }
  }

  /** In particular a session that stays open from the start. */
  lemma {:induction false} OpenSessionIsSolo(cfg: Config, ops: seq<Op>, key: Key)
    requires ValidConfig(cfg) && AllProper(cfg, ops, key) && StaysOpen(cfg, ops, key)
    ensures Agrees(cfg, Run(cfg, ops), key, Solo(cfg, key, ops))
  {
    FromStart(cfg, ops, key);
    IncarnationIsSolo(cfg, START, ops, key);
    hide Agrees;
  }

  // ---- Exact reassembly in a run ----

  /** The session's data segments, in order of arrival, duplicates included. */
  function OffersOf(ops: seq<Op>, key: Key): seq<Offer> {
    if ops == [] then []
    else
      match ops[|ops| - 1]
      case Arrives(_, seg) =>
        OffersOf(ops[..|ops| - 1], key)
        + (if seg.key == key && !seg.syn && !seg.fin then [Offer(seg.seqNum, seg.payload)] else [])
      case _ => OffersOf(ops[..|ops| - 1], key)
  }

  lemma {:induction false} TakeHandler(window: nat, s: Session, o: Offer)
    ensures Take(window, s, o).handler == s.handler
  {
    DrainKeeps(Insert(s, o.seqNum, o.payload));
  }

  /** An absent session is one that has taken nothing so far. */
  ghost predicate HasTaken(window: nat, solo: Option<Session>, offers: seq<Offer>) {
    match solo
    case Some(s) => s == TakeAll(window, NewSession(s.handler), offers)
    case None => forall h :: TakeAll(window, NewSession(h), offers) == NewSession(h)
  }

  lemma {:induction false} OfferTaken(cfg: Config, key: Key, solo: Option<Session>, offers: seq<Offer>, link: Link,
                                      seg: Seg)
    requires HasTaken(cfg.window, solo, offers) && seg.key == key && !seg.syn && !seg.fin
    ensures HasTaken(cfg.window, SoloStep(cfg, key, solo, Arrives(link, seg)),
                     offers + [Offer(seg.seqNum, seg.payload)])
  {
    var o := Offer(seg.seqNum, seg.payload);
    forall h { TakeAllSnoc(cfg.window, NewSession(h), offers, o); }
    var s := OrNew(solo, cfg.hasHandler(key));
    TakeHandler(cfg.window, s, o);
    assert Ahead(seg.seqNum, OrNew(solo, false).expected) >= cfg.window ==>
             forall h :: Take(cfg.window, NewSession(h), o) == NewSession(h) || solo.Some?;
    hide TakeAll;
  }

  lemma {:induction false} SoloTakesAll(cfg: Config, ops: seq<Op>, key: Key)
    ensures HasTaken(cfg.window, Solo(cfg, key, ops), OffersOf(ops, key))
  {
    if ops != [] {
      var init, op := ops[..|ops| - 1], ops[|ops| - 1];
      SoloTakesAll(cfg, init, key);
      if op.Arrives? && op.seg.key == key && !op.seg.syn && !op.seg.fin {
        OfferTaken(cfg, key, Solo(cfg, key, init), OffersOf(init, key), op.link, op.seg);
      } else {
        assert OffersOf(init, key) + [] == OffersOf(init, key);
      }
    }
  }

  lemma {:induction false} OffersProper(cfg: Config, ops: seq<Op>, key: Key)
    requires AllProper(cfg, ops, key)
    ensures forall o | o in OffersOf(ops, key) :: o.seqNum + cfg.window < TWO32
  {
    if ops != [] {
      OffersProper(cfg, ops[..|ops| - 1], key);
      assert Proper(cfg, ops[|ops| - 1], key);
    }
  }

  /** After every step of every run, a session with a handler that stays open since
      state c has been given the in-order concatenation of its payloads accepted since
      then, below expected; it buffers exactly the accepted ones above that, and waits
      for the least missing one. */
  lemma {:induction false} IncarnationReassembles(cfg: Config, c: Core, ops: seq<Op>, key: Key)
    requires ValidConfig(cfg) && AllProper(cfg, ops, key) && Fresh(c, key) && StaysOpenFrom(cfg, c, ops, key)
    requires key in Continue(cfg, c, ops).sessions && Continue(cfg, c, ops).sessions[key].handler
    ensures Reassembled(Continue(cfg, c, ops).sessions[key],
                        Accepted(cfg.window, NewSession(true), OffersOf(ops, key)))
  {
    IncarnationIsSolo(cfg, c, ops, key);
    SoloTakesAll(cfg, ops, key);
    OffersProper(cfg, ops, key);
    ExactReassembly(cfg.window, NewSession(true), OffersOf(ops, key));
    hide Continue, StaysOpenFrom, Solo, Settled;
  }

  /** So has a session that stays open from the start of the run. */
  lemma {:induction false} RunReassembles(cfg: Config, ops: seq<Op>, key: Key)
    requires ValidConfig(cfg) && AllProper(cfg, ops, key) && StaysOpen(cfg, ops, key)
    requires key in Run(cfg, ops).sessions && Run(cfg, ops).sessions[key].handler
    ensures Reassembled(Run(cfg, ops).sessions[key], Accepted(cfg.window, NewSession(true), OffersOf(ops, key)))
  {
    FromStart(cfg, ops, key);
    hide Run, Continue;
    IncarnationReassembles(cfg, START, ops, key);
  }

  // ---- Isolation ----

  predicate Concerns(op: Op, key: Key) {
    match op
    case Arrives(_, seg) => seg.key == key
    case Opens(k, _) => k == key
    case Sends(k, _) => k == key
    case Closes(k) => k == key
    case _ => false
  }

  /** The run with everything erased that concerns other sessions or no session. */
  function Own(ops: seq<Op>, key: Key): seq<Op> {
    if ops == [] then []
    else Own(ops[..|ops| - 1], key) + (if Concerns(ops[|ops| - 1], key) then [ops[|ops| - 1]] else [])
  }

  lemma {:induction false} SoloOfOwn(cfg: Config, ops: seq<Op>, key: Key)
    ensures Solo(cfg, key, Own(ops, key)) == Solo(cfg, key, ops)
  {
    if ops != [] {
      var init, op := ops[..|ops| - 1], ops[|ops| - 1];
      SoloOfOwn(cfg, init, key);
      if Concerns(op, key) {
        assert Own(ops, key)[..|Own(ops, key)| - 1] == Own(init, key);
      } else {
        assert Own(ops, key) == Own(init, key);
      }
    }
  }

  /** Two incarnations with the same own events get the same bytes, buffer and position,
      whatever was before, whatever else their runs carry and whatever is evicted. */
  lemma {:induction false} IncarnationsAreIsolated(cfg: Config, c: Core, a: seq<Op>, d: Core, b: seq<Op>, key: Key)
    requires ValidConfig(cfg) && Own(a, key) == Own(b, key) && Fresh(c, key) && Fresh(d, key)
    requires AllProper(cfg, a, key) && AllProper(cfg, b, key)
    requires StaysOpenFrom(cfg, c, a, key) && StaysOpenFrom(cfg, d, b, key)
    ensures SameSession(Continue(cfg, c, a), Continue(cfg, d, b), key)
  {
    IncarnationIsSolo(cfg, c, a, key);
    IncarnationIsSolo(cfg, d, b, key);
    SoloOfOwn(cfg, a, key);
    SoloOfOwn(cfg, b, key);
    hide Continue, Solo, Own, Settled, StaysOpenFrom;
  }

  ghost predicate SameSession(c: Core, d: Core, key: Key) {
    && (key in c.sessions <==> key in d.sessions)
    && (key in c.sessions ==> Rx(c.sessions[key]) == Rx(d.sessions[key]))
  }

  /** In particular two runs from the start. */
  lemma {:induction false} SessionsAreIsolated(cfg: Config, a: seq<Op>, b: seq<Op>, key: Key)
    requires ValidConfig(cfg) && Own(a, key) == Own(b, key)
    requires AllProper(cfg, a, key) && AllProper(cfg, b, key)
    requires StaysOpen(cfg, a, key) && StaysOpen(cfg, b, key)
    ensures SameSession(Run(cfg, a), Run(cfg, b), key)
  {
    FromStart(cfg, a, key);
    FromStart(cfg, b, key);
    hide Run, Continue, Own, StaysOpen, StaysOpenFrom, SameSession;
    IncarnationsAreIsolated(cfg, START, a, START, b, key);
  }

  // ---- Bounded memory refines unbounded memory ----

  function Unforgetting(cfg: Config): Config { cfg.(forgets := false) }

  /** Both machines agree on the session, and the unbounded one remembers more of it. */
  ghost predicate Refines(cfg: Config, b: Core, u: Core, key: Key, solo: Option<Session>) {
    && Agrees(cfg, b, key, solo) && Agrees(cfg, u, key, solo)
    && (forall k | k in b.memory.seen && k.key == key :: k in u.memory.seen)
  }

  /** Two configurations of one DataStream that may differ in what they remember. */
  ghost predicate SameButMemory(cfg: Config, uc: Config) { uc == cfg.(forgets := uc.forgets) }

  /** Callbacks that close nothing on one machine close nothing on the other. */
  lemma {:induction false} CallsTransfer(cfg: Config, uc: Config, b: Core, u: Core, key: Key, blocks: seq<seq<u8>>,
                                         before: seq<u8>)
    requires SameButMemory(cfg, uc) && key in b.sessions && key in u.sessions
    requires Silent(CallData(cfg, b, key, blocks, before).1, key)
    ensures CallData(uc, u, key, blocks, before).0 == u
    ensures Silent(CallData(uc, u, key, blocks, before).1, key)
    decreases |blocks|
  {
    if blocks != [] {
      if blocks[0] == [] {
        CallsTransfer(cfg, uc, b, u, key, blocks[1..], before);
      } else {
        var (d, e) := Call(cfg, b, key, OnData(blocks[0]), before);
        var rest := CallData(cfg, d, key, blocks[1..], before + blocks[0]).1;
        assert CallData(cfg, b, key, blocks, before).1 == e + rest;
        assert forall x | x in e :: x in e + rest;
        assert forall x | x in rest :: x in e + rest;
        QuietCall(cfg, b, key, OnData(blocks[0]), before);
        CallsTransfer(cfg, uc, b, u, key, blocks[1..], before + blocks[0]);
      }
    }
  }

  lemma {:induction false} BlocksRx(s: Session)
    ensures Blocks(Rx(s)) == Blocks(s)
    decreases s.buffer.Keys
  {
    if Ready(s) {
      assert Advance(s).buffer.Keys == s.buffer.Keys - {s.expected};
      BlocksRx(Advance(s));
    }
  }

  lemma {:induction false} PayloadTransfer(cfg: Config, uc: Config, b: Core, u: Core, seg: Seg)
    requires SameButMemory(cfg, uc)
    requires seg.key in b.sessions <==> seg.key in u.sessions
    requires seg.key in b.sessions ==> Rx(b.sessions[seg.key]) == Rx(u.sessions[seg.key])
    requires Silent(OnPayload(cfg, b, seg).1, seg.key)
    ensures Silent(OnPayload(uc, u, seg).1, seg.key) && seg.key in OnPayload(uc, u, seg).0.sessions
  {
    var d, e := Ensure(cfg, b, seg.key), Ensure(uc, u, seg.key);
    var s, t := Insert(d.sessions[seg.key], seg.seqNum, seg.payload),
                Insert(e.sessions[seg.key], seg.seqNum, seg.payload);
    assert Rx(s) == Rx(t);
    BlocksRx(s);
    BlocksRx(t);
    if s.handler {
      CallsTransfer(cfg, uc, d.(sessions := d.sessions[seg.key := Deliver(s)]),
                    e.(sessions := e.sessions[seg.key := Deliver(t)]),
                    seg.key, Blocks(s), s.delivered);
    }
  }

  lemma {:induction false} SynTransfer(cfg: Config, uc: Config, b: Core, u: Core, key: Key)
    requires SameButMemory(cfg, uc)
    requires key in b.sessions <==> key in u.sessions
    requires key in b.sessions ==> Rx(b.sessions[key]) == Rx(u.sessions[key])
    requires Silent(OnSyn(cfg, b, key).1, key)
    ensures Silent(OnSyn(uc, u, key).1, key) && key in OnSyn(uc, u, key).0.sessions
  {
    var d := Ensure(cfg, b, key);
    if d.sessions[key].handler {
      QuietCall(cfg, d, key, OnOpen, d.sessions[key].delivered);
    }
  }

  lemma {:induction false} CallDataOwn(cfg: Config, c: Core, key: Key, blocks: seq<seq<u8>>, before: seq<u8>)
    ensures forall e | e in CallData(cfg, c, key, blocks, before).1 :: e.key == key
    decreases |blocks|
  {
    if blocks != [] {
      if blocks[0] == [] {
        CallDataOwn(cfg, c, key, blocks[1..], before);
      } else {
        CallDataOwn(cfg, Call(cfg, c, key, OnData(blocks[0]), before).0, key, blocks[1..], before + blocks[0]);
      }
    }
  }

  lemma {:induction false} PayloadOwn(cfg: Config, c: Core, seg: Seg)
    ensures forall e | e in OnPayload(cfg, c, seg).1 :: e.key == seg.key
  {
    var d := Ensure(cfg, c, seg.key);
    var s := Insert(d.sessions[seg.key], seg.seqNum, seg.payload);
    CallDataOwn(cfg, d.(sessions := d.sessions[seg.key := Deliver(s)]), seg.key, Blocks(s), s.delivered);
  }

  /** A segment's events are about its own session. */
  lemma {:induction false} ProcessOwn(cfg: Config, c: Core, seg: Seg)
    ensures forall e | e in Process(cfg, c, seg).1 :: e.key == seg.key
  {
    var d := if seg.syn then OnSyn(cfg, c, seg.key).0 else c;
    PayloadOwn(cfg, d, seg);
    assert forall e | e in OnSyn(cfg, c, seg.key).1 :: e.key == seg.key;
    assert forall e | e in OnFin(cfg, d, seg.key).1 :: e.key == seg.key;
    hide OnSyn, OnFin, OnPayload;
  }

  lemma {:induction false} ArrivalTransfers(cfg: Config, b: Core, u: Core, key: Key, solo: Option<Session>,
                                            link: Link, seg: Seg)
    requires Refines(cfg, b, u, key, solo) && Plain(seg) && seg.key == key
    requires !Closing(cfg, b, Arrives(link, seg), key)
    ensures !Closing(Unforgetting(cfg), u, Arrives(link, seg), key)
  {
    var uc := Unforgetting(cfg);
    if DedupOf(seg) !in u.memory.seen && !OutOfWindow(uc, u, seg) {
      var b', u' := Noted(cfg, b, link, seg), Noted(uc, u, link, seg);
      assert Receive(cfg, b, link, seg) == Process(cfg, b', seg) && Receive(uc, u, link, seg) == Process(uc, u', seg);
      if seg.syn {
        SynTransfer(cfg, uc, b', u', key);
      } else if seg.fin {
        assert key !in b.sessions;
      } else {
        PayloadTransfer(cfg, uc, b', u', seg);
      }
    }
  }

  lemma {:induction false} OpenTransfers(cfg: Config, b: Core, u: Core, key: Key, solo: Option<Session>, op: Op)
    requires Refines(cfg, b, u, key, solo) && Proper(cfg, op, key)
    requires !Closing(cfg, b, op, key)
    ensures !Closing(Unforgetting(cfg), u, op, key)
  {
    match op
    case Arrives(link, seg) =>
      if seg.key == key {
        ArrivalTransfers(cfg, b, u, key, solo, link, seg);
      } else {
        ProcessOwn(Unforgetting(cfg), Noted(Unforgetting(cfg), u, link, seg), seg);
        ProcessFrame(Unforgetting(cfg), Noted(Unforgetting(cfg), u, link, seg), seg);
        hide Process;
      }
    case _ =>
  }

  /** The unbounded memory goes on covering the bounded one. */
  lemma {:induction false} SeenTransfers(cfg: Config, b: Core, u: Core, key: Key, solo: Option<Session>, op: Op)
    requires Refines(cfg, b, u, key, solo)
    ensures forall k | k in Step(cfg, b, op).0.memory.seen && k.key == key ::
              k in Step(Unforgetting(cfg), u, op).0.memory.seen
  {
    match op
    case Arrives(link, seg) =>
      ProcessFrame(cfg, Noted(cfg, b, link, seg), seg);
      ProcessFrame(Unforgetting(cfg), Noted(Unforgetting(cfg), u, link, seg), seg);
      RememberOne(b.memory, DedupOf(seg), cfg.forgets);
      hide Process, Settled;
    case _ =>
  }

  lemma {:induction false} SoloUnforgetting(cfg: Config, ops: seq<Op>, key: Key)
    ensures Solo(Unforgetting(cfg), key, ops) == Solo(cfg, key, ops)
  {
    if ops != [] {
      SoloUnforgetting(cfg, ops[..|ops| - 1], key);
    }
  }

  /** The 4096-entry ring refines a memory that never forgets: while a session stays
      open it also stays open there, with the same bytes, buffer and position. */
  lemma {:induction false} BoundedRefinesUnbounded(cfg: Config, ops: seq<Op>, key: Key)
    requires ValidConfig(cfg) && AllProper(cfg, ops, key) && StaysOpen(cfg, ops, key)
    ensures StaysOpen(Unforgetting(cfg), ops, key)
    ensures Refines(cfg, Run(cfg, ops), Run(Unforgetting(cfg), ops), key, Solo(cfg, key, ops))
  {
    if ops != [] {
      var init, op := ops[..|ops| - 1], ops[|ops| - 1];
      BoundedRefinesUnbounded(cfg, init, key);
      var b, u, solo := Run(cfg, init), Run(Unforgetting(cfg), init), Solo(cfg, key, init);
      OpenTransfers(cfg, b, u, key, solo, op);
      SeenTransfers(cfg, b, u, key, solo, op);
      SoloUnforgetting(cfg, ops, key);
      SoloUnforgetting(cfg, init, key);
      OpenSessionIsSolo(cfg, ops, key);
      OpenSessionIsSolo(Unforgetting(cfg), ops, key);
    }
  }

  // ---- A condition on the input alone ----

  /** No FIN arrives, nobody closes, and the handler never reacts. */
  ghost predicate Undisturbed(cfg: Config, ops: seq<Op>, key: Key) {
    && (forall op | op in ops :: op.Arrives? && op.seg.key == key ==> !op.seg.fin)
    && (forall op | op in ops :: op.Closes? ==> op.key != key)
    && (forall callback, before :: !cfg.reacts(key, callback, before))
  }

  lemma {:induction false} NeverReacts(cfg: Config, c: Core, key: Key, blocks: seq<seq<u8>>, before: seq<u8>)
    requires forall callback, b :: !cfg.reacts(key, callback, b)
    ensures CallData(cfg, c, key, blocks, before).0 == c && Silent(CallData(cfg, c, key, blocks, before).1, key)
    decreases |blocks|
  {
    if blocks != [] {
      NeverReacts(cfg, c, key, blocks[1..], if blocks[0] == [] then before else before + blocks[0]);
    }
  }

  lemma {:induction false} UndisturbedStep(cfg: Config, c: Core, op: Op, key: Key)
    requires Undisturbed(cfg, [op], key)
    ensures !Closing(cfg, c, op, key)
  {
    assert op in [op];
    match op
    case Arrives(link, seg) =>
      var c' := Noted(cfg, c, link, seg);
      if seg.key == key {
        var d := if seg.syn then OnSyn(cfg, c', key).0 else c';
        assert seg.syn ==> d == Ensure(cfg, c', key) && Silent(OnSyn(cfg, c', key).1, key);
        var e := Ensure(cfg, d, key);
        var s := Insert(e.sessions[key], seg.seqNum, seg.payload);
        NeverReacts(cfg, e.(sessions := e.sessions[key := Deliver(s)]), key, Blocks(s), s.delivered);
      } else {
        ProcessOwn(cfg, c', seg);
        ProcessFrame(cfg, c', seg);
        hide Process;
      }
    case _ =>
  }

  lemma {:induction false} UndisturbedStaysOpen(cfg: Config, ops: seq<Op>, key: Key)
    requires Undisturbed(cfg, ops, key)
    ensures StaysOpen(cfg, ops, key)
  {
    if ops != [] {
      UndisturbedStaysOpen(cfg, ops[..|ops| - 1], key);
      UndisturbedStep(cfg, Run(cfg, ops[..|ops| - 1]), ops[|ops| - 1], key);
    }
  }
}
