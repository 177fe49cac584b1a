/** Erasing the events of all other sessions from a run: when it changes nothing for
    a session that stays open. */
module Erasing {
  import opened Words
  import opened Reassembly
  import opened StreamSpec
  import opened Runs
  import opened Isolation

  // ---- Steps of a session in two runs ----

  /** A number already taken completes no in-order run. */
  lemma {:induction false} AbsorbedIsSilent(cfg: Config, c: Core, seg: Seg)
    requires seg.key in c.sessions && Settled(cfg, Rx(c.sessions[seg.key]))
    requires seg.seqNum in c.sessions[seg.key].buffer
    ensures OnPayload(cfg, c, seg) == (c, [])
  {
    var s := c.sessions[seg.key];
    assert Insert(s, seg.seqNum, seg.payload) == s && (s.handler ==> !Ready(s));
    assert c.(sessions := c.sessions[seg.key := s]) == c;
  }

  /** A data segment that closes nothing in one run closes nothing in another run that
      agrees on the session, also if only one of them takes it for a duplicate. */
  lemma {:induction false} DataStaysOpen(cfg: Config, a: Core, b: Core, key: Key, solo: Option<Session>,
                                         link: Link, seg: Seg)
    requires Agrees(cfg, a, key, solo) && Agrees(cfg, b, key, solo)
    requires seg.key == key && Carries(seg) && !seg.syn && !seg.fin
    requires !Closing(cfg, a, Arrives(link, seg), key)
    ensures !Closing(cfg, b, Arrives(link, seg), key)
  {
    if DedupOf(seg) !in b.memory.seen && !OutOfWindow(cfg, b, seg) {
      var b' := Noted(cfg, b, link, seg);
      assert Receive(cfg, b, link, seg) == OnPayload(cfg, b', seg);
      if DedupOf(seg) in a.memory.seen {
        AbsorbedIsSilent(cfg, b', seg);
      } else {
        assert Receive(cfg, a, link, seg) == OnPayload(cfg, Noted(cfg, a, link, seg), seg);
        PayloadTransfer(cfg, cfg, Noted(cfg, a, link, seg), b', seg);
      }
    }
  }

  /** The segment closes the session unless it is a duplicate: a FIN that finds the
      session, or a SYN whose handler closes it in the open callback. */
  ghost predicate Threat(cfg: Config, c: Core, op: Op, key: Key) {
    op.Arrives? && op.seg.key == key && key in c.sessions && !OutOfWindow(cfg, c, op.seg)
    && (op.seg.fin
        || (op.seg.syn && c.sessions[key].handler && cfg.reacts(key, OnOpen, c.sessions[key].delivered)))
  }

  /** From state c on, each such segment comes while its key is remembered. */
  ghost predicate ThreatsRemembered(cfg: Config, c: Core, ops: seq<Op>, key: Key) {
    ops == []
    || (ThreatsRemembered(cfg, c, ops[..|ops| - 1], key)
        && var d, op := Continue(cfg, c, ops[..|ops| - 1]), ops[|ops| - 1];
           Threat(cfg, d, op, key) ==> DedupOf(op.seg) in d.memory.seen)
  }

  lemma {:induction false} ControlClosesIff(cfg: Config, c: Core, key: Key, link: Link, seg: Seg)
    requires seg.key == key && Plain(seg) && (seg.syn || seg.fin) && key in c.sessions
    ensures Closing(cfg, c, Arrives(link, seg), key)
       <==> Threat(cfg, c, Arrives(link, seg), key) && DedupOf(seg) !in c.memory.seen
  {
    if DedupOf(seg) !in c.memory.seen && !OutOfWindow(cfg, c, seg) {
      var c' := Noted(cfg, c, link, seg);
      assert Receive(cfg, c, link, seg) == Process(cfg, c', seg);
      OnFinFrame(cfg, c', key);
      hide Receive, OnFin, DedupOf, OutOfWindow;
      if seg.syn {
        assert c'.sessions[key] == c.sessions[key];
      }
    }
  }

  /** A session that is absent in both runs is closed by no open or close. */
  lemma {:induction false} ControlOfNone(cfg: Config, a: Core, b: Core, key: Key, link: Link, seg: Seg)
    requires seg.key == key && Plain(seg) && (seg.syn || seg.fin) && key !in a.sessions && key !in b.sessions
    requires Agrees(cfg, a, key, None) && !Closing(cfg, a, Arrives(link, seg), key)
    ensures !Closing(cfg, b, Arrives(link, seg), key)
  {
    if seg.syn {
      var a', b' := Noted(cfg, a, link, seg), Noted(cfg, b, link, seg);
      assert Receive(cfg, a, link, seg) == Process(cfg, a', seg);
      assert OnSyn(cfg, a', key).1 == Receive(cfg, a, link, seg).1;
      SynTransfer(cfg, cfg, a', b', key);
    }
  }

  lemma {:induction false} OwnStepClosesIff(cfg: Config, a: Core, b: Core, key: Key, solo: Option<Session>, op: Op)
    requires Agrees(cfg, a, key, solo) && Agrees(cfg, b, key, solo)
    requires Concerns(op, key) && Proper(cfg, op, key) && !Closing(cfg, a, op, key)
    ensures Closing(cfg, b, op, key) <==> Threat(cfg, b, op, key) && DedupOf(op.seg) !in b.memory.seen
  {
    match op
    case Arrives(link, seg) =>
      if !seg.syn && !seg.fin {
        DataStaysOpen(cfg, a, b, key, solo, link, seg);
      } else if key in b.sessions {
        ControlClosesIff(cfg, b, key, link, seg);
      } else {
        ControlOfNone(cfg, a, b, key, link, seg);
      }
    case _ =>
  }

  lemma {:induction false} OwnSnoc(ops: seq<Op>, key: Key)
    requires ops != []
    ensures var init, op := ops[..|ops| - 1], ops[|ops| - 1];
            if Concerns(op, key) then
              Own(ops, key) != [] && Own(ops, key)[..|Own(ops, key)| - 1] == Own(init, key)
              && Own(ops, key)[|Own(ops, key)| - 1] == op
            else Own(ops, key) == Own(init, key)
  {}

  /** One event of the run, in the full and in the erased one. */
  lemma {:induction false} ErasedStep(cfg: Config, c: Core, d: Core, init: seq<Op>, op: Op, key: Key)
    requires ValidConfig(cfg) && AllProper(cfg, init, key) && Fresh(c, key) && Fresh(d, key) && Concerns(op, key)
    requires StaysOpenFrom(cfg, c, init, key) && StaysOpenFrom(cfg, d, Own(init, key), key)
    requires Proper(cfg, op, key) && !Closing(cfg, Continue(cfg, c, init), op, key)
    ensures SameSession(Continue(cfg, c, init), Continue(cfg, d, Own(init, key)), key)
    ensures var b := Continue(cfg, d, Own(init, key));
            Closing(cfg, b, op, key) <==> Threat(cfg, b, op, key) && DedupOf(op.seg) !in b.memory.seen
  {
    OwnSubset(init, key);
    IncarnationIsSolo(cfg, c, init, key);
    IncarnationIsSolo(cfg, d, Own(init, key), key);
    SoloOfOwn(cfg, init, key);
    hide Continue, Solo, Own, StaysOpenFrom, Closing, Settled, Concerns;
    OwnStepClosesIff(cfg, Continue(cfg, c, init), Continue(cfg, d, Own(init, key)), key, Solo(cfg, key, init), op);
  }

  /** Erasing all events of all other sessions from a run in which a session stays open
      leaves it open, if and only if in the erased run its FINs and closing SYNs find
      their keys remembered: without the other sessions' segments keys are evicted, and
      remembered anew, at other times. */
  lemma {:induction false} ErasedStaysOpenIff(cfg: Config, c: Core, d: Core, ops: seq<Op>, key: Key)
    requires ValidConfig(cfg) && AllProper(cfg, ops, key) && Fresh(c, key) && Fresh(d, key)
    requires StaysOpenFrom(cfg, c, ops, key)
    ensures StaysOpenFrom(cfg, d, Own(ops, key), key) <==> ThreatsRemembered(cfg, d, Own(ops, key), key)
  {
    if ops != [] {
      var init, op := ops[..|ops| - 1], ops[|ops| - 1];
      OwnSnoc(ops, key);
      ErasedStaysOpenIff(cfg, c, d, init, key);
      hide Own, Continue, Closing, Threat, Concerns;
      if Concerns(op, key) && StaysOpenFrom(cfg, d, Own(init, key), key) {
        assert Proper(cfg, op, key);
        ErasedStep(cfg, c, d, init, op, key);
      }
    }
  }

  /** Then nothing at all changes for it. */
  lemma {:induction false} ErasedIsSame(cfg: Config, c: Core, d: Core, ops: seq<Op>, key: Key)
    requires ValidConfig(cfg) && AllProper(cfg, ops, key) && Fresh(c, key) && Fresh(d, key)
    requires StaysOpenFrom(cfg, c, ops, key) && ThreatsRemembered(cfg, d, Own(ops, key), key)
    ensures StaysOpenFrom(cfg, d, Own(ops, key), key)
    ensures SameSession(Continue(cfg, c, ops), Continue(cfg, d, Own(ops, key)), key)
  {
    ErasedStaysOpenIff(cfg, c, d, ops, key);
    OwnSubset(ops, key);
    OwnTwice(ops, key);
    hide Own, Continue, StaysOpenFrom, ThreatsRemembered, SameSession;
    IncarnationsAreIsolated(cfg, c, ops, d, Own(ops, key), key);
  }

  lemma {:induction false} OwnSubset(ops: seq<Op>, key: Key)
    ensures forall op | op in Own(ops, key) :: op in ops
  {
    if ops != [] {
      OwnSubset(ops[..|ops| - 1], key);
    }
  }

  lemma {:induction false} OwnTwice(ops: seq<Op>, key: Key)
    ensures Own(Own(ops, key), key) == Own(ops, key)
  {
    if ops != [] {
      OwnTwice(ops[..|ops| - 1], key);
      OwnSnoc(ops, key);
    }
  }

  // ---- Conditions on the input under which the erased run stays open ----

  /** No FIN arrives, and no OnOpen callback closes. */
  ghost predicate OpensInPeace(cfg: Config, ops: seq<Op>, key: Key) {
    && (forall op | op in ops :: op.Arrives? && op.seg.key == key ==> !op.seg.fin)
    && (forall before :: !cfg.reacts(key, OnOpen, before))
  }

  lemma {:induction false} PeaceIsNoThreat(cfg: Config, c: Core, ops: seq<Op>, key: Key)
    requires OpensInPeace(cfg, ops, key)
    ensures ThreatsRemembered(cfg, c, ops, key)
  {
    if ops != [] {
      PeaceIsNoThreat(cfg, c, ops[..|ops| - 1], key);
      assert ops[|ops| - 1] in ops;
      hide Continue, OutOfWindow;
    }
  }

  /** For a session without FIN and closing open callback, erasing all events of all
      other sessions changes nothing: it stays open, with the same bytes, buffer and
      position. */
  lemma {:induction false} ErasingOthersChangesNothing(cfg: Config, ops: seq<Op>, key: Key)
    requires ValidConfig(cfg) && AllProper(cfg, ops, key) && StaysOpen(cfg, ops, key) && OpensInPeace(cfg, ops, key)
    ensures StaysOpen(cfg, Own(ops, key), key) && AllProper(cfg, Own(ops, key), key)
    ensures SameSession(Run(cfg, ops), Run(cfg, Own(ops, key)), key)
  {
    OwnSubset(ops, key);
    FromStart(cfg, ops, key);
    FromStart(cfg, Own(ops, key), key);
    hide Own, Run, Continue, StaysOpen, StaysOpenFrom, SameSession, ThreatsRemembered;
    PeaceIsNoThreat(cfg, START, Own(ops, key), key);
    ErasedIsSame(cfg, START, START, ops, key);
  }

  /** The duplicate keys of the session's own segments. */
  function OwnKeys(ops: seq<Op>, key: Key): set<DedupKey> {
    set op | op in ops && op.Arrives? && op.seg.key == key :: DedupOf(op.seg)
  }

  lemma {:induction false} DistinctFit(ring: seq<DedupKey>, keys: set<DedupKey>)
    requires forall i, j | 0 <= i < j < |ring| :: ring[i] != ring[j]
    requires forall k | k in ring :: k in keys
    ensures |ring| <= |keys|
  {
    if ring != [] {
      var last := ring[|ring| - 1];
      assert forall k | k in ring[..|ring| - 1] :: k in ring && k != last;
      assert last in ring;
      DistinctFit(ring[..|ring| - 1], keys - {last});
    }
  }

  /** A memory whose keys are among few enough is never full. */
  lemma {:induction false} NeverEvicts(m: Memory, k: DedupKey, keys: set<DedupKey>, forgets: bool)
    requires MemoryOk(m, forgets) && m.seen <= keys && k in keys && k !in m.seen
    requires forgets ==> |keys| <= DEDUP_RING
    ensures Remember(m, k, forgets).seen == m.seen + {k}
  {
    var ring := m.ring + [k];
    assert forall j | j in ring :: j in m.ring || j == k;
    assert forall i, j | 0 <= i < j < |ring| :: ring[i] != ring[j];
    DistinctFit(ring, keys);
  }

  /** The erased run remembers the session's keys that the full run does, and no others. */
  ghost predicate Covers(a: Core, b: Core, key: Key, keys: set<DedupKey>) {
    b.memory.seen <= keys && forall k | k in a.memory.seen && k.key == key :: k in b.memory.seen
  }

  lemma {:induction false} OwnStepCovers(cfg: Config, a: Core, b: Core, op: Op, key: Key, keys: set<DedupKey>)
    requires Covers(a, b, key, keys) && SameSession(a, b, key) && MemoryOk(b.memory, cfg.forgets)
    requires cfg.forgets ==> |keys| <= DEDUP_RING
    requires Concerns(op, key) && (op.Arrives? ==> DedupOf(op.seg) in keys)
    ensures Covers(Step(cfg, a, op).0, Step(cfg, b, op).0, key, keys)
  {
    match op
    case Arrives(link, seg) =>
      ProcessFrame(cfg, Noted(cfg, a, link, seg), seg);
      ProcessFrame(cfg, Noted(cfg, b, link, seg), seg);
      RememberOne(a.memory, DedupOf(seg), cfg.forgets);
      if DedupOf(seg) !in b.memory.seen {
        NeverEvicts(b.memory, DedupOf(seg), keys, cfg.forgets);
      }
      hide Process, Remember, MemoryOk, DedupOf;
    case _ =>
  }

  /** Other events bring no keys of the session. */
  lemma {:induction false} OtherStepCovers(cfg: Config, a: Core, b: Core, op: Op, key: Key, keys: set<DedupKey>)
    requires Covers(a, b, key, keys) && !Concerns(op, key)
    ensures Covers(Step(cfg, a, op).0, b, key, keys)
  {
    match op
    case Arrives(link, seg) =>
      ProcessFrame(cfg, Noted(cfg, a, link, seg), seg);
      RememberOne(a.memory, DedupOf(seg), cfg.forgets);
      hide Process, Remember;
    case _ =>
  }

  /** A threat that the full run drops as a duplicate is one in the erased run. */
  lemma {:induction false} CoveredThreat(cfg: Config, a: Core, b: Core, op: Op, key: Key, keys: set<DedupKey>)
    requires Covers(a, b, key, keys) && SameSession(a, b, key) && Proper(cfg, op, key)
    requires !Closing(cfg, a, op, key) && Threat(cfg, b, op, key)
    ensures DedupOf(op.seg) in b.memory.seen
  {
    assert Threat(cfg, a, op, key);
    hide Closing, Threat;
    ControlClosesIff(cfg, a, key, op.link, op.seg);
  }

  lemma {:induction false} OwnKeysOf(ops: seq<Op>, key: Key, keys: set<DedupKey>)
    requires ops != [] && OwnKeys(ops, key) <= keys
    ensures var init, op := ops[..|ops| - 1], ops[|ops| - 1];
            OwnKeys(init, key) <= keys && (op.Arrives? && Concerns(op, key) ==> DedupOf(op.seg) in keys)
  {
    var init, op := ops[..|ops| - 1], ops[|ops| - 1];
    assert forall o | o in init :: o in ops;
    assert op.Arrives? && op.seg.key == key ==> DedupOf(op.seg) in OwnKeys(ops, key);
  }

  /** An event of the session: it does not close the session in the erased run either. */
  lemma {:induction false} ErasedStepCovers(cfg: Config, init: seq<Op>, op: Op, key: Key, keys: set<DedupKey>)
    requires ValidConfig(cfg) && AllProper(cfg, init, key) && StaysOpenFrom(cfg, START, init, key)
    requires StaysOpenFrom(cfg, START, Own(init, key), key)
    requires Covers(Continue(cfg, START, init), Continue(cfg, START, Own(init, key)), key, keys)
    requires cfg.forgets ==> |keys| <= DEDUP_RING
    requires Concerns(op, key) && (op.Arrives? ==> DedupOf(op.seg) in keys)
    requires Proper(cfg, op, key) && !Closing(cfg, Continue(cfg, START, init), op, key)
    ensures var a, b := Continue(cfg, START, init), Continue(cfg, START, Own(init, key));
            !Closing(cfg, b, op, key) && Covers(Step(cfg, a, op).0, Step(cfg, b, op).0, key, keys)
  {
    var a, b := Continue(cfg, START, init), Continue(cfg, START, Own(init, key));
    FromStart(cfg, Own(init, key), key);
    MemoryAlways(cfg, Own(init, key));
    assert Fresh(START, key);
    hide *;
    ErasedStep(cfg, START, START, init, op, key);
    if Threat(cfg, b, op, key) { CoveredThreat(cfg, a, b, op, key, keys); }
    OwnStepCovers(cfg, a, b, op, key, keys);
  }

  lemma {:induction false} ErasedCovers(cfg: Config, ops: seq<Op>, key: Key, keys: set<DedupKey>)
    requires ValidConfig(cfg) && AllProper(cfg, ops, key) && StaysOpenFrom(cfg, START, ops, key)
    requires OwnKeys(ops, key) <= keys && (cfg.forgets ==> |keys| <= DEDUP_RING)
    ensures StaysOpenFrom(cfg, START, Own(ops, key), key)
    ensures Covers(Continue(cfg, START, ops), Continue(cfg, START, Own(ops, key)), key, keys)
  {
    if ops != [] {
      hide Closing, Threat, Covers, Step, OwnKeys, Concerns;
      var init, op := ops[..|ops| - 1], ops[|ops| - 1];
      OwnSnoc(ops, key);
      OwnKeysOf(ops, key, keys);
      assert Proper(cfg, op, key);
      hide Proper, Own;
      ErasedCovers(cfg, init, key, keys);
      if Concerns(op, key) {
        ErasedStepCovers(cfg, init, op, key, keys);
      } else {
        OtherStepCovers(cfg, Continue(cfg, START, init), Continue(cfg, START, Own(init, key)), op, key, keys);
      }
    }
  }

  /** So erasing changes nothing, FINs and closing callbacks included, for a session
      whose own segments have at most 4096 different duplicate keys: the erased run
      then forgets nothing. */
  lemma {:induction false} ErasingFromFewChangesNothing(cfg: Config, ops: seq<Op>, key: Key)
    requires ValidConfig(cfg) && AllProper(cfg, ops, key) && StaysOpen(cfg, ops, key)
    requires cfg.forgets ==> |OwnKeys(ops, key)| <= DEDUP_RING
    ensures StaysOpen(cfg, Own(ops, key), key)
    ensures SameSession(Run(cfg, ops), Run(cfg, Own(ops, key)), key)
  {
    FromStart(cfg, ops, key);
    FromStart(cfg, Own(ops, key), key);
    hide Own, Run, Continue, StaysOpen, StaysOpenFrom, SameSession, ThreatsRemembered, OwnKeys;
    ErasedCovers(cfg, ops, key, OwnKeys(ops, key));
    ErasedStaysOpenIff(cfg, START, START, ops, key);
    ErasedIsSame(cfg, START, START, ops, key);
  }
}
