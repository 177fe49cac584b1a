/** What the duplicate memory keeps too long, and what it forgets: an incarnation that
    is not heard, and a session that is closed because others are silent. */
module Eviction {
  import opened Words
  import opened StreamSpec
  import opened Runs
  import opened Isolation
  import opened Erasing

  // ---- An earlier incarnation ----

  lemma {:induction false} FirstAccepted(cfg: Config, c: Core, link: Link, seg: Seg)
    requires DedupOf(seg) !in c.memory.seen && !OutOfWindow(cfg, c, seg) && |c.memory.ring| < DEDUP_RING
    ensures Receive(cfg, c, link, seg) == Process(cfg, Noted(cfg, c, link, seg), seg)
    ensures var m := Receive(cfg, c, link, seg).0.memory;
            m.seen == c.memory.seen + {DedupOf(seg)} && m.ring == c.memory.ring + [DedupOf(seg)]
  {
    ProcessFrame(cfg, Noted(cfg, c, link, seg), seg);
    hide Process;
  }

  lemma {:induction false} DataThenFin(cfg: Config, key: Key, data: Seg, fin: Seg, link: Link)
    requires ValidConfig(cfg) && data.key == key && !data.syn && !data.fin && data.seqNum == 0
    requires fin.key == key && !fin.syn && fin.fin && fin.payload == []
    ensures var c := Receive(cfg, Receive(cfg, START, link, data).0, link, fin).0;
            key !in c.sessions && DedupOf(data) in c.memory.seen
  {
    var a := Receive(cfg, START, link, data).0;
    FirstAccepted(cfg, START, link, data);
    assert DedupOf(fin) !in a.memory.seen;
    FirstAccepted(cfg, a, link, fin);
    OnFinFrame(cfg, Noted(cfg, a, link, fin), key);
    assert Process(cfg, Noted(cfg, a, link, fin), fin) == OnFin(cfg, Noted(cfg, a, link, fin), key);
    hide OnFin, Process, Receive;
  }

  /** Exact reassembly of an incarnation needs that its keys are not remembered: one
      that reuses the numbers of the one before, as after a restart of the peer, is not heard. A hello
      of a new generation in between makes no difference, as it forgets no duplicate. */
  lemma {:induction false} SecondIncarnationIsDeaf(cfg: Config, key: Key, n: u32, first: seq<u8>, second: seq<u8>,
                                                   hello: seq<u8>, link: Link)
    requires ValidConfig(cfg) && first != [] && second != []
    ensures var c := Run(cfg, [Arrives(link, Seg(key, 0, false, false, true, first)),
                               Arrives(link, Seg(key, n, false, true, false, [])), Greets(link, hello)]);
            && key !in c.sessions
            && Receive(cfg, c, link, Seg(key, 0, false, false, true, second)).0.sessions == c.sessions
            && Receive(cfg, c, link, Seg(key, 0, false, false, true, second)).1 == []
  {
    var data, fin := Seg(key, 0, false, false, true, first), Seg(key, n, false, true, false, []);
    var x, y, z := Arrives(link, data), Arrives(link, fin), Greets(link, hello);
    assert [] + [x] == [x] && [x] + [y] == [x, y] && [x, y] + [z] == [x, y, z];
    RunSnoc(cfg, [], x);
    RunSnoc(cfg, [x], y);
    RunSnoc(cfg, [x, y], z);
    assert Run(cfg, []) == START;
    DataThenFin(cfg, key, data, fin, link);
    hide Run, Process;
  }

  // ---- A memory filled by opens ----

  function Syn(k: Key, i: u32): Op { Arrives(0, Seg(k, i, true, false, false, [])) }

  function Fin(k: Key, i: u32): Op { Arrives(0, Seg(k, i, false, true, false, [])) }

  function SynKey(k: Key, i: u32): DedupKey { DedupKey(k, i, SynKind) }

  function FinKey(k: Key, i: u32): DedupKey { DedupKey(k, i, FinKind) }

  function Syns(k: Key, n: nat): seq<Op>
    requires n <= TWO32
  {
    if n == 0 then [] else Syns(k, n - 1) + [Syn(k, n - 1)]
  }

  function SynKeys(k: Key, n: nat): (keys: seq<DedupKey>)
    requires n <= TWO32
    ensures |keys| == n && forall i: u32 | i < n :: keys[i] == SynKey(k, i)
  {
    if n == 0 then [] else SynKeys(k, n - 1) + [SynKey(k, n - 1)]
  }

  /** The session's handler never closes it. */
  ghost predicate Inert(cfg: Config, key: Key) { forall callback, before :: !cfg.reacts(key, callback, before) }

  /** The newest 4096 of these keys. */
  function Newest(keys: seq<DedupKey>): seq<DedupKey> {
    if |keys| > DEDUP_RING then keys[|keys| - DEDUP_RING..] else keys
  }

  function RingOf(c: Core): seq<DedupKey> { c.memory.ring }

  lemma {:induction false} RememberNewest(m: Memory, k: DedupKey)
    requires |m.ring| <= DEDUP_RING
    ensures Remember(m, k, true).ring == Newest(m.ring + [k])
  {}

  lemma {:induction false} ReceiveNew(cfg: Config, c: Core, link: Link, seg: Seg)
    requires !Carries(seg) && DedupOf(seg) !in c.memory.seen
    ensures Receive(cfg, c, link, seg).0 == Process(cfg, Noted(cfg, c, link, seg), seg).0
    ensures Receive(cfg, c, link, seg).0.memory == Remember(c.memory, DedupOf(seg), cfg.forgets)
  {
    ProcessFrame(cfg, Noted(cfg, c, link, seg), seg);
    hide Process, Remember;
  }

  /** An open or close whose key is not remembered is remembered and processed. */
  lemma {:induction false} Accepted(cfg: Config, ops: seq<Op>, op: Op)
    requires cfg.forgets && op.Arrives? && !Carries(op.seg) && DedupOf(op.seg) !in RingOf(Run(cfg, ops))
    ensures RingOf(Run(cfg, ops + [op])) == Newest(RingOf(Run(cfg, ops)) + [DedupOf(op.seg)])
    ensures var c := Run(cfg, ops); Run(cfg, ops + [op]) == Process(cfg, Noted(cfg, c, op.link, op.seg), op.seg).0
  {
    hide Run, Receive, Process, Remember, Newest, DedupOf, Carries, Noted;
    var c := Run(cfg, ops);
    RunSnoc(cfg, ops, op);
    MemoryAlways(cfg, ops);
    RememberNewest(c.memory, DedupOf(op.seg));
    ReceiveNew(cfg, c, op.link, op.seg);
  }

  /** One whose key is remembered is dropped. */
  lemma {:induction false} Dropped(cfg: Config, ops: seq<Op>, op: Op)
    requires op.Arrives? && DedupOf(op.seg) in RingOf(Run(cfg, ops))
    ensures Run(cfg, ops + [op]).memory == Run(cfg, ops).memory
    ensures Run(cfg, ops + [op]).sessions == Run(cfg, ops).sessions
    ensures Step(cfg, Run(cfg, ops), op).1 == []
  {
    RunSnoc(cfg, ops, op);
    MemoryAlways(cfg, ops);
    hide Process, Run;
  }

  lemma {:induction false} AcceptedSyn(cfg: Config, ops: seq<Op>, k: Key, i: u32)
    requires cfg.forgets && SynKey(k, i) !in RingOf(Run(cfg, ops))
    ensures RingOf(Run(cfg, ops + [Syn(k, i)])) == Newest(RingOf(Run(cfg, ops)) + [SynKey(k, i)])
    ensures Inert(cfg, k) ==> k in Run(cfg, ops + [Syn(k, i)]).sessions
  {
    hide Run;
    Accepted(cfg, ops, Syn(k, i));
  }

  lemma {:induction false} SynsSnoc(ops: seq<Op>, k: Key, n: nat)
    requires 0 < n <= TWO32
    ensures ops + Syns(k, n) == (ops + Syns(k, n - 1)) + [Syn(k, n - 1)]
  {}

  lemma {:induction false} NewestSnoc(a: seq<DedupKey>, b: seq<DedupKey>, x: DedupKey)
    ensures Newest(Newest(a + b) + [x]) == Newest(a + (b + [x]))
  {
    assert a + (b + [x]) == (a + b) + [x];
  }

  lemma {:induction false} NewestIn(keys: seq<DedupKey>)
    ensures forall x | x in Newest(keys) :: x in keys
  {}

  lemma {:induction false} SynsNone(ops: seq<Op>, k: Key, ring: seq<DedupKey>)
    ensures ops + Syns(k, 0) == ops && ring + SynKeys(k, 0) == ring && (|ring| <= DEDUP_RING ==> Newest(ring) == ring)
  {}

  /** The number n - 1 is new to a memory that had none of these keys. */
  lemma {:induction false} NextIsNew(ring: seq<DedupKey>, k: Key, n: nat)
    requires 0 < n <= TWO32 && forall i: u32 | i < n :: SynKey(k, i) !in ring
    ensures SynKey(k, n - 1) !in Newest(ring + SynKeys(k, n - 1))
    ensures Newest(Newest(ring + SynKeys(k, n - 1)) + [SynKey(k, n - 1)]) == Newest(ring + SynKeys(k, n))
  {
    NewestIn(ring + SynKeys(k, n - 1));
    assert SynKey(k, n - 1) !in SynKeys(k, n - 1);
    NewestSnoc(ring, SynKeys(k, n - 1), SynKey(k, n - 1));
    hide Newest;
  }

  /** A burst of opens fills the memory. */
  lemma {:induction false} SynsFill(cfg: Config, ops: seq<Op>, k: Key, n: nat)
    requires cfg.forgets && n <= TWO32 && forall i: u32 | i < n :: SynKey(k, i) !in RingOf(Run(cfg, ops))
    ensures RingOf(Run(cfg, ops + Syns(k, n))) == Newest(RingOf(Run(cfg, ops)) + SynKeys(k, n))
  {
    if n == 0 {
      MemoryAlways(cfg, ops);
      SynsNone(ops, k, RingOf(Run(cfg, ops)));
      hide Run, Syns;
    } else {
      hide *;
      SynsFill(cfg, ops, k, n - 1);
      SynsSnoc(ops, k, n);
      NextIsNew(RingOf(Run(cfg, ops)), k, n);
      AcceptedSyn(cfg, ops + Syns(k, n - 1), k, n - 1);
    }
  }

  /** The memory holds 4096 keys and no more: of the opens of a session that is new to an
      empty memory, all up to 4096 are remembered; one more pushes out the first. */
  lemma {:induction false} HoldsExactly4096(cfg: Config, k: Key, n: nat)
    requires cfg.forgets && n <= 4096
    ensures RingOf(Run(cfg, Syns(k, n))) == SynKeys(k, n)
    ensures RingOf(Run(cfg, Syns(k, 4097))) == SynKeys(k, 4097)[1..]
  {
    assert [] + Syns(k, n) == Syns(k, n) && [] + Syns(k, 4097) == Syns(k, 4097);
    assert RingOf(Run(cfg, [])) == [];
    assert [] + SynKeys(k, n) == SynKeys(k, n) && [] + SynKeys(k, 4097) == SynKeys(k, 4097);
    hide Run, Syns, RingOf;
    SynsFill(cfg, [], k, n);
    SynsFill(cfg, [], k, 4097);
  }

  /** Opens of other sessions leave a session where it is. */
  lemma {:induction false} SynsSpare(cfg: Config, ops: seq<Op>, key: Key, k: Key, n: nat)
    requires n <= TWO32 && k != key && key !in Run(cfg, ops).sessions
    ensures key !in Run(cfg, ops + Syns(k, n)).sessions
  {
    if n == 0 {
      SynsNone(ops, k, []);
      hide Run, Syns;
    } else {
      hide *;
      SynsSpare(cfg, ops, key, k, n - 1);
      SynsSnoc(ops, k, n);
      SynSpares(cfg, ops + Syns(k, n - 1), key, k, n - 1);
    }
  }

  lemma {:induction false} SynSpares(cfg: Config, ops: seq<Op>, key: Key, k: Key, i: u32)
    requires k != key
    ensures key in Run(cfg, ops + [Syn(k, i)]).sessions <==> key in Run(cfg, ops).sessions
  {
    RunSnoc(cfg, ops, Syn(k, i));
    ProcessFrame(cfg, Noted(cfg, Run(cfg, ops), 0, Syn(k, i).seg), Syn(k, i).seg);
    hide Run, Process;
  }

  lemma {:induction false} StaysOpenSnoc(cfg: Config, ops: seq<Op>, op: Op, key: Key)
    requires StaysOpen(cfg, ops, key) && !Closing(cfg, Run(cfg, ops), op, key)
    ensures StaysOpen(cfg, ops + [op], key)
  {
    assert (ops + [op])[..|ops|] == ops;
    hide Closing, Run;
  }

  lemma {:induction false} SynStaysOpen(cfg: Config, ops: seq<Op>, key: Key, k: Key, i: u32)
    requires StaysOpen(cfg, ops, key) && Inert(cfg, key)
    ensures StaysOpen(cfg, ops + [Syn(k, i)], key)
  {
    assert Undisturbed(cfg, [Syn(k, i)], key);
    hide Run, StaysOpen, Closing, Undisturbed, Syn;
    UndisturbedStep(cfg, Run(cfg, ops), Syn(k, i), key);
    StaysOpenSnoc(cfg, ops, Syn(k, i), key);
  }

  lemma {:induction false} SynsStayOpen(cfg: Config, ops: seq<Op>, key: Key, k: Key, n: nat)
    requires n <= TWO32 && StaysOpen(cfg, ops, key) && Inert(cfg, key)
    ensures StaysOpen(cfg, ops + Syns(k, n), key)
  {
    if n == 0 {
      SynsNone(ops, k, []);
      hide StaysOpen, Syns;
    } else {
      hide *;
      SynsStayOpen(cfg, ops, key, k, n - 1);
      SynsSnoc(ops, k, n);
      SynStaysOpen(cfg, ops + Syns(k, n - 1), key, k, n - 1);
    }
  }

  /** A FIN for a session that is not there. */
  lemma {:induction false} FinOfNone(cfg: Config, ops: seq<Op>, key: Key, i: u32)
    requires cfg.forgets && key !in Run(cfg, ops).sessions && FinKey(key, i) !in RingOf(Run(cfg, ops))
    requires StaysOpen(cfg, ops, key)
    ensures key !in Run(cfg, ops + [Fin(key, i)]).sessions && StaysOpen(cfg, ops + [Fin(key, i)], key)
    ensures RingOf(Run(cfg, ops + [Fin(key, i)])) == Newest(RingOf(Run(cfg, ops)) + [FinKey(key, i)])
  {
    Accepted(cfg, ops, Fin(key, i));
    RunSnoc(cfg, ops, Fin(key, i));
    hide Run;
    StaysOpenSnoc(cfg, ops, Fin(key, i), key);
  }

  // ---- The run ----

  /** Two FINs of a session that is not there. */
  function Start(key: Key): seq<Op> { [Fin(key, 0), Fin(key, 1)] }

  /** The full run up to the FIN that comes for the second time. */
  function Middle(key: Key, other: Key): seq<Op> { Start(key) + Syns(other, DEDUP_RING) + [Fin(key, 0)] }

  function Full(key: Key, other: Key): seq<Op> {
    Middle(key, other) + Syns(key, DEDUP_RING - 1) + [Fin(key, 0)]
  }

  function Erased(key: Key): seq<Op> {
    Start(key) + [Fin(key, 0)] + Syns(key, DEDUP_RING - 1) + [Fin(key, 0)]
  }

  lemma {:induction false} Started(cfg: Config, key: Key)
    requires cfg.forgets
    ensures RingOf(Run(cfg, Start(key))) == [FinKey(key, 0), FinKey(key, 1)]
    ensures key !in Run(cfg, Start(key)).sessions && StaysOpen(cfg, Start(key), key)
  {
    assert Run(cfg, []) == START && StaysOpen(cfg, [], key);
    assert [] + [Fin(key, 0)] == [Fin(key, 0)] && [Fin(key, 0)] + [Fin(key, 1)] == Start(key);
    hide Run, StaysOpen;
    FinOfNone(cfg, [], key, 0);
    FinOfNone(cfg, [Fin(key, 0)], key, 1);
  }

  /** After opens that are not remembered the session is there. */
  lemma {:induction false} Opened(cfg: Config, ops: seq<Op>, key: Key, n: nat)
    requires cfg.forgets && 0 < n <= TWO32 && Inert(cfg, key)
    requires forall i: u32 | i < n :: SynKey(key, i) !in RingOf(Run(cfg, ops))
    ensures key in Run(cfg, ops + Syns(key, n)).sessions
  {
    hide *;
    SynsFill(cfg, ops, key, n - 1);
    SynsSnoc(ops, key, n);
    NextIsNew(RingOf(Run(cfg, ops)), key, n);
    AcceptedSyn(cfg, ops + Syns(key, n - 1), key, n - 1);
  }

  /** The opens of the other session push the first FIN out, so that the second one is
      remembered anew, as the newest key. */
  lemma {:induction false} MiddleRemembersFin(cfg: Config, key: Key, other: Key)
    requires cfg.forgets && key != other && Inert(cfg, key)
    ensures var ring := RingOf(Run(cfg, Middle(key, other)));
            ring == SynKeys(other, DEDUP_RING)[1..] + [FinKey(key, 0)]
    ensures key !in Run(cfg, Middle(key, other)).sessions && StaysOpen(cfg, Middle(key, other), key)
  {
    var a := Start(key);
    Started(cfg, key);
    SynsFill(cfg, a, other, DEDUP_RING);
    SynsSpare(cfg, a, key, other, DEDUP_RING);
    SynsStayOpen(cfg, a, key, other, DEDUP_RING);
    hide Run, RingOf, StaysOpen, Syns;
    assert RingOf(Run(cfg, a + Syns(other, DEDUP_RING))) == SynKeys(other, DEDUP_RING);
    FinOfNone(cfg, a + Syns(other, DEDUP_RING), key, 0);
  }

  /** That is late enough to make the third FIN a duplicate. */
  lemma {:induction false} FullStaysOpen(cfg: Config, key: Key, other: Key)
    requires cfg.forgets && key != other && Inert(cfg, key)
    ensures StaysOpen(cfg, Full(key, other), key) && key in Run(cfg, Full(key, other)).sessions
  {
    var c := Middle(key, other);
    var d := c + Syns(key, DEDUP_RING - 1);
    MiddleRemembersFin(cfg, key, other);
    hide Run, RingOf, StaysOpen, Syns;
    var ring := RingOf(Run(cfg, c));
    SynsFill(cfg, c, key, DEDUP_RING - 1);
    Opened(cfg, c, key, DEDUP_RING - 1);
    SynsStayOpen(cfg, c, key, key, DEDUP_RING - 1);
    assert ring[DEDUP_RING - 1] == FinKey(key, 0);
    assert RingOf(Run(cfg, d))[0] == FinKey(key, 0);
    Dropped(cfg, d, Fin(key, 0));
    RunSnoc(cfg, d, Fin(key, 0));
    StaysOpenSnoc(cfg, d, Fin(key, 0), key);
  }

  /** In the erased run the first FIN is the one remembered, and forgotten in time. */
  lemma {:induction false} ErasedCloses(cfg: Config, key: Key)
    requires cfg.forgets && Inert(cfg, key)
    ensures !StaysOpen(cfg, Erased(key), key) && key !in Run(cfg, Erased(key)).sessions
  {
    var a := Start(key);
    var b := a + [Fin(key, 0)];
    var c := b + Syns(key, DEDUP_RING - 1);
    Started(cfg, key);
    hide RingOf;
    Dropped(cfg, a, Fin(key, 0));
    assert RingOf(Run(cfg, b)) == [FinKey(key, 0), FinKey(key, 1)];
    SynsFill(cfg, b, key, DEDUP_RING - 1);
    Opened(cfg, b, key, DEDUP_RING - 1);
    assert FinKey(key, 0) !in RingOf(Run(cfg, c));
    Accepted(cfg, c, Fin(key, 0));
    RunSnoc(cfg, c, Fin(key, 0));
    assert Erased(key) == c + [Fin(key, 0)] && Erased(key)[..|c|] == c;
    hide Run, Syns;
  }

  lemma {:induction false} OwnAppend(a: seq<Op>, b: seq<Op>, key: Key)
    ensures Own(a + b, key) == Own(a, key) + Own(b, key)
  {
    if b == [] {
      assert a + b == a;
    } else {
      assert (a + b)[..|a + b| - 1] == a + b[..|b| - 1];
      OwnAppend(a, b[..|b| - 1], key);
    }
  }

  lemma {:induction false} OwnSyns(key: Key, k: Key, n: nat)
    requires n <= TWO32
    ensures Own(Syns(k, n), key) == if k == key then Syns(k, n) else []
  {
    if n > 0 {
      OwnSyns(key, k, n - 1);
      assert Syns(k, n)[..n - 1] == Syns(k, n - 1) by { SynsLength(k, n); SynsLength(k, n - 1); }
    }
  }

  lemma {:induction false} SynsLength(k: Key, n: nat)
    requires n <= TWO32
    ensures |Syns(k, n)| == n && forall op | op in Syns(k, n) :: op.Arrives? && op.seg.syn && Plain(op.seg)
  {
    if n > 0 {
      SynsLength(k, n - 1);
    }
  }

  lemma {:induction false} OwnOfFull(key: Key, other: Key)
    requires key != other
    ensures Own(Full(key, other), key) == Erased(key)
  {
    var a, s, t, f := Start(key), Syns(other, DEDUP_RING), Syns(key, DEDUP_RING - 1), [Fin(key, 0)];
    OwnSyns(key, other, DEDUP_RING);
    OwnSyns(key, key, DEDUP_RING - 1);
    assert f[..0] == [] && Own(f, key) == f;
    assert a[..1] == f && Own(a, key) == a;
    hide Own, Syns;
    OwnAppend(a, s, key);
    OwnAppend(a + s, f, key);
    OwnAppend(a + s + f, t, key);
    OwnAppend(a + s + f + t, f, key);
    assert a + [] == a;
  }

  lemma {:induction false} SetFits(keys: set<DedupKey>, ring: seq<DedupKey>)
    requires forall k | k in keys :: k in ring
    ensures |keys| <= |ring|
  {
    if ring != [] {
      var last := ring[|ring| - 1];
      assert forall k | k in keys - {last} :: k in ring[..|ring| - 1] by {
        assert ring == ring[..|ring| - 1] + [last];
      }
      SetFits(keys - {last}, ring[..|ring| - 1]);
    }
  }

  lemma {:induction false} SynsKeys(k: Key, n: nat)
    requires n <= TWO32
    ensures forall op | op in Syns(k, n) :: op.Arrives? && op.seg.key == k && DedupOf(op.seg) in SynKeys(k, n)
  {
    if n > 0 {
      SynsKeys(k, n - 1);
    }
  }

  /** The full run has one key of the session more than the memory holds. */
  lemma {:induction false} OneKeyTooMany(key: Key, other: Key)
    requires key != other
    ensures |OwnKeys(Full(key, other), key)| <= DEDUP_RING + 1
  {
    var keys := [FinKey(key, 0), FinKey(key, 1)] + SynKeys(key, DEDUP_RING - 1);
    SynsKeys(key, DEDUP_RING - 1);
    SynsKeys(other, DEDUP_RING);
    hide Syns, SynKeys;
    assert keys[0] == FinKey(key, 0) && keys[1] == FinKey(key, 1);
    forall op | op in Full(key, other) && op.Arrives? && op.seg.key == key ensures DedupOf(op.seg) in keys {
      assert op in Start(key) || op in Syns(other, DEDUP_RING) || op == Fin(key, 0) || op in Syns(key, DEDUP_RING - 1);
    }
    SetFits(OwnKeys(Full(key, other), key), keys);
  }

  /** So 4096 keys are the most for which erasing is harmless whatever arrives: this
      session has one more, its segments are plain, its handler never closes, and it stays
      open in the run; and without the other session's segments it is closed by a FIN. */
  lemma {:induction false} ErasingCanCloseAfterFin(cfg: Config, key: Key, other: Key)
    requires ValidConfig(cfg) && cfg.forgets && key != other && Inert(cfg, key)
    ensures AllProper(cfg, Full(key, other), key) && StaysOpen(cfg, Full(key, other), key)
    ensures key in Run(cfg, Full(key, other)).sessions
    ensures |OwnKeys(Full(key, other), key)| == DEDUP_RING + 1
    ensures !StaysOpen(cfg, Own(Full(key, other), key), key)
    ensures key !in Run(cfg, Own(Full(key, other), key)).sessions
  {
    FullStaysOpen(cfg, key, other);
    OwnOfFull(key, other);
    ErasedCloses(cfg, key);
    SynsLength(other, DEDUP_RING);
    SynsLength(key, DEDUP_RING - 1);
    hide Run, StaysOpen, Own, Syns;
    forall op | op in Full(key, other) ensures Proper(cfg, op, key) {
      assert op in Syns(other, DEDUP_RING) || op in Syns(key, DEDUP_RING - 1) || op in Start(key);
    }
    OneKeyTooMany(key, other);
    if |OwnKeys(Full(key, other), key)| <= DEDUP_RING {
      ErasingFromFewChangesNothing(cfg, Full(key, other), key);
      assert false;
    }
  }
}
