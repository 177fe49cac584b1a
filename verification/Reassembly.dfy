/** One session's receive side: the window, the buffer and the in-order run. */
module Reassembly {
  import opened Words

  /** A SessionState: its sequence numbers wrap at two to the 32. The field
      delivered records the bytes that the session's handler has been given. */
  datatype Session = Session(handler: bool, nextSend: u32, expected: u32, buffer: map<u32, seq<u8>>, delivered: seq<u8>)

  function NewSession(handler: bool): Session { Session(handler, 0, 0, map[], []) }

  /** The window test: how far seqNum lies ahead of expected, modulo wrap-around. */
  function Ahead(seqNum: u32, expected: u32): u32 { Sub32(seqNum, expected) }

  /** A non-overwriting insertion. */
  function Insert(s: Session, seqNum: u32, payload: seq<u8>): Session {
    if seqNum in s.buffer then s else s.(buffer := s.buffer[seqNum := payload])
  }

  /** The least buffered key, in plain numeric order, is the expected one. */
  predicate Ready(s: Session) {
    s.expected in s.buffer && forall k | k in s.buffer :: s.expected <= k
  }

  function Advance(s: Session): Session
    requires s.expected in s.buffer
  {
    s.(buffer := s.buffer - {s.expected}, expected := Succ32(s.expected),
       delivered := s.delivered + s.buffer[s.expected])
  }

  function Drain(s: Session): Session
    decreases s.buffer.Keys
  {
    if Ready(s) then
      assert Advance(s).buffer.Keys == s.buffer.Keys - {s.expected};
      Drain(Advance(s))
    else s
  }

  /** The payloads that Drain hands over, one by one. */
  function Blocks(s: Session): seq<seq<u8>>
    decreases s.buffer.Keys
  {
    if Ready(s) then
      assert Advance(s).buffer.Keys == s.buffer.Keys - {s.expected};
      [s.buffer[s.expected]] + Blocks(Advance(s))
    else []
  }

  function Deliver(s: Session): Session { if s.handler then Drain(s) else s }

  lemma {:induction false} DrainDelivers(s: Session)
    ensures Drain(s).delivered == s.delivered + Flat(Blocks(s))
    decreases s.buffer.Keys
  {
    if Ready(s) {
      assert Advance(s).buffer.Keys == s.buffer.Keys - {s.expected};
      DrainDelivers(Advance(s));
      FlatCons(s.buffer[s.expected], Blocks(Advance(s)));
    }
  }

  lemma {:induction false} DrainKeeps(s: Session)
    ensures Drain(s).handler == s.handler && Drain(s).nextSend == s.nextSend
    ensures Drain(s).buffer.Keys <= s.buffer.Keys
    ensures forall k | k in Drain(s).buffer :: Drain(s).buffer[k] == s.buffer[k]
    decreases s.buffer.Keys
  {
    if Ready(s) {
      assert Advance(s).buffer.Keys == s.buffer.Keys - {s.expected};
      DrainKeeps(Advance(s));
    }
  }

  /** One round of the draining loop, which looks at the least buffered number. */
  lemma {:induction false} DrainStep(s: Session, first: u32)
    requires first in s.buffer && forall k | k in s.buffer :: first <= k
    ensures first != s.expected ==> !Ready(s)
    ensures first == s.expected ==>
              Drain(s) == Drain(Advance(s)) && Blocks(s) == [s.buffer[first]] + Blocks(Advance(s))
              && Advance(s).buffer.Keys < s.buffer.Keys
  {
    if first == s.expected {
      assert Advance(s).buffer.Keys == s.buffer.Keys - {s.expected};
    }
  }

  lemma {:induction false} DrainEnd(s: Session)
    ensures !Ready(s) || s.buffer == map[] ==> Drain(s) == s && Blocks(s) == []
  {}

  /** The loop leaves nothing deliverable behind exactly when no buffered number
      is below the expected one: the buffer's order does not follow wrap-around. */
  lemma {:induction false} DrainCompleteIff(s: Session)
    ensures Drain(s).expected !in Drain(s).buffer
       <==> (s.expected in s.buffer ==> forall k | k in s.buffer :: s.expected <= k)
    decreases s.buffer.Keys
  {
    if Ready(s) {
      assert Advance(s).buffer.Keys == s.buffer.Keys - {s.expected};
      DrainCompleteIff(Advance(s));
      if s.expected == MAX32 {
        assert forall k | k in s.buffer :: k == s.expected;
      }
    }
  }

  /** At the wrap a session stalls: its expected segment is there, and stays. */
  lemma {:induction false} WrapStalls(a: seq<u8>, b: seq<u8>)
    ensures var s := NewSession(true).(expected := MAX32, buffer := map[MAX32 := a, 0 := b]);
            InWindow(s, 2) && s.expected in s.buffer && Deliver(s) == s
  {
    var s := NewSession(true).(expected := MAX32, buffer := map[MAX32 := a, 0 := b]);
    assert 0 in s.buffer;
  }

  // ---- The window invariant, modulo two to the 32 ----

  predicate InWindow(s: Session, window: nat) {
    forall k | k in s.buffer :: Ahead(k, s.expected) < window
  }

  lemma {:induction false} InsertInWindow(s: Session, window: nat, seqNum: u32, payload: seq<u8>)
    requires InWindow(s, window) && Ahead(seqNum, s.expected) < window
    ensures InWindow(Insert(s, seqNum, payload), window)
  {}

  lemma {:induction false} AheadOfNext(k: u32, expected: u32, window: nat)
    requires k != expected && Ahead(k, expected) < window
    ensures Ahead(k, Succ32(expected)) < window
  {}

  lemma {:induction false} DrainInWindow(s: Session, window: nat)
    requires InWindow(s, window)
    ensures InWindow(Drain(s), window)
    decreases s.buffer.Keys
  {
    if Ready(s) {
      var t := Advance(s);
      assert t.buffer.Keys == s.buffer.Keys - {s.expected};
      hide Ahead, Succ32;
      forall k | k in t.buffer
        ensures Ahead(k, t.expected) < window
      {
        assert k in s.buffer;
        AheadOfNext(k, s.expected, window);
      }
      DrainInWindow(t, window);
    }
  }

  function Range(n: nat): (r: set<int>)
    ensures |r| == n && forall d :: d in r <==> 0 <= d < n
  {
    if n == 0 then {} else Range(n - 1) + {n - 1}
  }

  function Offsets(keys: set<u32>, expected: u32): set<int> {
    set k | k in keys :: Ahead(k, expected)
  }

  /** So a buffer never holds more than a window of segments. */
  lemma {:induction false} BufferBounded(s: Session, window: nat)
    requires InWindow(s, window)
    ensures |s.buffer| <= window
  {
    ImageSize(s.buffer.Keys, s.expected);
    SubsetSize(Offsets(s.buffer.Keys, s.expected), Range(window));
  }

  lemma {:induction false} ImageSize(keys: set<u32>, expected: u32)
    ensures |Offsets(keys, expected)| == |keys|
  {
    if keys != {} {
      var x :| x in keys;
      ImageSize(keys - {x}, expected);
      var rest := Offsets(keys - {x}, expected);
      assert Ahead(x, expected) !in rest;
      assert Offsets(keys, expected) == rest + {Ahead(x, expected)};
    }
  }

  lemma {:induction false} SubsetSize<T>(a: set<T>, b: set<T>)
    requires a <= b
    ensures |a| <= |b|
  {
    if a != {} {
      var x :| x in a;
      SubsetSize(a - {x}, b - {x});
    }
  }

  // ---- A session without any memory of duplicates ----

  datatype Offer = Offer(seqNum: u32, payload: seq<u8>)

  /** What an unduplicated data segment does to an open session. */
  function Take(window: nat, s: Session, o: Offer): Session {
    if Ahead(o.seqNum, s.expected) >= window then s else Deliver(Insert(s, o.seqNum, o.payload))
  }

  function TakeAll(window: nat, s: Session, offers: seq<Offer>): Session {
    if offers == [] then s
    else Take(window, TakeAll(window, s, offers[..|offers| - 1]), offers[|offers| - 1])
  }

  /** The segments that passed the window test, each number with the payload
      that passed it first. */
  function Accepted(window: nat, s: Session, offers: seq<Offer>): map<u32, seq<u8>> {
    if offers == [] then map[]
    else
      var init, last := offers[..|offers| - 1], offers[|offers| - 1];
      var acc := Accepted(window, s, init);
      if Ahead(last.seqNum, TakeAll(window, s, init).expected) >= window || last.seqNum in acc then acc
      else acc[last.seqNum := last.payload]
  }

  ghost predicate Below(acc: map<u32, seq<u8>>, n: nat) {
    forall k: u32 | k < n :: k in acc
  }

  function Join(acc: map<u32, seq<u8>>, n: nat): seq<u8>
    requires n <= TWO32 && forall k: u32 | k < n :: k in acc
  {
    if n == 0 then [] else Join(acc, n - 1) + acc[n - 1]
  }

  lemma {:induction false} JoinSame(a: map<u32, seq<u8>>, b: map<u32, seq<u8>>, n: nat)
    requires n <= TWO32 && Below(a, n) && Below(b, n)
    requires forall k: u32 | k < n :: a[k] == b[k]
    ensures Join(a, n) == Join(b, n)
  {
    if n > 0 {
      JoinSame(a, b, n - 1);
    }
  }

  /** The session holds exactly what was accepted: below expected as delivered
      bytes in order, from there on as buffered payloads. */
  ghost predicate Holds(s: Session, acc: map<u32, seq<u8>>) {
    && Below(acc, s.expected)
    && s.delivered == Join(acc, s.expected)
    && (forall k: u32 :: k in s.buffer <==> k in acc && k >= s.expected)
    && (forall k: u32 | k in s.buffer :: s.buffer[k] == acc[k])
  }

  /** In addition nothing is deliverable: expected is the least number not accepted. */
  ghost predicate Reassembled(s: Session, acc: map<u32, seq<u8>>) {
    Holds(s, acc) && s.expected !in acc
  }

  lemma {:induction false} DrainReassembles(s: Session, acc: map<u32, seq<u8>>)
    requires Holds(s, acc) && MAX32 !in acc
    ensures Reassembled(Drain(s), acc)
    decreases s.buffer.Keys
  {
    if Ready(s) {
      assert Advance(s).buffer.Keys == s.buffer.Keys - {s.expected};
      DrainReassembles(Advance(s), acc);
    }
  }

  lemma {:induction false} TakeReassembles(window: nat, s: Session, acc: map<u32, seq<u8>>, o: Offer)
    requires s.handler && Reassembled(s, acc)
    requires o.seqNum + window < TWO32 && forall k | k in acc :: k + window < TWO32
    requires 0 < window
    ensures var acc' := if Ahead(o.seqNum, s.expected) >= window || o.seqNum in acc then acc
                        else acc[o.seqNum := o.payload];
            Reassembled(Take(window, s, o), acc')
  {
    if Ahead(o.seqNum, s.expected) < window {
      if s.expected > 0 {
        assert s.expected - 1 in acc;
      }
      assert o.seqNum >= s.expected;
      var acc' := if o.seqNum in acc then acc else acc[o.seqNum := o.payload];
      JoinSame(acc, acc', s.expected);
      DrainReassembles(Insert(s, o.seqNum, o.payload), acc');
    }
  }

  /** Exact reassembly, for segments in any order and any multiplicity, while the
      session uses fewer than 2^32 - window numbers. */
  lemma {:induction false} ExactReassembly(window: nat, s: Session, offers: seq<Offer>)
    requires s == NewSession(true) && 0 < window
    requires forall o | o in offers :: o.seqNum + window < TWO32
    ensures TakeAll(window, s, offers).handler
    ensures forall k | k in Accepted(window, s, offers) :: k + window < TWO32
    ensures Reassembled(TakeAll(window, s, offers), Accepted(window, s, offers))
  {
    if offers != [] {
      var init, last := offers[..|offers| - 1], offers[|offers| - 1];
      ExactReassembly(window, s, init);
      var t := TakeAll(window, s, init);
      TakeReassembles(window, t, Accepted(window, s, init), last);
      DrainKeeps(Insert(t, last.seqNum, last.payload));
    }
  }

  // ---- In order, across the wrap ----

  /** The data of a session, one segment each, in order and numbered from 0 on. */
  function InOrder(data: seq<seq<u8>>): seq<Offer> {
    if data == [] then []
    else InOrder(data[..|data| - 1]) + [Offer((|data| - 1) % TWO32, data[|data| - 1])]
  }

  lemma {:induction false} TakeNext(window: nat, s: Session, payload: seq<u8>)
    requires 0 < window && s.handler && s.buffer == map[]
    ensures Take(window, s, Offer(s.expected, payload))
            == s.(expected := Succ32(s.expected), delivered := s.delivered + payload)
  {
    var t := Insert(s, s.expected, payload);
    assert Ready(t) && Advance(t).buffer == map[];
    DrainEnd(Advance(t));
  }

  lemma {:induction false} TakeAllSnoc(window: nat, s: Session, offers: seq<Offer>, o: Offer)
    ensures TakeAll(window, s, offers + [o]) == Take(window, TakeAll(window, s, offers), o)
  {
    assert (offers + [o])[..|offers|] == offers;
  }

  /** Data that arrives in order is delivered at once, however much, also across the wrap. */
  lemma {:induction false} InOrderDelivers(window: nat, data: seq<seq<u8>>)
    requires 0 < window
    ensures TakeAll(window, NewSession(true), InOrder(data))
            == NewSession(true).(expected := |data| % TWO32, delivered := Flat(data))
    decreases |data|
  {
    if data != [] {
      var n := |data| - 1;
      var init, o := data[..n], Offer(n % TWO32, data[n]);
      assert InOrder(data) == InOrder(init) + [o] && data == init + [data[n]];
      assert Succ32(n % TWO32) == |data| % TWO32;
      InOrderDelivers(window, init);
      hide InOrder, TakeAll, Take, Flat, Succ32;
      TakeAllSnoc(window, NewSession(true), InOrder(init), o);
      TakeNext(window, TakeAll(window, NewSession(true), InOrder(init)), data[n]);
      FlatSnoc(init, data[n]);
    }
  }

  /** The state at the wrap in which nothing is deliverable, whatever is buffered. */
  ghost predicate Stalled(s: Session) { s.expected == MAX32 && 0 in s.buffer }

  lemma {:induction false} StalledTakes(window: nat, s: Session, o: Offer)
    requires Stalled(s)
    ensures Stalled(Take(window, s, o)) && Take(window, s, o).delivered == s.delivered
  {
    var t := Insert(s, o.seqNum, o.payload);
    assert 0 in t.buffer && !Ready(t);
  }

  /** A session that waits for number 2^32 - 1 and holds number 0 never delivers again. */
  lemma {:induction false} StalledForever(window: nat, s: Session, offers: seq<Offer>)
    requires Stalled(s)
    ensures Stalled(TakeAll(window, s, offers)) && TakeAll(window, s, offers).delivered == s.delivered
  {
    if offers != [] {
      StalledForever(window, s, offers[..|offers| - 1]);
      StalledTakes(window, TakeAll(window, s, offers[..|offers| - 1]), offers[|offers| - 1]);
      hide Take, Stalled;
    }
  }

  lemma {:induction false} OvertakenStalls(window: nat, s: Session, a: seq<u8>, b: seq<u8>)
    requires 1 < window && s.expected == MAX32 && s.buffer == map[]
    ensures var t := TakeAll(window, s, [Offer(0, b), Offer(MAX32, a)]);
            t == s.(buffer := map[MAX32 := a, 0 := b]) && Stalled(t)
  {
    var one, t := s.(buffer := map[0 := b]), s.(buffer := map[MAX32 := a, 0 := b]);
    assert 0 in one.buffer && !Ready(one) && 0 in t.buffer && !Ready(t);
    assert Take(window, s, Offer(0, b)) == one;
    assert Insert(one, MAX32, a) == t && Take(window, one, Offer(MAX32, a)) == t;
    TakeAllSnoc(window, s, [], Offer(0, b));
    TakeAllSnoc(window, s, [Offer(0, b)], Offer(MAX32, a));
    assert [] + [Offer(0, b)] == [Offer(0, b)];
    assert [Offer(0, b)] + [Offer(MAX32, a)] == [Offer(0, b), Offer(MAX32, a)];
  }

  /** And a run of segments leads there, whenever the first segment after the wrap
      overtakes the last one before it: that one is accepted as well, and all that
      follows is accepted or dropped, but never delivered. */
  lemma {:induction false} OvertakingAtTheWrapStalls(window: nat, data: seq<seq<u8>>, a: seq<u8>, b: seq<u8>,
                                                     more: seq<Offer>)
    requires 1 < window && |data| == MAX32
    ensures var s := TakeAll(window, NewSession(true), InOrder(data));
            var t := TakeAll(window, s, [Offer(0, b), Offer(MAX32, a)]);
            && s.expected == MAX32 && s.delivered == Flat(data)
            && t == s.(buffer := map[MAX32 := a, 0 := b])
            && TakeAll(window, t, more).delivered == Flat(data)
  {
    InOrderDelivers(window, data);
    hide TakeAll, InOrder, Flat, Stalled;
    var s := TakeAll(window, NewSession(true), InOrder(data));
    OvertakenStalls(window, s, a, b);
    StalledForever(window, TakeAll(window, s, [Offer(0, b), Offer(MAX32, a)]), more);
  }
}
