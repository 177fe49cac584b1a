/** The feedback loop: epoch-stamped recommendations, and how a peer adopts them. */
module Feedback {
  import opened Words
  import opened Race

  datatype Hello = Hello(version: u16, channel: u32, ingress: u32, outport: u32, generation: u32)

  datatype Message = Message(epoch: u32, primary: u32)

  const PROTO_VERSION: u16 := 2

  /** feedback_epoch_, applied_epoch_, peer_generation_, and the primary link of
      the manager's selector, which of this stream's actions feedback alone sets. */
  datatype State = State(emitted: u32, applied: u32, generation: u32, primary: u32)

  const INITIAL := State(0, 0, 0, 0)

  /** A newer decision wins; a recommendation of link 0 leaves the primary alone. */
  function Adopt(s: State, m: Message): State {
    if m.epoch > s.applied then
      s.(applied := m.epoch, primary := if m.primary != 0 then m.primary else s.primary)
    else s
  }

  predicate NewGeneration(s: State, h: Hello) { h.generation != 0 && h.generation != s.generation }

  function Greet(s: State, h: Hello): State {
    if NewGeneration(s, h) then s.(generation := h.generation, applied := 0) else s
  }

  function AdoptAll(s: State, got: seq<Message>): State {
    if got == [] then s else Adopt(AdoptAll(s, got[..|got| - 1]), got[|got| - 1])
  }

  /** Feedback of an epoch already applied, or an older one, has no effect; a newer one
      sets the epoch, and the primary link unless it recommends link 0. */
  lemma {:induction false} AdoptCases(s: State, m: Message)
    ensures m.epoch <= s.applied ==> Adopt(s, m) == s
    ensures m.epoch > s.applied && m.primary != 0 ==>
              Adopt(s, m) == State(s.emitted, m.epoch, s.generation, m.primary)
    ensures m.epoch > s.applied && m.primary == 0 ==>
              Adopt(s, m) == State(s.emitted, m.epoch, s.generation, s.primary)
  {}

  // ---- What an emitter sends ----

  /** The messages of a run of heartbeats, given the counters at each of them. */
  ghost function EmitAll(emitted: u32, races: seq<Race>): seq<Message>
    decreases |races|
  {
    if races == [] then []
    else if Emits(races[0]) then [Message(Succ32(emitted), Pick(races[0]))] + EmitAll(Succ32(emitted), races[1..])
    else EmitAll(emitted, races[1..])
  }

  /** Emitted epochs strictly increase, until the epoch counter itself wraps. */
  lemma {:induction false} EpochsIncrease(emitted: u32, races: seq<Race>)
    requires emitted + |EmitAll(emitted, races)| < TWO32
    ensures forall m | m in EmitAll(emitted, races) :: m.epoch > emitted && m.primary != 0
    ensures forall i, j | 0 <= i < j < |EmitAll(emitted, races)| ::
              EmitAll(emitted, races)[i].epoch < EmitAll(emitted, races)[j].epoch
    decreases |races|
  {
    if races != [] && Emits(races[0]) {
      EpochsIncrease(emitted + 1, races[1..]);
      var later := EmitAll(emitted + 1, races[1..]);
      var all := [Message(emitted + 1, Pick(races[0]))] + later;
      assert EmitAll(emitted, races) == all;
      forall i, j | 0 <= i < j < |all| ensures all[i].epoch < all[j].epoch {
        assert all[j] == later[j - 1] && later[j - 1] in later;
        if i > 0 { assert all[i] == later[i - 1]; }
      }
    } else if races != [] {
      EpochsIncrease(emitted, races[1..]);
    }
  }

  /** Each epoch is newer than the one before, starting from the last one emitted. */
  predicate Increasing(emitted: u32, sent: seq<Message>)
    decreases |sent|
  {
    sent == [] || (sent[0].epoch > emitted && Increasing(sent[0].epoch, sent[1..]))
  }

  /** Epochs increase exactly as long as the 32-bit counter does not wrap. */
  lemma {:induction false} EpochsIncreaseIff(emitted: u32, races: seq<Race>)
    ensures Increasing(emitted, EmitAll(emitted, races)) <==> emitted + |EmitAll(emitted, races)| < TWO32
    decreases |races|
  {
    if races != [] {
      if Emits(races[0]) {
        var later := EmitAll(Succ32(emitted), races[1..]);
        EpochsIncreaseIff(Succ32(emitted), races[1..]);
        assert EmitAll(emitted, races)[1..] == later;
      } else {
        EpochsIncreaseIff(emitted, races[1..]);
      }
    }
  }

  /** The epoch counter after n more messages. */
  function Later(emitted: u32, n: nat): u32 { (emitted + n) % TWO32 }

  /** What one heartbeat sends after those of earlier ones, the last epoch of which is now. */
  ghost function Emission(now: u32, r: Race): seq<Message> {
    if Emits(r) then [Message(Succ32(now), Pick(r))] else []
  }

  lemma {:induction false} EmitAllSnoc(emitted: u32, races: seq<Race>, r: Race, now: u32)
    requires now == Later(emitted, |EmitAll(emitted, races)|)
    ensures EmitAll(emitted, races + [r]) == EmitAll(emitted, races) + Emission(now, r)
    decreases |races|
  {
    if races == [] {
      assert ([r])[1..] == [];
    } else {
      assert (races + [r])[1..] == races[1..] + [r];
      EmitAllSnoc(if Emits(races[0]) then Succ32(emitted) else emitted, races[1..], r, now);
    }
  }

  /** Heartbeats with these counters have sent this, and the last epoch is now. */
  ghost predicate HasEmitted(emitted: u32, races: seq<Race>, sent: seq<Message>, now: u32) {
    sent == EmitAll(emitted, races) && now == Later(emitted, |sent|)
  }

  lemma {:induction false} EmitsNothing(now: u32)
    ensures HasEmitted(now, [], [], now) && Later(now, 0) == now
  {}

  lemma {:induction false} LaterAdds(emitted: u32, n: nat, k: nat)
    ensures Later(Later(emitted, n), k) == Later(emitted, n + k)
  {}

  lemma {:induction false} EmitsNext(emitted: u32, races: seq<Race>, sent: seq<Message>, now: u32, r: Race)
    requires HasEmitted(emitted, races, sent, now)
    ensures HasEmitted(emitted, races + [r], sent + Emission(now, r), Later(now, |Emission(now, r)|))
  {
    EmitAllSnoc(emitted, races, r, now);
    LaterAdds(emitted, |sent|, |Emission(now, r)|);
    hide EmitAll, Emission, Later;
  }

  // ---- What a receiver ends with ----

  /** One epoch, one recommendation; and no recommendation of link 0. */
  ghost predicate Consistent(sent: set<Message>) {
    (forall m | m in sent :: m.primary != 0)
    && (forall m, n | m in sent && n in sent && m.epoch == n.epoch :: m == n)
  }

  function Received(got: seq<Message>): set<Message> { set m | m in got }

  /** What one emitter sends is consistent, until its epoch counter wraps. */
  lemma {:induction false} EmittedConsistent(emitted: u32, races: seq<Race>)
    requires emitted + |EmitAll(emitted, races)| < TWO32
    ensures Consistent(Received(EmitAll(emitted, races)))
  {
    var sent := EmitAll(emitted, races);
    EpochsIncrease(emitted, races);
    forall m, n | m in sent && n in sent && m.epoch == n.epoch ensures m == n {
      var i :| 0 <= i < |sent| && sent[i] == m;
      var j :| 0 <= j < |sent| && sent[j] == n;
      assert i == j;
    }
  }

  /** Adopting is a join: the newest of the old decision and everything received. */
  ghost predicate IsJoin(s: State, sent: set<Message>, r: State) {
    && r.generation == s.generation && r.emitted == s.emitted && r.applied >= s.applied
    && (forall m | m in sent :: m.epoch <= r.applied)
    && (r == s || (r.applied > s.applied && Message(r.applied, r.primary) in sent))
  }

  lemma {:induction false} AdoptAllJoins(s: State, got: seq<Message>)
    requires forall m | m in got :: m.primary != 0
    ensures IsJoin(s, Received(got), AdoptAll(s, got))
  {
    if got != [] {
      AdoptAllJoins(s, got[..|got| - 1]);
      assert got == got[..|got| - 1] + [got[|got| - 1]];
      assert Received(got) == Received(got[..|got| - 1]) + {got[|got| - 1]};
    }
  }

  /** Any reordering and any duplication of one emitter's messages leaves the
      receiver with the same epoch and the same primary. */
  lemma {:induction false} OrderIndependent(s: State, a: seq<Message>, b: seq<Message>)
    requires Received(a) == Received(b) && Consistent(Received(a))
    ensures AdoptAll(s, a) == AdoptAll(s, b)
  {
    assert forall m | m in a :: m in Received(a);
    assert forall m | m in b :: m in Received(b);
    AdoptAllJoins(s, a);
    AdoptAllJoins(s, b);
    var r, t := AdoptAll(s, a), AdoptAll(s, b);
    if r != s { assert Message(r.applied, r.primary) in Received(b); }
    if t != s { assert Message(t.applied, t.primary) in Received(a); }
  }

  /** After a hello of a new generation the newest message of that generation is
      adopted, however high the epoch applied before. */
  lemma {:induction false} NewGenerationRestarts(s: State, h: Hello, races: seq<Race>, got: seq<Message>,
                                                 newest: Message)
    requires NewGeneration(s, h) && |EmitAll(0, races)| < TWO32
    requires forall m | m in got :: m in EmitAll(0, races)
    requires newest in got && forall m | m in got :: m.epoch <= newest.epoch
    ensures AdoptAll(Greet(s, h), got) == Greet(s, h).(applied := newest.epoch, primary := newest.primary)
  {
    var sent := EmitAll(0, races);
    EpochsIncrease(0, races);
    assert forall m | m in got :: m in sent && m.primary != 0;
    AdoptAllJoins(Greet(s, h), got);
    var r := AdoptAll(Greet(s, h), got);
    assert newest in Received(got) && newest.epoch > 0;
    assert Message(r.applied, r.primary) in sent && newest in sent;
    var i :| 0 <= i < |sent| && sent[i] == Message(r.applied, r.primary);
    var j :| 0 <= j < |sent| && sent[j] == newest;
  }

  function Last(sent: seq<Message>): Message
    requires sent != []
  {
    sent[|sent| - 1]
  }

  lemma {:induction false} LastIsNewest(sent: seq<Message>, i: nat)
    requires forall j, k | 0 <= j < k < |sent| :: sent[j].epoch < sent[k].epoch
    requires i < |sent| && Last(sent).epoch <= sent[i].epoch
    ensures i == |sent| - 1
  {}

  /** A receiver that has got the last message of an emitter, and maybe others of it,
      ends with that message, unless it had applied a newer one before. */
  lemma {:induction false} LastEmittedDecides(emitted: u32, races: seq<Race>, s: State, got: seq<Message>)
    requires emitted + |EmitAll(emitted, races)| < TWO32 && EmitAll(emitted, races) != []
    requires Received(got) <= Received(EmitAll(emitted, races))
    requires Last(EmitAll(emitted, races)) in got && Last(EmitAll(emitted, races)).epoch > s.applied
    ensures AdoptAll(s, got).applied == Last(EmitAll(emitted, races)).epoch
    ensures AdoptAll(s, got).primary == Last(EmitAll(emitted, races)).primary
  {
    var sent := EmitAll(emitted, races);
    EpochsIncrease(emitted, races);
    assert forall m | m in got :: m in Received(got) && m in sent;
    AdoptAllJoins(s, got);
    var r := AdoptAll(s, got);
    assert Last(sent) in Received(got);
    assert Last(sent).epoch <= r.applied && r != s;
    assert Message(r.applied, r.primary) in Received(got);
    var i :| 0 <= i < |sent| && sent[i] == Message(r.applied, r.primary);
    hide EmitAll, AdoptAll, IsJoin;
    LastIsNewest(sent, i);
  }
}
