/** The arbiter and the feedback loop inside the runs of a DataStream: what the
    counters and the adopted primary are, whatever else happens in between. */
module Arbiter {
  import opened Words
  import opened Race
  import opened Feedback
  import opened StreamSpec
  import opened Runs

  // ---- The race counters of a run ----

  /** The race outcome of one event of a run, if it has one. */
  function OutcomeOf(cfg: Config, c: Core, op: Op): Option<Outcome> {
    match op
    case Arrives(link, seg) =>
      if DedupOf(seg) in c.memory.seen then Some(Loss(PeerOf(c, link)))
      else if OutOfWindow(cfg, c, seg) then None
      else Some(Win(PeerOf(c, link)))
    case Greets(_, payload) =>
      (match cfg.hello(payload)
       case Some(h) => if h.version == PROTO_VERSION && NewGeneration(c.feedback, h) then Some(Reset) else None
       case None => None)
    case Beats => if c.race.parts == map[] then None else Some(Tick)
    case _ => None
  }

  ghost function Outcomes(cfg: Config, ops: seq<Op>): seq<Outcome> {
    if ops == [] then []
    else
      var init := ops[..|ops| - 1];
      Outcomes(cfg, init) + match OutcomeOf(cfg, Run(cfg, init), ops[|ops| - 1]) case Some(o) => [o] case None => []
  }

  lemma {:induction false} StepRaces(cfg: Config, c: Core, op: Op)
    ensures Step(cfg, c, op).0.race == match OutcomeOf(cfg, c, op) case Some(o) => Do(c.race, o) case None => c.race
  {
    match op
    case Arrives(link, seg) =>
      ProcessFrame(cfg, Noted(cfg, c, link, seg), seg);
      hide Process, Won, Lost;
    case _ =>
  }

  /** The counters of every reachable state are the tally of the run's races, ticks
      and resets: so what holds of tallies holds of them. */
  lemma {:induction false} RaceIsTally(cfg: Config, ops: seq<Op>)
    ensures Run(cfg, ops).race == Tally(Outcomes(cfg, ops))
  {
    if ops != [] {
      var init := ops[..|ops| - 1];
      RaceIsTally(cfg, init);
      StepRaces(cfg, Run(cfg, init), ops[|ops| - 1]);
      var before := Outcomes(cfg, init);
      match OutcomeOf(cfg, Run(cfg, init), ops[|ops| - 1])
      case Some(o) => assert (before + [o])[..|before|] == before;
      case None => assert before + [] == before;
    }
  }

  /** In every reachable state in which some counted link has never lost, the recommended
      link has win rate 1 exactly if no counted link has more wins than races. */
  lemma {:induction false} RecommendsAWinnerIff(cfg: Config, ops: seq<Op>, link: u32)
    requires NeverLost(Outcomes(cfg, ops), link) && Candidate(Run(cfg, ops).race, link)
    ensures var r := Run(cfg, ops).race;
            Candidate(r, Pick(r))
            && (Rate(r, Pick(r)) == 1.0 <==> forall k | Candidate(r, k) :: Count(r.wins, k) <= r.parts[k])
  {
    RaceIsTally(cfg, ops);
    UnbeatenLinkSetsTheRateIff(Outcomes(cfg, ops), link);
  }

  /** So it has in every reachable state whose run overran no counter. */
  lemma {:induction false} RecommendsAWinner(cfg: Config, ops: seq<Op>, link: u32)
    requires var steps := Outcomes(cfg, ops); NeverOverruns(steps) && NeverLost(steps, link)
    requires Candidate(Run(cfg, ops).race, link)
    ensures var r := Run(cfg, ops).race; Candidate(r, Pick(r)) && Rate(r, Pick(r)) == 1.0
  {
    RaceIsTally(cfg, ops);
    UnbeatenLinkSetsTheRate(Outcomes(cfg, ops), link);
  }

  // ---- Whose race it is ----

  /** A hello of version 2 names the link, and changes nothing else unless it is of another
      generation: then the counters and the applied epoch start again. */
  lemma {:induction false} HelloNames(cfg: Config, c: Core, link: Link, payload: seq<u8>, h: Hello)
    requires cfg.hello(payload) == Some(h) && h.version == 2
    ensures var d := OnHello(cfg, c, link, payload);
            && PeerOf(d, link) == h.channel && (forall l | l != link :: PeerOf(d, l) == PeerOf(c, l))
            && d.sessions == c.sessions && d.memory == c.memory
            && d.feedback.emitted == c.feedback.emitted && d.feedback.primary == c.feedback.primary
            && if h.generation != 0 && h.generation != c.feedback.generation then
                 d.feedback.generation == h.generation && d.feedback.applied == 0
                 && forall k: u32 :: Count(d.race.wins, k) == Count(d.race.parts, k) == 0
               else d.feedback == c.feedback && d.race == c.race
  {}

  /** Any other hello has no effect. */
  lemma {:induction false} OtherHello(cfg: Config, c: Core, link: Link, payload: seq<u8>)
    requires cfg.hello(payload) == None || cfg.hello(payload).value.version != 2
    ensures OnHello(cfg, c, link, payload) == c
  {}

  lemma {:induction false} JustRemembered(m: Memory, k: DedupKey, forgets: bool)
    requires MemoryOk(m, forgets) && k !in m.seen
    ensures k in Remember(m, k, forgets).seen
  {
    var ring := m.ring + [k];
    assert ring[|ring| - 1] == k;
  }

  /** One race lost and nothing else, or one won: the counters of the peer's link x. */
  ghost predicate Counted(before: Race, after: Race, x: u32, won: bool) {
    && Count(after.parts, x) == Succ32(Count(before.parts, x))
    && Count(after.wins, x) == (if won then Succ32(Count(before.wins, x)) else Count(before.wins, x))
    && forall k: u32 | k != x :: Count(after.wins, k) == Count(before.wins, k)
                                 && Count(after.parts, k) == Count(before.parts, k)
  }

  /** Of two copies of a segment the first wins the race for its link, and the second loses
      it for its own; links go by the ids that their hellos gave. */
  lemma {:induction false} FirstCopyWins(cfg: Config, c: Core, a: Link, pa: seq<u8>, x: Hello, b: Link, pb: seq<u8>,
                                         y: Hello, seg: Seg)
    requires cfg.hello(pa) == Some(x) && cfg.hello(pb) == Some(y) && x.version == 2 && y.version == 2
    requires a != b && x.channel != 0 && y.channel != 0 && x.channel != y.channel
    requires MemoryOk(c.memory, cfg.forgets) && DedupOf(seg) !in c.memory.seen && !OutOfWindow(cfg, c, seg)
    ensures var d := OnHello(cfg, OnHello(cfg, c, a, pa), b, pb);
            var e := Receive(cfg, d, a, seg).0;
            var f := Receive(cfg, e, b, seg).0;
            Counted(d.race, e.race, x.channel, true) && Counted(e.race, f.race, y.channel, false)
  {
    var m := OnHello(cfg, c, a, pa);
    var d := OnHello(cfg, m, b, pb);
    HelloNames(cfg, c, a, pa, x);
    HelloNames(cfg, m, b, pb, y);
    ProcessFrame(cfg, Noted(cfg, d, a, seg), seg);
    JustRemembered(d.memory, DedupOf(seg), cfg.forgets);
    hide OnHello, Process, Remember, MemoryOk, DedupOf, OutOfWindow;
    assert Expected(d, seg.key) == Expected(c, seg.key);
    assert OutOfWindow(cfg, d, seg) == OutOfWindow(cfg, c, seg) by { SameWindow(cfg, c, d, seg); }
    var e := Receive(cfg, d, a, seg).0;
    assert e.race == Won(d.race, x.channel) && PeerOf(e, b) == y.channel && DedupOf(seg) in e.memory.seen;
    assert Receive(cfg, e, b, seg).0.race == Lost(e.race, y.channel);
    CountsOne(d.race, x.channel);
    CountsOne(e.race, y.channel);
  }

  lemma {:induction false} SameWindow(cfg: Config, c: Core, d: Core, seg: Seg)
    requires c.sessions == d.sessions
    ensures OutOfWindow(cfg, c, seg) == OutOfWindow(cfg, d, seg)
  {}

  lemma {:induction false} CountsOne(r: Race, x: u32)
    requires x != 0
    ensures Counted(r, Won(r, x), x, true) && Counted(r, Lost(r, x), x, false)
  {}

  // ---- The adopted feedback of a run ----

  /** The feedback messages among these events. */
  function Messages(cfg: Config, ops: seq<Op>): seq<Message> {
    if ops == [] then []
    else
      Messages(cfg, ops[..|ops| - 1])
      + match ops[|ops| - 1]
        case Advises(payload) => (match cfg.feedback(payload) case Some(m) => [m] case None => [])
        case _ => []
  }

  /** No hello of another generation among them. */
  ghost predicate OneGeneration(cfg: Config, generation: u32, ops: seq<Op>) {
    forall op | op in ops && op.Greets? && cfg.hello(op.payload).Some?
                && cfg.hello(op.payload).value.version == PROTO_VERSION ::
      cfg.hello(op.payload).value.generation in {0, generation}
  }

  /** Equal but for the epoch that this side emits. */
  predicate SameAdopted(s: State, t: State) { s.(emitted := 0) == t.(emitted := 0) }

  lemma {:induction false} StepAdopts(cfg: Config, c: Core, op: Op)
    requires OneGeneration(cfg, c.feedback.generation, [op])
    ensures SameAdopted(Step(cfg, c, op).0.feedback, AdoptAll(c.feedback, Messages(cfg, [op])))
  {
    assert op in [op] && [op][..0] == [];
    assert Messages(cfg, [op]) == match op
        case Advises(payload) => (match cfg.feedback(payload) case Some(m) => [m] case None => [])
        case _ => [];
    match op
    case Arrives(link, seg) =>
      ProcessFrame(cfg, Noted(cfg, c, link, seg), seg);
      hide Process;
    case Advises(payload) =>
      match cfg.feedback(payload) {
        case Some(m) => assert [m][..0] == [];
        case None =>
      }
    case _ =>
  }

  lemma {:induction false} AdoptAllAppend(s: State, a: seq<Message>, b: seq<Message>)
    ensures AdoptAll(s, a + b) == AdoptAll(AdoptAll(s, a), b)
  {
    if b == [] {
      assert a + b == a;
    } else {
      assert (a + b)[..|a + b| - 1] == a + b[..|b| - 1];
      AdoptAllAppend(s, a, b[..|b| - 1]);
    }
  }

  lemma {:induction false} AdoptIgnoresEmitted(s: State, t: State, got: seq<Message>)
    requires SameAdopted(s, t)
    ensures SameAdopted(AdoptAll(s, got), AdoptAll(t, got))
  {
    if got != [] {
      AdoptIgnoresEmitted(s, t, got[..|got| - 1]);
    }
  }

  lemma {:induction false} AdoptKeepsGeneration(s: State, got: seq<Message>)
    ensures AdoptAll(s, got).generation == s.generation
  {
    if got != [] {
      AdoptKeepsGeneration(s, got[..|got| - 1]);
    }
  }

  /** Within one generation, only the feedback messages move the adopted epoch and
      primary: segments, heartbeats, calls and hellos do not. */
  lemma {:induction false} OnlyFeedbackMoves(cfg: Config, c: Core, ops: seq<Op>)
    requires OneGeneration(cfg, c.feedback.generation, ops)
    ensures SameAdopted(Continue(cfg, c, ops).feedback, AdoptAll(c.feedback, Messages(cfg, ops)))
  {
    if ops != [] {
      var init, op := ops[..|ops| - 1], ops[|ops| - 1];
      var d := Continue(cfg, c, init);
      OnlyFeedbackMoves(cfg, c, init);
      AdoptKeepsGeneration(c.feedback, Messages(cfg, init));
      assert forall o | o in [op] :: o in ops;
      StepAdopts(cfg, d, op);
      AdoptIgnoresEmitted(d.feedback, AdoptAll(c.feedback, Messages(cfg, init)), Messages(cfg, [op]));
      assert [op][..0] == [];
      assert Messages(cfg, ops) == Messages(cfg, init) + Messages(cfg, [op]);
      AdoptAllAppend(c.feedback, Messages(cfg, init), Messages(cfg, [op]));
    }
  }

  /** So any two runs of one generation that carry the same feedback messages, in any
      order and number and between any other events, end with the same epoch and
      primary. */
  lemma {:induction false} FeedbackIsAJoin(cfg: Config, c: Core, a: seq<Op>, b: seq<Op>)
    requires OneGeneration(cfg, c.feedback.generation, a) && OneGeneration(cfg, c.feedback.generation, b)
    requires Received(Messages(cfg, a)) == Received(Messages(cfg, b)) && Consistent(Received(Messages(cfg, a)))
    ensures Continue(cfg, c, a).feedback.applied == Continue(cfg, c, b).feedback.applied
    ensures Continue(cfg, c, a).feedback.primary == Continue(cfg, c, b).feedback.primary
  {
    OnlyFeedbackMoves(cfg, c, a);
    OnlyFeedbackMoves(cfg, c, b);
    OrderIndependent(c.feedback, Messages(cfg, a), Messages(cfg, b));
  }

  // ---- The recommendations of a run ----

  /** The counters at each of the heartbeats. */
  ghost function Ticks(cfg: Config, c: Core, ops: seq<Op>): seq<Race> {
    if ops == [] then []
    else
      var init := ops[..|ops| - 1];
      Ticks(cfg, c, init) + if ops[|ops| - 1].Beats? then [Continue(cfg, c, init).race] else []
  }

  ghost function SentBy(c: Core, op: Op): seq<Message> {
    if op.Beats? then match Heartbeat(c).1 case Some(m) => [m] case None => [] else []
  }

  /** What the heartbeats send. */
  ghost function Sent(cfg: Config, c: Core, ops: seq<Op>): seq<Message> {
    if ops == [] then []
    else Sent(cfg, c, ops[..|ops| - 1]) + SentBy(Continue(cfg, c, ops[..|ops| - 1]), ops[|ops| - 1])
  }

  /** Heartbeats alone number the recommendations, and one emits exactly if the arbiter
      has a recommendation. */
  lemma {:induction false} StepEmits(cfg: Config, c: Core, op: Op)
    ensures SentBy(c, op) == if op.Beats? then Emission(c.feedback.emitted, c.race) else []
    ensures Step(cfg, c, op).0.feedback.emitted == Later(c.feedback.emitted, |SentBy(c, op)|)
  {
    match op
    case Arrives(link, seg) =>
      ProcessFrame(cfg, Noted(cfg, c, link, seg), seg);
      hide Process;
    case _ =>
  }

  lemma {:induction false} SentSnoc(cfg: Config, c: Core, ops: seq<Op>, init: seq<Op>, op: Op)
    requires ops == init + [op]
    ensures Continue(cfg, c, ops) == Step(cfg, Continue(cfg, c, init), op).0
    ensures Sent(cfg, c, ops) == Sent(cfg, c, init) + SentBy(Continue(cfg, c, init), op)
    ensures Ticks(cfg, c, ops)
            == if op.Beats? then Ticks(cfg, c, init) + [Continue(cfg, c, init).race] else Ticks(cfg, c, init)
  {
    assert ops[..|ops| - 1] == init;
    hide Step, SentBy;
  }

  /** What a run sends is the messages of its heartbeats' counters, numbered from the
      epoch before, whatever else happens in between. */
  lemma {:induction false} SentIsEmitted(cfg: Config, c: Core, ops: seq<Op>)
    ensures HasEmitted(c.feedback.emitted, Ticks(cfg, c, ops), Sent(cfg, c, ops),
                       Continue(cfg, c, ops).feedback.emitted)
    decreases |ops|
  {
    if ops == [] {
      EmitsNothing(c.feedback.emitted);
    } else {
      hide *;
      var init, op := ops[..|ops| - 1], ops[|ops| - 1];
      var d, e := Continue(cfg, c, init), c.feedback.emitted;
      SentIsEmitted(cfg, c, init);
      SentSnoc(cfg, c, ops, init, op);
      StepEmits(cfg, d, op);
      EmitsNothing(d.feedback.emitted);
      if op.Beats? {
        EmitsNext(e, Ticks(cfg, c, init), Sent(cfg, c, init), d.feedback.emitted, d.race);
      } else {
        assert Sent(cfg, c, ops) == Sent(cfg, c, init);
      }
    }
  }

  /** The whole loop: a stream emits over a run, and another stream of one generation
      gets some of it, reordered, repeated and with losses, between any other events.
      What it ends with depends on the set of messages alone. */
  lemma {:induction false} LoopConverges(peer: Config, p: Core, emits: seq<Op>, cfg: Config, c: Core, a: seq<Op>,
                                         b: seq<Op>)
    requires p.feedback.emitted + |Sent(peer, p, emits)| < TWO32
    requires OneGeneration(cfg, c.feedback.generation, a) && OneGeneration(cfg, c.feedback.generation, b)
    requires Received(Messages(cfg, a)) == Received(Messages(cfg, b)) <= Received(Sent(peer, p, emits))
    ensures Continue(cfg, c, a).feedback.applied == Continue(cfg, c, b).feedback.applied
    ensures Continue(cfg, c, a).feedback.primary == Continue(cfg, c, b).feedback.primary
  {
    SentIsEmitted(peer, p, emits);
    EmittedConsistent(p.feedback.emitted, Ticks(peer, p, emits));
    hide Sent, Messages, Continue, EmitAll;
    FeedbackIsAJoin(cfg, c, a, b);
  }

  /** And the emitter's last message decides once it is there, if the receiver had not
      applied a newer one before: it then sends on the link last recommended. */
  lemma {:induction false} LastMessageDecides(peer: Config, p: Core, emits: seq<Op>, cfg: Config, c: Core, ops: seq<Op>)
    requires p.feedback.emitted + |Sent(peer, p, emits)| < TWO32 && Sent(peer, p, emits) != []
    requires OneGeneration(cfg, c.feedback.generation, ops)
    requires Received(Messages(cfg, ops)) <= Received(Sent(peer, p, emits))
    requires Last(Sent(peer, p, emits)) in Messages(cfg, ops)
    requires Last(Sent(peer, p, emits)).epoch > c.feedback.applied
    ensures Continue(cfg, c, ops).feedback.applied == Last(Sent(peer, p, emits)).epoch
    ensures Continue(cfg, c, ops).feedback.primary == Last(Sent(peer, p, emits)).primary
  {
    SentIsEmitted(peer, p, emits);
    OnlyFeedbackMoves(cfg, c, ops);
    hide Sent, Messages, Continue;
    LastEmittedDecides(p.feedback.emitted, Ticks(peer, p, emits), c.feedback, Messages(cfg, ops));
  }

  // ---- Quiescence in a run ----

  /** No race is counted and no counter reset; heartbeats may decay them. */
  predicate Quiet(outcome: Option<Outcome>) {
    match outcome
    case Some(Win(k)) => k == 0
    case Some(Loss(k)) => k == 0
    case Some(Reset) => false
    case _ => true
  }

  ghost predicate Raceless(cfg: Config, c: Core, ops: seq<Op>) {
    ops == []
    || (Raceless(cfg, c, ops[..|ops| - 1])
        && Quiet(OutcomeOf(cfg, Continue(cfg, c, ops[..|ops| - 1]), ops[|ops| - 1])))
  }

  lemma {:induction false} QuietStep(cfg: Config, c: Core, op: Op)
    requires Quiet(OutcomeOf(cfg, c, op))
    ensures Step(cfg, c, op).0.race == if op.Beats? && c.race.parts != map[] then Halve(c.race) else c.race
  {
    StepRaces(cfg, c, op);
    hide Step;
  }

  lemma {:induction false} RacelessSnoc(cfg: Config, c: Core, ops: seq<Op>, init: seq<Op>, op: Op)
    requires ops == init + [op] && Raceless(cfg, c, ops)
    ensures Raceless(cfg, c, init) && Quiet(OutcomeOf(cfg, Continue(cfg, c, init), op))
  {
    assert ops[..|ops| - 1] == init;
    hide OutcomeOf, Continue;
  }

  lemma {:induction false} RacelessDecays(cfg: Config, c: Core, ops: seq<Op>)
    requires Raceless(cfg, c, ops)
    ensures Continue(cfg, c, ops).race == Decayed(c.race, |Ticks(cfg, c, ops)|)
    ensures |Sent(cfg, c, ops)| == Emissions(c.race, |Ticks(cfg, c, ops)|)
    decreases |ops|
  {
    if ops != [] {
      var init, op := ops[..|ops| - 1], ops[|ops| - 1];
      var d, n := Continue(cfg, c, init), |Ticks(cfg, c, init)|;
      hide Step, SentBy, Continue, Sent, Ticks, Decayed, Emissions, Emits, Halve, Raceless, Quiet, OutcomeOf, Pick;
      RacelessSnoc(cfg, c, ops, init, op);
      RacelessDecays(cfg, c, init);
      SentSnoc(cfg, c, ops, init, op);
      QuietStep(cfg, d, op);
      StepEmits(cfg, d, op);
      DecaysNext(c.race, n);
    }
  }

  /** From every reachable state: in a run without races, as many heartbeats still send
      as the largest counter has bits, so at most 32, however many there are. */
  lemma {:induction false} QuietRunStops(cfg: Config, before: seq<Op>, ops: seq<Op>) returns (m: nat)
    requires Raceless(cfg, Run(cfg, before), ops)
    ensures IsLargest(Run(cfg, before).race, m)
    ensures var c := Run(cfg, before);
            |Sent(cfg, c, ops)| == if |Ticks(cfg, c, ops)| <= BitLength(m) then |Ticks(cfg, c, ops)| else BitLength(m)
    ensures |Sent(cfg, Run(cfg, before), ops)| <= 32
  {
    var c := Run(cfg, before);
    RaceIsTally(cfg, before);
    NobodyRaces(Outcomes(cfg, before));
    m := LargestExists(c.race);
    RacelessDecays(cfg, c, ops);
    FeedbackQuiesces(c.race, |Ticks(cfg, c, ops)|, m);
    QuietAfter32(c.race, |Ticks(cfg, c, ops)|, m);
  }
}
