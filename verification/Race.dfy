/** The arrival-race arbiter: counters per peer link, and the link they favour. */
module Race {
  import opened Words

  /** peer_win_count_ and peer_part_count_: zce_uint32 counters that wrap. */
  datatype Race = Race(wins: map<u32, u32>, parts: map<u32, u32>)

  const NO_RACE := Race(map[], map[])

  function Count(m: map<u32, u32>, link: u32): u32 { if link in m then m[link] else 0 }

  function Bump(m: map<u32, u32>, link: u32): map<u32, u32> { m[link := Succ32(Count(m, link))] }

  /** A link whose peer id is still unknown does not race. */
  function Won(r: Race, link: u32): Race {
    if link == 0 then r else Race(Bump(r.wins, link), Bump(r.parts, link))
  }

  function Lost(r: Race, link: u32): Race {
    if link == 0 then r else r.(parts := Bump(r.parts, link))
  }

  function HalfOf(m: map<u32, u32>): map<u32, u32> { map k | k in m :: m[k] / 2 }

  function Halve(r: Race): Race { Race(HalfOf(r.wins), HalfOf(r.parts)) }

  // ---- The recommended link ----

  predicate Candidate(r: Race, link: u32) { link in r.parts && r.parts[link] != 0 }

  function Rate(r: Race, link: u32): real
    requires Candidate(r, link)
  {
    Count(r.wins, link) as real / r.parts[link] as real
  }

  /** Higher win rate first, then more races, then the smaller id. */
  predicate Beats(r: Race, a: u32, b: u32)
    requires Candidate(r, a) && Candidate(r, b)
  {
    || Rate(r, a) > Rate(r, b)
    || (Rate(r, a) == Rate(r, b) && r.parts[a] > r.parts[b])
    || (Rate(r, a) == Rate(r, b) && r.parts[a] == r.parts[b] && a < b)
  }

  ghost predicate IsBest(r: Race, link: u32) {
    Candidate(r, link) && forall k | Candidate(r, k) && k != link :: Beats(r, link, k)
  }

  lemma {:induction false} BestIsUnique(r: Race, a: u32, b: u32)
    requires IsBest(r, a) && IsBest(r, b)
    ensures a == b
  {}

  /** The running maximum of the scan. */
  datatype Leader = Leader(id: u32, part: u32, rate: real)

  const NOBODY := Leader(0, 0, -1.0)

  /** The leader is the best of the scanned links, or nobody if none counts. */
  ghost predicate Leads(r: Race, scanned: set<u32>, l: Leader) {
    if exists k :: k in scanned && Candidate(r, k) then
      && l.id in scanned && Candidate(r, l.id) && l.part == r.parts[l.id] && l.rate == Rate(r, l.id)
      && forall k | k in scanned && Candidate(r, k) && k != l.id :: Beats(r, l.id, k)
    else l == NOBODY
  }

  function Challenge(r: Race, l: Leader, k: u32): Leader
    requires k in r.parts
  {
    if r.parts[k] == 0 then l
    else
      var rate := Rate(r, k);
      if rate > l.rate || (rate == l.rate && r.parts[k] > l.part) then Leader(k, r.parts[k], rate) else l
  }

  lemma {:induction false} ChallengeLeads(r: Race, scanned: set<u32>, l: Leader, k: u32)
    requires Leads(r, scanned, l) && k in r.parts && forall j | j in scanned :: j < k
    ensures Leads(r, scanned + {k}, Challenge(r, l, k))
  {
    if Candidate(r, k) {
      assert k in scanned + {k};
      assert Rate(r, k) >= 0.0;
      if exists j :: j in scanned && Candidate(r, j) {
        assert l.id in scanned + {k};
      }
    } else if exists j :: j in scanned + {k} && Candidate(r, j) {
      var j :| j in scanned + {k} && Candidate(r, j);
      assert j in scanned;
    }
  }

  lemma {:induction false} LeastExists(s: set<u32>) returns (x: u32)
    requires s != {}
    ensures x in s && forall y | y in s :: x <= y
  {
    var any :| any in s;
    x := any;
    if s - {any} != {} {
      var y := LeastExists(s - {any});
      if y < any { x := y; }
    }
    assert forall y | y in s :: y == any || y in s - {any};
  }

  /** The scan over the map, whose order is that of the ids. */
  method PickPrimary(r: Race) returns (best: u32)
    ensures if exists k :: Candidate(r, k) then IsBest(r, best) else best == 0
  {
    var l := NOBODY;
    var todo := r.parts.Keys;
    while todo != {}
      invariant todo <= r.parts.Keys
      invariant forall j, k | j in r.parts.Keys - todo && k in todo :: j < k
      invariant Leads(r, r.parts.Keys - todo, l)
      decreases todo
    {
      ghost var least := LeastExists(todo);
      var k :| k in todo && forall j | j in todo :: k <= j;
      ChallengeLeads(r, r.parts.Keys - todo, l, k);
      assert r.parts.Keys - (todo - {k}) == (r.parts.Keys - todo) + {k};
      l := Challenge(r, l, k);
      todo := todo - {k};
    }
    assert r.parts.Keys - {} == r.parts.Keys;
    best := l.id;
    assert forall k | Candidate(r, k) :: k in r.parts.Keys;
  }

  /** The scan's result as a function: the best link, or 0. */
  ghost function Pick(r: Race): u32 {
    if exists k: u32 :: IsBest(r, k) then var k: u32 :| IsBest(r, k); k else 0
  }

  lemma {:induction false} PickIsBest(r: Race)
    requires exists k :: Candidate(r, k)
    ensures IsBest(r, Pick(r))
  {
    var l := NOBODY;
    var todo := r.parts.Keys;
    while todo != {}
      invariant todo <= r.parts.Keys
      invariant forall j, k | j in r.parts.Keys - todo && k in todo :: j < k
      invariant Leads(r, r.parts.Keys - todo, l)
      decreases todo
    {
      var k := LeastExists(todo);
      ChallengeLeads(r, r.parts.Keys - todo, l, k);
      assert r.parts.Keys - (todo - {k}) == (r.parts.Keys - todo) + {k};
      l := Challenge(r, l, k);
      todo := todo - {k};
    }
    assert forall k | Candidate(r, k) :: k in r.parts.Keys;
    assert IsBest(r, l.id);
  }

  /** The scan finds it. */
  lemma {:induction false} PickIs(r: Race, best: u32)
    requires if exists k :: Candidate(r, k) then IsBest(r, best) else best == 0
    ensures best == Pick(r)
  {
    if exists k :: Candidate(r, k) {
      PickIsBest(r);
      BestIsUnique(r, best, Pick(r));
    }
  }

  lemma {:induction false} Ratios(a: nat, b: nat, c: nat, d: nat)
    requires b > 0 && d > 0
    ensures a as real / b as real > c as real / d as real <==> a * d > c * b
    ensures a as real / b as real == c as real / d as real <==> a * d == c * b
  {
    var x, y := a as real / b as real, c as real / d as real;
    assert x * b as real == a as real && y * d as real == c as real;
    assert (x - y) * (b as real * d as real) == a as real * d as real - c as real * b as real;
    assert (a * d) as real == a as real * d as real && (c * b) as real == c as real * b as real;
    var p := b as real * d as real;
    assert p > 0.0;
    SignOf(x - y, p);
  }

  lemma {:induction false} SignOf(z: real, p: real)
    requires p > 0.0
    ensures (z > 0.0 <==> z * p > 0.0) && (z == 0.0 <==> z * p == 0.0)
  {}

  /** The recommended link in whole numbers: it has been counted; no counted link wins a
      greater part of its races; among those with its part none has more races; and among
      those with as many as well none has a smaller id. */
  lemma {:induction false} PickMeans(r: Race, k: u32)
    requires k in r.parts && r.parts[k] > 0
    ensures var p := Pick(r);
            && p in r.parts && r.parts[p] > 0
            && Count(r.wins, p) * r.parts[k] >= Count(r.wins, k) * r.parts[p]
            && (Count(r.wins, p) * r.parts[k] == Count(r.wins, k) * r.parts[p] ==>
                  r.parts[p] >= r.parts[k] && (r.parts[p] == r.parts[k] ==> p <= k))
  {
    assert Candidate(r, k);
    PickIsBest(r);
    var p := Pick(r);
    if p != k {
      assert Beats(r, p, k);
      Ratios(Count(r.wins, p), r.parts[p], Count(r.wins, k), r.parts[k]);
    }
  }

  // ---- Counters over a run ----

  datatype Outcome = Win(link: u32) | Loss(link: u32) | Tick | Reset

  function Do(r: Race, step: Outcome): Race {
    match step
    case Win(k) => Won(r, k)
    case Loss(k) => Lost(r, k)
    case Tick => Halve(r)
    case Reset => NO_RACE
  }

  function Tally(steps: seq<Outcome>): Race {
    if steps == [] then NO_RACE else Do(Tally(steps[..|steps| - 1]), steps[|steps| - 1])
  }

  /** The races of a link since the last tick or reset. */
  function Since(steps: seq<Outcome>, link: u32): nat {
    if steps == [] then 0
    else
      match steps[|steps| - 1]
      case Win(k) => Since(steps[..|steps| - 1], link) + (if k == link then 1 else 0)
      case Loss(k) => Since(steps[..|steps| - 1], link) + (if k == link then 1 else 0)
      case Tick => 0
      case Reset => 0
  }

  const HALF32: nat := 0x8000_0000

  /** No link runs more than 2^31 races between two ticks. */
  ghost predicate Paced(steps: seq<Outcome>) {
    forall i, link: u32 {:trigger Since(steps[..i], link)} | 0 <= i <= |steps| :: Since(steps[..i], link) <= HALF32
  }

  lemma {:induction false} PacedPrefix(steps: seq<Outcome>)
    requires Paced(steps) && steps != []
    ensures Paced(steps[..|steps| - 1])
  {
    var init := steps[..|steps| - 1];
    forall i, link: u32 | 0 <= i <= |init| ensures Since(init[..i], link) <= HALF32 {
      assert init[..i] == steps[..i];
    }
  }

  ghost predicate WinsBounded(r: Race) {
    forall k: u32 :: Count(r.wins, k) <= Count(r.parts, k)
  }

  /** Both bounds at once, so that neither counter can have wrapped. */
  ghost predicate Bounded(r: Race, since: u32 -> nat) {
    0 !in r.parts && forall k: u32 :: Count(r.wins, k) <= Count(r.parts, k) < HALF32 + since(k)
  }

  function Races(step: Outcome, link: u32, before: nat): nat {
    match step
    case Win(j) => if j == link then before + 1 else before
    case Loss(j) => if j == link then before + 1 else before
    case _ => 0
  }

  lemma {:induction false} DoBoundedAt(r: Race, step: Outcome, link: u32, before: nat)
    requires Count(r.wins, link) <= Count(r.parts, link) < HALF32 + before && 0 !in r.parts
    requires before <= HALF32 && Races(step, link, before) <= HALF32
    ensures Count(Do(r, step).wins, link) <= Count(Do(r, step).parts, link) < HALF32 + Races(step, link, before)
  {}

  lemma {:induction false} DoBounded(r: Race, step: Outcome, before: u32 -> nat)
    requires Bounded(r, before)
    requires forall k: u32 :: before(k) <= HALF32 && Races(step, k, before(k)) <= HALF32
    ensures Bounded(Do(r, step), k => Races(step, k, before(k)))
  {
    forall k: u32
      ensures Count(Do(r, step).wins, k) <= Count(Do(r, step).parts, k) < HALF32 + Races(step, k, before(k))
    {
      DoBoundedAt(r, step, k, before(k));
    }
  }

  /** Through races, halving and resets a link never has more wins than races. */
  lemma {:induction false} WinsStayBounded(steps: seq<Outcome>)
    requires Paced(steps)
    ensures WinsBounded(Tally(steps)) && Bounded(Tally(steps), k => Since(steps, k))
  {
    if steps != [] {
      var init, last := steps[..|steps| - 1], steps[|steps| - 1];
      PacedPrefix(steps);
      WinsStayBounded(init);
      assert steps[..|steps|] == steps && init[..|init|] == init;
      forall k: u32 ensures Since(init, k) <= HALF32 && Since(steps, k) == Races(last, k, Since(init, k)) <= HALF32 {
        assert Since(steps[..|steps|], k) <= HALF32 && Since(init[..|init|], k) <= HALF32;
      }
      DoBounded(Tally(init), last, k => Since(init, k));
    }
  }

  /** The race does not wrap the link's participations past its wins. */
  predicate Safe(r: Race, step: Outcome) {
    match step
    case Win(k) => k == 0 || Count(r.parts, k) < MAX32 || Count(r.wins, k) == MAX32
    case Loss(k) => k == 0 || Count(r.parts, k) < MAX32 || Count(r.wins, k) == 0
    case _ => true
  }

  /** What a step does to the counters of one link. */
  lemma {:induction false} CountAfter(r: Race, step: Outcome, k: u32)
    ensures var d := Do(r, step);
            match step
            case Win(j) =>
              Count(d.wins, k) == (if j == k != 0 then Succ32(Count(r.wins, k)) else Count(r.wins, k))
              && Count(d.parts, k) == (if j == k != 0 then Succ32(Count(r.parts, k)) else Count(r.parts, k))
            case Loss(j) =>
              Count(d.wins, k) == Count(r.wins, k)
              && Count(d.parts, k) == (if j == k != 0 then Succ32(Count(r.parts, k)) else Count(r.parts, k))
            case Tick => Count(d.wins, k) == Count(r.wins, k) / 2 && Count(d.parts, k) == Count(r.parts, k) / 2
            case Reset => Count(d.wins, k) == Count(d.parts, k) == 0
  {}

  /** A step keeps the bound exactly if it is safe: a race too many wraps the
      participations, and then the link has more wins than races. */
  lemma {:induction false} WinsBoundedIff(r: Race, step: Outcome)
    requires WinsBounded(r)
    ensures WinsBounded(Do(r, step)) <==> Safe(r, step)
  {
    var d := Do(r, step);
    if Safe(r, step) {
      forall k: u32 ensures Count(d.wins, k) <= Count(d.parts, k) {
        CountAfter(r, step, k);
        assert Count(r.wins, k) <= Count(r.parts, k);
        hide Count, Do;
      }
    } else {
      CountAfter(r, step, step.link);
      assert Count(r.wins, step.link) <= Count(r.parts, step.link);
      hide Count, Do;
      assert Count(d.wins, step.link) > Count(d.parts, step.link);
    }
  }

  /** Every race of the run is safe. */
  predicate NeverOverruns(steps: seq<Outcome>) {
    steps == [] || (NeverOverruns(steps[..|steps| - 1]) && Safe(Tally(steps[..|steps| - 1]), steps[|steps| - 1]))
  }

  ghost predicate BoundedThroughout(steps: seq<Outcome>) {
    steps == [] || (BoundedThroughout(steps[..|steps| - 1]) && WinsBounded(Tally(steps)))
  }

  /** So through races, halving and resets the bound holds throughout a run exactly if
      no race of it overruns a counter. */
  lemma {:induction false} BoundedThroughoutIff(steps: seq<Outcome>)
    ensures BoundedThroughout(steps) <==> NeverOverruns(steps)
    ensures NeverOverruns(steps) ==> WinsBounded(Tally(steps))
  {
    if steps != [] {
      var init := steps[..|steps| - 1];
      BoundedThroughoutIff(init);
      assert Tally(steps) == Do(Tally(init), steps[|steps| - 1]);
      if NeverOverruns(init) { WinsBoundedIff(Tally(init), steps[|steps| - 1]); }
      hide Tally, Do, Safe, WinsBounded;
    } else {
      assert WinsBounded(NO_RACE);
    }
  }

  /** At most 2^31 races of each link between two ticks are few enough. */
  lemma {:induction false} PacedNeverOverruns(steps: seq<Outcome>)
    requires Paced(steps)
    ensures NeverOverruns(steps)
  {
    if steps != [] {
      var init := steps[..|steps| - 1];
      PacedPrefix(steps);
      PacedNeverOverruns(init);
      WinsStayBounded(init);
      assert steps[..|steps|] == steps;
      forall k: u32 ensures Count(Tally(init).parts, k) < HALF32 + Since(init, k) && Since(steps, k) <= HALF32 {
        assert Since(steps[..|steps|], k) <= HALF32;
      }
    }
  }

  /** No race lost by link since the last reset. */
  predicate NeverLost(steps: seq<Outcome>, link: u32) {
    steps == []
    || (match steps[|steps| - 1]
        case Reset => true
        case Loss(k) => k != link && NeverLost(steps[..|steps| - 1], link)
        case _ => NeverLost(steps[..|steps| - 1], link))
  }

  lemma {:induction false} NeverLostCounts(steps: seq<Outcome>, link: u32)
    requires NeverLost(steps, link)
    ensures Count(Tally(steps).wins, link) == Count(Tally(steps).parts, link)
  {
    if steps != [] && steps[|steps| - 1] != Reset {
      NeverLostCounts(steps[..|steps| - 1], link);
    }
  }

  /** While some counted link has never lost, the recommended link has win rate 1
      exactly if no counted link has more wins than races. */
  lemma {:induction false} UnbeatenLinkSetsTheRateIff(steps: seq<Outcome>, link: u32)
    requires NeverLost(steps, link) && Candidate(Tally(steps), link)
    ensures var r := Tally(steps);
            Candidate(r, Pick(r))
            && (Rate(r, Pick(r)) == 1.0 <==> forall k | Candidate(r, k) :: Count(r.wins, k) <= r.parts[k])
  {
    var r := Tally(steps);
    NeverLostCounts(steps, link);
    PickIsBest(r);
    hide Tally, NeverLost, Rate, Pick;
    RateIs(r, link);
    RateIs(r, Pick(r));
    forall k | Candidate(r, k)
      ensures Rate(r, k) <= Rate(r, Pick(r)) && (Rate(r, k) <= 1.0 <==> Count(r.wins, k) <= r.parts[k])
    {
      RateIs(r, k);
      assert Pick(r) == k || Beats(r, Pick(r), k);
    }
    assert Rate(r, link) == 1.0;
  }

  /** So it has, however few races the first or how many wins another link has, while
      no race overruns a counter. */
  lemma {:induction false} UnbeatenLinkSetsTheRate(steps: seq<Outcome>, link: u32)
    requires NeverOverruns(steps) && NeverLost(steps, link) && Candidate(Tally(steps), link)
    ensures Candidate(Tally(steps), Pick(Tally(steps))) && Rate(Tally(steps), Pick(Tally(steps))) == 1.0
  {
    UnbeatenLinkSetsTheRateIff(steps, link);
    BoundedThroughoutIff(steps);
    assert forall k | Candidate(Tally(steps), k) :: Count(Tally(steps).wins, k) <= Count(Tally(steps).parts, k);
    hide Tally;
  }

  lemma {:induction false} RateIs(r: Race, link: u32)
    requires Candidate(r, link)
    ensures Rate(r, link) <= 1.0 <==> Count(r.wins, link) <= r.parts[link]
    ensures Rate(r, link) == 1.0 <==> Count(r.wins, link) == r.parts[link]
  {
    QuotientIs(Count(r.wins, link), r.parts[link]);
  }

  lemma {:induction false} QuotientIs(a: nat, b: nat)
    requires 0 < b
    ensures a as real / b as real <= 1.0 <==> a <= b
    ensures a as real / b as real == 1.0 <==> a == b
  {
    var q, d := a as real / b as real, b as real;
    assert q * d == a as real;
    assert q <= 1.0 ==> q * d <= d;
    assert q > 1.0 ==> q * d > d;
  }

  // ---- An overrun ----

  function Losses(link: u32, n: nat): seq<Outcome> { if n == 0 then [] else Losses(link, n - 1) + [Loss(link)] }

  lemma {:induction false} LossesSnoc(before: seq<Outcome>, link: u32, n: nat)
    requires n > 0
    ensures var steps := before + Losses(link, n);
            steps != [] && steps[|steps| - 1] == Loss(link) && steps[..|steps| - 1] == before + Losses(link, n - 1)
  {
    assert before + Losses(link, n) == (before + Losses(link, n - 1)) + [Loss(link)];
  }

  /** r after n lost races of link. */
  function Beaten(r: Race, link: u32, n: nat): Race { r.(parts := r.parts[link := (Count(r.parts, link) + n) % TWO32]) }

  lemma {:induction false} BeatenAgain(r: Race, link: u32, n: nat)
    requires link != 0
    ensures Lost(Beaten(r, link, n), link) == Beaten(r, link, n + 1) && Lost(r, link) == Beaten(r, link, 1)
  {
    var c := Count(r.parts, link);
    assert Succ32((c + n) % TWO32) == (c + n + 1) % TWO32;
    assert Lost(Beaten(r, link, n), link).parts == Beaten(r, link, n + 1).parts;
  }

  lemma {:induction false} LossesCount(before: seq<Outcome>, link: u32, n: nat)
    requires link != 0 && n > 0
    ensures Tally(before + Losses(link, n)) == Beaten(Tally(before), link, n)
  {
    LossesSnoc(before, link, n);
    BeatenAgain(Tally(before), link, n - 1);
    assert before + Losses(link, 0) == before;
    hide Losses, Beaten, Lost;
    if n > 1 {
      LossesCount(before, link, n - 1);
    }
  }

  lemma {:induction false} LossesSpare(before: seq<Outcome>, link: u32, n: nat, other: u32)
    requires NeverLost(before, other) && other != link
    ensures NeverLost(before + Losses(link, n), other)
  {
    if n == 0 {
      assert before + Losses(link, n) == before;
    } else {
      LossesSpare(before, link, n - 1, other);
      LossesSnoc(before, link, n);
    }
  }

  /** A run that overruns: a link wins twice and then loses 2^32 - 1 times without a
      heartbeat in between. With two wins in one race it is recommended, at win rate
      2, before a link that has won all its races. */
  lemma {:induction false} OverrunMisleads(good: u32, bad: u32)
    requires good != 0 && bad != 0 && good != bad
    ensures var steps := [Win(good), Win(bad), Win(bad)] + Losses(bad, MAX32);
            var r := Tally(steps);
            && NeverLost(steps, good) && Candidate(r, good) && Candidate(r, bad)
            && !NeverOverruns(steps) && !BoundedThroughout(steps)
            && Count(r.wins, bad) == 2 && r.parts[bad] == 1 && Pick(r) == bad && Rate(r, bad) == 2.0
  {
    var wins := [Win(good), Win(bad), Win(bad)];
    var steps := wins + Losses(bad, MAX32);
    ThreeWins(good, bad);
    LossesCount(wins, bad, MAX32);
    LossesSpare(wins, bad, MAX32, good);
    BoundedThroughoutIff(steps);
    TwoWinsInOneRace(good, bad);
    assert Tally(steps) == Race(map[good := 1, bad := 2], map[good := 1, bad := 1]);
    hide Tally, Losses, NeverLost, NeverOverruns, BoundedThroughout, WinsBounded, Rate, Pick;
  }

  lemma {:induction false} TwoWinsInOneRace(good: u32, bad: u32)
    requires good != bad
    ensures var r := Race(map[good := 1, bad := 2], map[good := 1, bad := 1]);
            Candidate(r, good) && Candidate(r, bad) && Pick(r) == bad && Rate(r, bad) == 2.0 && !WinsBounded(r)
  {
    var r := Race(map[good := 1, bad := 2], map[good := 1, bad := 1]);
    assert Count(r.wins, bad) > Count(r.parts, bad);
    assert IsBest(r, bad);
    PickIs(r, bad);
  }

  lemma {:induction false} ThreeWins(good: u32, bad: u32)
    requires good != 0 && bad != 0 && good != bad
    ensures Tally([Win(good), Win(bad), Win(bad)]) == Race(map[good := 1, bad := 2], map[good := 1, bad := 2])
    ensures NeverLost([Win(good), Win(bad), Win(bad)], good)
  {
    var wins := [Win(good), Win(bad), Win(bad)];
    assert wins[..2] == [Win(good), Win(bad)] && [Win(good), Win(bad)][..1] == [Win(good)];
    assert Tally([Win(good)]) == Race(map[good := 1], map[good := 1]);
    assert Tally(wins[..2]) == Race(map[good := 1, bad := 1], map[good := 1, bad := 1]);
    assert NeverLost([Win(good)], good) && NeverLost(wins[..2], good);
  }

  /** A link without an id never gets a counter. */
  lemma {:induction false} NobodyRaces(steps: seq<Outcome>)
    ensures 0 !in Tally(steps).parts
  {
    if steps != [] {
      NobodyRaces(steps[..|steps| - 1]);
    }
  }

  // ---- Quiescence ----

  /** m is the largest race counter, or 0 if there is none. */
  ghost predicate IsLargest(r: Race, m: nat) {
    0 !in r.parts
    && (forall k | k in r.parts :: r.parts[k] <= m)
    && (m == 0 || exists k :: k in r.parts && r.parts[k] == m)
  }

  function BitLength(m: nat): nat { if m == 0 then 0 else 1 + BitLength(m / 2) }

  /** A heartbeat emits a recommendation. */
  ghost predicate Emits(r: Race) { r.parts != map[] && Pick(r) != 0 }

  /** How many of n heartbeats emit, when no race happens in between. */
  ghost function Emissions(r: Race, n: nat): nat
    decreases n
  {
    if n == 0 then 0 else (if Emits(r) then 1 else 0) + Emissions(Halve(r), n - 1)
  }

  function Halvings(r: Race, n: nat): Race { if n == 0 then r else Halve(Halvings(r, n - 1)) }

  lemma {:induction false} HalveFirst(r: Race, n: nat)
    ensures Halvings(Halve(r), n) == Halve(Halvings(r, n))
  {
    if n > 0 {
      HalveFirst(r, n - 1);
    }
  }

  lemma {:induction false} EmissionsSnoc(r: Race, n: nat)
    ensures Emissions(r, n + 1) == Emissions(r, n) + (if Emits(Halvings(r, n)) then 1 else 0)
    decreases n
  {
    if n > 0 {
      EmissionsSnoc(Halve(r), n - 1);
      HalveFirst(r, n - 1);
    }
  }

  lemma {:induction false} HalvingsEmpty(r: Race, n: nat)
    ensures Halvings(r, n).parts == map[] <==> r.parts == map[]
  {
    if n > 0 {
      HalvingsEmpty(r, n - 1);
      assert Halve(Halvings(r, n - 1)).parts.Keys == Halvings(r, n - 1).parts.Keys;
    }
  }

  /** The counters after n heartbeats without a race: empty ones are left alone. */
  function Decayed(r: Race, n: nat): Race { if r.parts == map[] then r else Halvings(r, n) }

  lemma {:induction false} DecaysNext(r: Race, n: nat)
    ensures var d := Decayed(r, n);
            && Decayed(r, n + 1) == (if d.parts == map[] then d else Halve(d))
            && Emissions(r, n + 1) == Emissions(r, n) + (if Emits(d) then 1 else 0)
  {
    HalvingsEmpty(r, n);
    EmissionsSnoc(r, n);
    hide Emissions, Halve;
  }

  lemma {:induction false} LargestExists(r: Race) returns (m: nat)
    requires 0 !in r.parts
    ensures IsLargest(r, m)
    decreases r.parts.Keys
  {
    m := 0;
    if k :| k in r.parts {
      var rest := r.(parts := r.parts - {k});
      assert rest.parts.Keys == r.parts.Keys - {k};
      m := LargestExists(rest);
      assert m != 0 ==> exists j :: j in rest.parts && rest.parts[j] == m && r.parts[j] == m;
      assert forall j | j in r.parts :: j == k || j in rest.parts;
      if r.parts[k] > m { m := r.parts[k]; }
    }
  }

  lemma {:induction false} EmitsIff(r: Race, m: nat)
    requires IsLargest(r, m)
    ensures Emits(r) <==> m > 0
  {
    if m > 0 {
      var k :| k in r.parts && r.parts[k] == m;
      assert Candidate(r, k);
      PickIsBest(r);
    } else {
      forall k: u32 ensures !IsBest(r, k) {
        assert k in r.parts ==> r.parts[k] <= m;
      }
    }
  }

  lemma {:induction false} HalveLargest(r: Race, m: nat)
    requires IsLargest(r, m)
    ensures IsLargest(Halve(r), m / 2)
  {
    if m > 0 {
      var k :| k in r.parts && r.parts[k] == m;
      assert k in Halve(r).parts && Halve(r).parts[k] == m / 2;
    }
  }

  /** Once races stop, the heartbeats that still emit are as many as the largest
      counter has bits. */
  lemma {:induction false} FeedbackQuiesces(r: Race, n: nat, m: nat)
    requires IsLargest(r, m)
    ensures Emissions(r, n) == if n <= BitLength(m) then n else BitLength(m)
    decreases n
  {
    if n > 0 {
      EmitsIff(r, m);
      HalveLargest(r, m);
      FeedbackQuiesces(Halve(r), n - 1, m / 2);
    }
  }

  function Pow2(n: nat): nat { if n == 0 then 1 else 2 * Pow2(n - 1) }

  lemma {:induction false} BitLengthBound(m: nat, n: nat)
    requires m < Pow2(n)
    ensures BitLength(m) <= n
    decreases n
  {
    if m > 0 {
      BitLengthBound(m / 2, n - 1);
    }
  }

  lemma {:induction false} QuietAfter32(r: Race, n: nat, m: nat)
    requires IsLargest(r, m)
    ensures Emissions(r, n) <= 32
  {
    FeedbackQuiesces(r, n, m);
    assert Pow2(8) == 0x100;
    assert Pow2(16) == 0x1_0000;
    assert Pow2(24) == 0x100_0000;
    assert Pow2(32) == TWO32;
    BitLengthBound(m, 32);
  }
}
