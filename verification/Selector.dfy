/** Which links carry a segment: the primary, and a probe that rotates over the rest. */
module Selector {
  import opened Words

  datatype Mode = Best | All | Weighted

  datatype Quality = Quality(rtt: u32, loss: real)

  datatype LinkInfo = LinkInfo(id: u32, live: bool, priority: u32, quality: Quality)

  datatype Entry = Entry(id: u32, weight: real)

  /** The shared probe counter is a size_t. */
  const TWO64: nat := 0x1_0000_0000_0000_0000

  type Ticket = n: nat | n < TWO64

  function Rtt(q: Quality): real { if q.rtt == 0 then 50.0 else q.rtt as real }

  function Loss(q: Quality): real { if q.loss < 0.0 then 0.0 else if q.loss > 0.99 then 0.99 else q.loss }

  lemma {:induction false} CostPositive(q: Quality)
    ensures Rtt(q) * (1.0 + 10.0 * Loss(q)) > 0.0
  {}

  function Weight(l: LinkInfo): real {
    CostPositive(l.quality);
    l.priority as real / (Rtt(l.quality) * (1.0 + 10.0 * Loss(l.quality)))
  }

  // ---- What the weight means ----

  lemma {:induction false} Sign(z: real, c: real)
    requires c > 0.0
    ensures (z * c >= 0.0 ==> z >= 0.0) && (z * c > 0.0 ==> z > 0.0)
    ensures (z >= 0.0 ==> z * c >= 0.0) && (z > 0.0 ==> z * c > 0.0)
  {}

  lemma {:induction false} Products(a: real, b: real, c: real)
    requires a <= b && c > 0.0
    ensures a * c <= b * c && (a < b ==> a * c < b * c)
  {
    Sign(b - a, c);
    assert (b - a) * c == b * c - a * c;
  }

  lemma {:induction false} Quotients(p: real, q: real, c: real, d: real)
    requires p >= q >= 0.0 && 0.0 < c <= d
    requires p > q || (p > 0.0 && c < d)
    ensures p / c > q / d
  {
    var x, y := p / c, q / d;
    assert x * c == p && y * d == q;
    Sign(y, d);
    assert (x - y) * c == (p - q) + y * (d - c);
    if c < d {
      Sign(y, d - c);
      if p == q { assert y > 0.0; }
    }
    Sign(x - y, c);
  }

  lemma {:induction false} CostGrows(x: real, y: real, u: real, v: real)
    requires 0.0 < x <= y && 0.0 < u <= v
    ensures 0.0 < x * u <= y * v && (x < y || u < v ==> x * u < y * v)
  {
    Sign(x, u);
    Products(x, y, u);
    Products(u, v, y);
  }

  /** An unknown round-trip time counts as 50 ms. */
  function Millis(l: LinkInfo): int { if l.quality.rtt == 0 then 50 else l.quality.rtt }

  /** A loss rate outside 0 to 99 per cent counts as the nearest in it. */
  function Clamped(l: LinkInfo): real {
    if l.quality.loss <= 0.0 then 0.0 else if l.quality.loss >= 0.99 then 0.99 else l.quality.loss
  }

  /** In no respect worse than the other link, and better in one. */
  predicate Dominates(a: LinkInfo, b: LinkInfo) {
    && a.priority >= b.priority && Millis(a) <= Millis(b) && Clamped(a) <= Clamped(b)
    && (a.priority > b.priority || (a.priority > 0 && (Millis(a) < Millis(b) || Clamped(a) < Clamped(b))))
  }

  function Cost(l: LinkInfo): real { Millis(l) as real * (1.0 + 10.0 * Clamped(l)) }

  lemma {:induction false} WeightIs(l: LinkInfo)
    ensures Cost(l) > 0.0 && Weight(l) == l.priority as real / Cost(l)
  {
    CostPositive(l.quality);
    assert Rtt(l.quality) == Millis(l) as real && Loss(l.quality) == Clamped(l);
  }

  lemma {:induction false} CostOrder(a: LinkInfo, b: LinkInfo)
    requires Millis(a) <= Millis(b) && Clamped(a) <= Clamped(b)
    ensures Cost(a) <= Cost(b) && (Millis(a) < Millis(b) || Clamped(a) < Clamped(b) ==> Cost(a) < Cost(b))
  {
    var u, v := 1.0 + 10.0 * Clamped(a), 1.0 + 10.0 * Clamped(b);
    assert 0 < Millis(a) && 0.0 < u <= v;
    CostGrows(Millis(a) as real, Millis(b) as real, u, v);
    hide Millis, Clamped;
  }

  /** A higher priority, a shorter round trip and less loss weigh more. */
  lemma {:induction false} BetterWeighsMore(a: LinkInfo, b: LinkInfo)
    requires Dominates(a, b)
    ensures Weight(a) > Weight(b)
  {
    hide Millis, Clamped, Cost, Weight;
    CostOrder(a, b);
    WeightIs(a);
    WeightIs(b);
    Quotients(a.priority as real, b.priority as real, Cost(a), Cost(b));
  }

  /** What one is worth in terms of the other: ten per cent of loss cost as much as
      twice the round trip, and that as much as half the priority. */
  lemma {:induction false} WeightExchange(id: u32, live: bool, p: u32, rtt: u32)
    requires 2 * p < TWO32 && 0 < 2 * rtt < TWO32
    ensures var plain, slow := LinkInfo(id, live, p, Quality(rtt, 0.0)), LinkInfo(id, live, p, Quality(2 * rtt, 0.0));
            && Weight(plain.(quality := Quality(rtt, 0.1))) == Weight(slow)
            && Weight(slow.(priority := 2 * p)) == Weight(plain)
            && Weight(plain.(priority := 2 * p)) == 2.0 * Weight(plain)
            && 2.0 * Weight(slow) == Weight(plain)
  {
    Halves(p as real, rtt as real);
  }

  lemma {:induction false} Halves(p: real, r: real)
    requires r > 0.0
    ensures p / (r * (1.0 + 10.0 * 0.1)) == p / (2.0 * r * (1.0 + 10.0 * 0.0))
    ensures (2.0 * p) / (2.0 * r * (1.0 + 10.0 * 0.0)) == p / (r * (1.0 + 10.0 * 0.0))
    ensures (2.0 * p) / (r * (1.0 + 10.0 * 0.0)) == 2.0 * (p / (r * (1.0 + 10.0 * 0.0)))
    ensures 2.0 * (p / (2.0 * r * (1.0 + 10.0 * 0.0))) == p / (r * (1.0 + 10.0 * 0.0))
  {
    var x := p / r;
    assert x * r == p;
    var y := p / (2.0 * r);
    assert y * (2.0 * r) == p;
    assert (y * 2.0) * r == x * r;
    assert y * 2.0 == x;
    var z := (2.0 * p) / (2.0 * r);
    assert z * (2.0 * r) == 2.0 * p;
    assert z * r == x * r;
    var u := (2.0 * p) / r;
    assert u * r == 2.0 * p == (2.0 * x) * r;
  }

  function Live(pool: seq<LinkInfo>): seq<LinkInfo> {
    if pool == [] then []
    else Live(pool[..|pool| - 1]) + (if pool[|pool| - 1].live then [pool[|pool| - 1]] else [])
  }

  function Entries(links: seq<LinkInfo>): (e: seq<Entry>)
    ensures |e| == |links| && forall i | 0 <= i < |e| :: e[i] == Entry(links[i].id, Weight(links[i]))
  {
    seq(|links|, i requires 0 <= i < |links| => Entry(links[i].id, Weight(links[i])))
  }

  predicate Descending(ranked: seq<Entry>) {
    forall i, j | 0 <= i < j < |ranked| :: ranked[i].weight >= ranked[j].weight
  }

  /** Any outcome of the sort: links of equal weight may come in any order. */
  predicate IsRanking(pool: seq<LinkInfo>, ranked: seq<Entry>) {
    Descending(ranked) && multiset(ranked) == multiset(Entries(Live(pool)))
  }

  // ---- The choice ----

  /** The place of the wanted link, or of the best one. */
  function PrimaryIndex(ranked: seq<Entry>, want: u32): (i: nat)
    requires ranked != []
    ensures i < |ranked|
    ensures if want != 0 && exists e :: e in ranked && e.id == want then ranked[i].id == want else i == 0
  {
    if want == 0 then 0 else Find(ranked, want, 0)
  }

  function Find(ranked: seq<Entry>, want: u32, from: nat): (i: nat)
    requires ranked != [] && from <= |ranked| && forall k | 0 <= k < from :: ranked[k].id != want
    ensures i < |ranked|
    ensures if exists e :: e in ranked && e.id == want then ranked[i].id == want else i == 0
    decreases |ranked| - from
  {
    if from == |ranked| then 0 else if ranked[from].id == want then from else Find(ranked, want, from + 1)
  }

  /** The ticket's link among the n - 1 that are not the primary. */
  function ProbeIndex(primary: nat, n: nat, ticket: nat): nat
    requires n > 1
  {
    var r := ticket % (n - 1);
    if r < primary then r else r + 1
  }

  function Choose(mode: Mode, ranked: seq<Entry>, want: u32, ticket: Ticket): seq<u32> {
    if ranked == [] then []
    else
      match mode
      case Best => [ranked[0].id]
      case All => seq(|ranked|, i requires 0 <= i < |ranked| => ranked[i].id)
      case Weighted =>
        var p := PrimaryIndex(ranked, want);
        [ranked[p].id]
        + if |ranked| > 1 then ModRange(ticket, |ranked| - 1); [ranked[ProbeIndex(p, |ranked|, ticket)].id] else []
  }

  lemma {:induction false} ModRange(a: nat, m: nat)
    requires m > 0
    ensures 0 <= a % m < m
  {}

  /** Some ranking of the pool leads to this choice. */
  ghost predicate IsChoice(pool: seq<LinkInfo>, mode: Mode, want: u32, ticket: Ticket, ids: seq<u32>) {
    exists ranked :: IsRanking(pool, ranked) && ids == Choose(mode, ranked, want, ticket)
  }

  // ---- What is chosen ----

  predicate DistinctIds(pool: seq<LinkInfo>) {
    forall i, j | 0 <= i < j < |pool| :: pool[i].id != pool[j].id
  }

  ghost predicate IsLive(pool: seq<LinkInfo>, id: u32) { exists l :: l in pool && l.live && l.id == id }

  /** No live link has a greater weight than this one. */
  ghost predicate IsBestLive(pool: seq<LinkInfo>, id: u32) {
    exists l :: l in pool && l.live && l.id == id && forall k | k in pool && k.live :: Weight(k) <= Weight(l)
  }

  lemma {:induction false} LiveMembers(pool: seq<LinkInfo>)
    ensures forall l :: l in Live(pool) <==> l in pool && l.live
  {
    if pool != [] {
      var n := |pool| - 1;
      LiveMembers(pool[..n]);
      assert pool == pool[..n] + [pool[n]];
    }
  }

  lemma {:induction false} LiveDistinct(pool: seq<LinkInfo>)
    requires DistinctIds(pool)
    ensures DistinctIds(Live(pool))
  {
    if pool != [] {
      var n := |pool| - 1;
      LiveDistinct(pool[..n]);
      LiveMembers(pool[..n]);
      var init := Live(pool[..n]);
      forall i | 0 <= i < |init| ensures init[i].id != pool[n].id {
        assert init[i] in pool[..n];
      }
    }
  }

  lemma {:induction false} RankedMembers(pool: seq<LinkInfo>, ranked: seq<Entry>)
    requires IsRanking(pool, ranked)
    ensures |ranked| == |Live(pool)|
    ensures forall e | e in ranked :: exists l :: l in pool && l.live && e == Entry(l.id, Weight(l))
    ensures forall l | l in pool && l.live :: Entry(l.id, Weight(l)) in ranked
  {
    var live := Live(pool);
    LiveMembers(pool);
    assert |multiset(ranked)| == |multiset(Entries(live))|;
    forall e | e in ranked ensures exists l :: l in pool && l.live && e == Entry(l.id, Weight(l)) {
      assert e in multiset(Entries(live));
      var i :| 0 <= i < |live| && Entries(live)[i] == e;
      assert live[i] in pool;
    }
    forall l | l in pool && l.live ensures Entry(l.id, Weight(l)) in ranked {
      var i :| 0 <= i < |live| && live[i] == l;
      assert Entries(live)[i] in multiset(Entries(live));
    }
  }

  lemma {:induction false} DistinctCount<T>(s: seq<T>, x: T)
    requires forall i, j | 0 <= i < j < |s| :: s[i] != s[j]
    ensures multiset(s)[x] <= 1
  {
    if s != [] {
      var n := |s| - 1;
      DistinctCount(s[..n], x);
      assert s == s[..n] + [s[n]];
      assert s[n] !in s[..n];
    }
  }

  lemma {:induction false} RepeatedCount<T>(s: seq<T>, i: nat, j: nat)
    requires i < j < |s|
    ensures s[i] == s[j] ==> multiset(s)[s[i]] >= 2
  {
    assert s == s[..i] + [s[i]] + s[i + 1..j] + [s[j]] + s[j + 1..];
  }

  lemma {:induction false} RankedDistinct(pool: seq<LinkInfo>, ranked: seq<Entry>, i: nat, j: nat)
    requires IsRanking(pool, ranked) && DistinctIds(pool) && i < j < |ranked|
    ensures ranked[i].id != ranked[j].id
  {
    var es := Entries(Live(pool));
    LiveDistinct(pool);
    hide Weight, Live;
    assert ranked[i] in multiset(es) && ranked[j] in multiset(es);
    var a :| 0 <= a < |es| && es[a] == ranked[i];
    var b :| 0 <= b < |es| && es[b] == ranked[j];
    DistinctCount(es, ranked[i]);
    RepeatedCount(ranked, i, j);
  }

  predicate HasLive(pool: seq<LinkInfo>) { exists l :: l in pool && l.live }

  /** Nothing is chosen exactly when no link is live. */
  lemma {:induction false} ChoosesIff(pool: seq<LinkInfo>, ranked: seq<Entry>, mode: Mode, want: u32, ticket: Ticket)
    requires IsRanking(pool, ranked)
    ensures Choose(mode, ranked, want, ticket) != [] <==> HasLive(pool)
  {
    RankedMembers(pool, ranked);
    if ranked != [] {
      assert ranked[0] in ranked;
    }
  }

  lemma {:induction false} RankedIsLive(pool: seq<LinkInfo>, ranked: seq<Entry>, i: nat)
    requires IsRanking(pool, ranked) && i < |ranked|
    ensures IsLive(pool, ranked[i].id)
  {
    RankedMembers(pool, ranked);
    assert ranked[i] in ranked;
  }

  lemma {:induction false} FirstIsBest(pool: seq<LinkInfo>, ranked: seq<Entry>)
    requires IsRanking(pool, ranked) && ranked != []
    ensures IsBestLive(pool, ranked[0].id)
  {
    RankedMembers(pool, ranked);
    hide Weight, Live;
    assert ranked[0] in ranked;
    var b :| b in pool && b.live && ranked[0] == Entry(b.id, Weight(b));
    forall k | k in pool && k.live ensures Weight(k) <= Weight(b) {
      assert Entry(k.id, Weight(k)) in ranked;
      var i :| 0 <= i < |ranked| && ranked[i] == Entry(k.id, Weight(k));
    }
  }

  lemma {:induction false} WantedIsRanked(pool: seq<LinkInfo>, ranked: seq<Entry>, want: u32)
    requires IsRanking(pool, ranked)
    ensures IsLive(pool, want) <==> exists e :: e in ranked && e.id == want
  {
    RankedMembers(pool, ranked);
    hide Weight, Live;
    if IsLive(pool, want) {
      var w :| w in pool && w.live && w.id == want;
      assert Entry(w.id, Weight(w)) in ranked;
    }
  }

  /** Weighted mode sends on one or two distinct live links: first the fed-back
      primary if it is live, else a link of the greatest weight; and on a second
      one whenever there is one. */
  lemma {:induction false} WeightedChoice(pool: seq<LinkInfo>, ranked: seq<Entry>, want: u32, ticket: Ticket)
    requires DistinctIds(pool) && IsRanking(pool, ranked) && HasLive(pool)
    ensures var ids := Choose(Weighted, ranked, want, ticket);
            && |ids| == (if |Live(pool)| > 1 then 2 else 1)
            && (forall id | id in ids :: IsLive(pool, id))
            && (|ids| == 2 ==> ids[0] != ids[1])
            && (if want != 0 && IsLive(pool, want) then ids[0] == want else IsBestLive(pool, ids[0]))
  {
    RankedMembers(pool, ranked);
    ChoosesIff(pool, ranked, Weighted, want, ticket);
    hide Weight, Live, IsRanking, IsLive, IsBestLive, HasLive, DistinctIds;
    var p := PrimaryIndex(ranked, want);
    RankedIsLive(pool, ranked, p);
    FirstIsBest(pool, ranked);
    WantedIsRanked(pool, ranked, want);
    if |ranked| > 1 {
      ModRange(ticket, |ranked| - 1);
      var q := ProbeIndex(p, |ranked|, ticket);
      RankedIsLive(pool, ranked, q);
      RankedDistinct(pool, ranked, if p < q then p else q, if p < q then q else p);
    }
  }

  /** Without a live fed-back primary, no live link dominates the first one. */
  lemma {:induction false} FirstIsUndominated(pool: seq<LinkInfo>, ranked: seq<Entry>, want: u32, ticket: Ticket)
    requires DistinctIds(pool) && IsRanking(pool, ranked) && HasLive(pool) && (want == 0 || !IsLive(pool, want))
    ensures var ids := Choose(Weighted, ranked, want, ticket);
            ids != []
            && exists l :: l in pool && l.live && l.id == ids[0] && forall k | k in pool && k.live :: !Dominates(k, l)
  {
    WeightedChoice(pool, ranked, want, ticket);
    var first := Choose(Weighted, ranked, want, ticket)[0];
    NobodyDominates(pool, first);
    hide Choose, Dominates, Weight;
  }

  lemma {:induction false} NobodyDominates(pool: seq<LinkInfo>, id: u32)
    requires IsBestLive(pool, id)
    ensures exists l :: l in pool && l.live && l.id == id && forall k | k in pool && k.live :: !Dominates(k, l)
  {
    var l :| l in pool && l.live && l.id == id && forall k | k in pool && k.live :: Weight(k) <= Weight(l);
    forall k | k in pool && k.live ensures !Dominates(k, l) {
      if Dominates(k, l) {
        BetterWeighsMore(k, l);
      }
    }
  }

  /** BEST sends one copy, on a link that no live one dominates. */
  lemma {:induction false} BestChoice(pool: seq<LinkInfo>, ranked: seq<Entry>, want: u32, ticket: Ticket)
    requires IsRanking(pool, ranked) && HasLive(pool)
    ensures var ids := Choose(Best, ranked, want, ticket);
            |ids| == 1 && IsBestLive(pool, ids[0])
            && exists l :: l in pool && l.live && l.id == ids[0] && forall k | k in pool && k.live :: !Dominates(k, l)
  {
    ChoosesIff(pool, ranked, Best, want, ticket);
    FirstIsBest(pool, ranked);
    NobodyDominates(pool, ranked[0].id);
    hide Weight, Dominates, IsBestLive, IsRanking;
  }

  /** ALL sends on every live link, once each. */
  lemma {:induction false} AllChoice(pool: seq<LinkInfo>, ranked: seq<Entry>, want: u32, ticket: Ticket)
    requires DistinctIds(pool) && IsRanking(pool, ranked)
    ensures var ids := Choose(All, ranked, want, ticket);
            (forall id: u32 :: id in ids <==> IsLive(pool, id))
            && forall i, j | 0 <= i < j < |ids| :: ids[i] != ids[j]
  {
    var ids := Choose(All, ranked, want, ticket);
    RankedMembers(pool, ranked);
    assert |ids| == |ranked| && forall i | 0 <= i < |ids| :: ids[i] == ranked[i].id;
    hide Weight, IsRanking, Live, Choose;
    forall id: u32 ensures id in ids <==> IsLive(pool, id) {
      WantedIsRanked(pool, ranked, id);
      if id in ids {
        var i :| 0 <= i < |ids| && ids[i] == id;
        assert ranked[i] in ranked;
      }
      if e :| e in ranked && e.id == id {
        var i :| 0 <= i < |ranked| && ranked[i] == e;
        assert ids[i] == id;
      }
    }
    forall i, j | 0 <= i < j < |ids| ensures ids[i] != ids[j] {
      RankedDistinct(pool, ranked, i, j);
    }
  }

  // ---- Probe coverage ----

  /** The tickets of calls t, t + 1, ... of the shared counter. */
  function TicketAt(t: Ticket, k: nat): Ticket { (t + k) % TWO64 }

  /** Among the calls from first on, n - 1 of them, exactly one probes link i. */
  ghost predicate ProbedOnce(primary: nat, n: nat, t: Ticket, i: nat)
    requires n > 1
  {
    exists k: nat :: k < n - 1 && ProbeIndex(primary, n, TicketAt(t, k)) == i
                     && forall j: nat :: j < n - 1 && ProbeIndex(primary, n, TicketAt(t, j)) == i ==> j == k
  }

  ghost predicate EachProbedOnce(primary: nat, n: nat, t: Ticket)
    requires n > 1
  {
    forall i: nat | i < n && i != primary :: ProbedOnce(primary, n, t, i)
  }

  /** The residue that stands for link i. */
  function Residue(primary: nat, i: nat): nat
    requires i != primary
  {
    if i < primary then i else i - 1
  }

  lemma {:induction false} SkipIff(primary: nat, n: nat, ticket: nat, i: nat)
    requires n > 1 && primary < n && i < n && i != primary
    ensures ProbeIndex(primary, n, ticket) == i <==> ticket % (n - 1) == Residue(primary, i)
  {}

  /** The residue of a + k, for a step k that is less than the modulus. */
  lemma {:induction false} ModStep(a: nat, k: nat, m: nat)
    requires m > 0 && k < m
    ensures (a + k) % m == if a % m + k < m then a % m + k else a % m + k - m
  {
    var q, r := a / m, a % m;
    assert a == m * q + r;
    if r + k < m {
      ModIs(q, r + k, m);
    } else {
      assert a + k == m * (q + 1) + (r + k - m);
      ModIs(q + 1, r + k - m, m);
    }
  }

  lemma {:induction false} MulMono(m: nat, a: int, b: int)
    ensures a <= b ==> m * a <= m * b
  {}

  lemma {:induction false} ModIs(q: nat, r: nat, m: nat)
    requires r < m
    ensures (m * q + r) % m == r
  {
    var x := m * q + r;
    assert x == m * (x / m) + x % m;
    MulMono(m, x / m, q - 1);
    MulMono(m, q + 1, x / m);
  }

  /** n - 1 consecutive tickets that do not wrap probe each other link exactly once. */
  lemma {:induction false} ProbeCoverage(primary: nat, n: nat, t: Ticket)
    requires n > 1 && primary < n && t + (n - 1) <= TWO64
    ensures EachProbedOnce(primary, n, t)
  {
    var m := n - 1;
    forall i: nat | i < n && i != primary ensures ProbedOnce(primary, n, t, i) {
      var r := Residue(primary, i);
      var k: nat := if r >= t % m then r - t % m else r + m - t % m;
      ModRange(t, m);
      forall j: nat | j < m ensures ProbeIndex(primary, n, TicketAt(t, j)) == i <==> j == k {
        ModStep(t, j, m);
        SkipIff(primary, n, t + j, i);
        assert TicketAt(t, j) == t + j;
      }
      assert k < m && ProbeIndex(primary, n, TicketAt(t, k)) == i;
    }
  }

  lemma {:induction false} TicketIs(t: Ticket, k: nat)
    requires k < TWO64
    ensures TicketAt(t, k) == if t + k < TWO64 then t + k else t + k - TWO64
  {}

  /** The residue of the j-th ticket, where the counter wraps after c tickets. */
  lemma {:induction false} WrapResidue(t: Ticket, j: nat, m: nat, c: nat)
    requires 0 < c < m < TWO64 && t + c == TWO64 && j < m
    ensures j >= c ==> TicketAt(t, j) % m == j - c
    ensures j < c ==>
              TicketAt(t, j) % m == (if TWO64 % m >= c - j then TWO64 % m - (c - j) else TWO64 % m - (c - j) + m)
  {
    TicketIs(t, j);
    hide TicketAt;
    if j >= c {
      ModStep(0, j - c, m);
    } else {
      ModStep(t + j, c - j, m);
      ModRange(t + j, m);
    }
  }

  /** The link that a residue stands for. */
  function LinkOf(primary: nat, r: nat): nat { if r < primary then r else r + 1 }

  lemma {:induction false} WrapCovers(primary: nat, n: nat, t: Ticket, c: nat)
    requires primary < n && 0 < c < n - 1 < TWO64 && t + c == TWO64 && TWO64 % (n - 1) == 0
    ensures EachProbedOnce(primary, n, t)
  {
    var m := n - 1;
    forall i: nat | i < n && i != primary ensures ProbedOnce(primary, n, t, i) {
      var r := Residue(primary, i);
      var k: nat := if r >= m - c then r - (m - c) else r + c;
      forall j: nat | j < m ensures ProbeIndex(primary, n, TicketAt(t, j)) == i <==> j == k {
        WrapResidue(t, j, m, c);
        SkipIff(primary, n, TicketAt(t, j), i);
      }
      assert k < m && ProbeIndex(primary, n, TicketAt(t, k)) == i;
    }
  }

  lemma {:induction false} WrapMisses(primary: nat, n: nat, t: Ticket, c: nat)
    requires primary < n && 0 < c < n - 1 < TWO64 && t + c == TWO64 && TWO64 % (n - 1) != 0
    ensures !EachProbedOnce(primary, n, t)
  {
    var m := n - 1;
    var q := TWO64 % m;
    ModRange(TWO64, m);
    if c <= q {
      var i := LinkOf(primary, m - 1);
      forall j: nat | j < m ensures ProbeIndex(primary, n, TicketAt(t, j)) != i {
        WrapResidue(t, j, m, c);
        SkipIff(primary, n, TicketAt(t, j), i);
      }
      assert i < n && i != primary && !ProbedOnce(primary, n, t, i);
    } else {
      var i := LinkOf(primary, 0);
      WrapResidue(t, c - q, m, c);
      WrapResidue(t, c, m, c);
      SkipIff(primary, n, TicketAt(t, c - q), i);
      SkipIff(primary, n, TicketAt(t, c), i);
      hide TicketAt, ProbeIndex;
      assert ProbeIndex(primary, n, TicketAt(t, c - q)) == i && ProbeIndex(primary, n, TicketAt(t, c)) == i;
      assert i < n && i != primary && !ProbedOnce(primary, n, t, i);
    }
  }

  /** The counter's own wrap at 2^64 spoils one round, unless n - 1 divides 2^64. */
  lemma {:induction false} CoverageIff(primary: nat, n: nat, t: Ticket)
    requires 1 < n < TWO64 && primary < n
    ensures EachProbedOnce(primary, n, t) <==> t + (n - 1) <= TWO64 || TWO64 % (n - 1) == 0
  {
    if t + (n - 1) <= TWO64 {
      ProbeCoverage(primary, n, t);
    } else if TWO64 % (n - 1) == 0 {
      WrapCovers(primary, n, t, TWO64 - t);
    } else {
      WrapMisses(primary, n, t, TWO64 - t);
    }
  }

  // ---- Concurrent callers ----

  /** A call of select: its place in the order of the draws, and the ticket it drew. */
  datatype Drawn = Drawn(place: nat, ticket: Ticket)

  /** Callers of select: each draws a ticket from the shared counter in one atomic
      step, and works out its probe from it some time later. */
  datatype Callers = Callers(counter: Ticket, draws: nat, busy: map<nat, Drawn>, done: seq<Drawn>)

  datatype Move = Draw(caller: nat) | Finish(caller: nat)

  predicate CanMove(s: Callers, m: Move) {
    match m
    case Draw(c) => c !in s.busy
    case Finish(c) => c in s.busy
  }

  function DoMove(s: Callers, m: Move): Callers
    requires CanMove(s, m)
  {
    match m
    case Draw(c) => Callers((s.counter + 1) % TWO64, s.draws + 1, s.busy[c := Drawn(s.draws, s.counter)], s.done)
    case Finish(c) => s.(busy := s.busy - {c}, done := s.done + [s.busy[c]])
  }

  /** Where a schedule leads from idle callers and counter t, if all its moves are possible. */
  function Scheduled(t: Ticket, moves: seq<Move>): Option<Callers> {
    if moves == [] then Some(Callers(t, 0, map[], []))
    else
      match Scheduled(t, moves[..|moves| - 1])
      case Some(p) => if CanMove(p, moves[|moves| - 1]) then Some(DoMove(p, moves[|moves| - 1])) else None
      case None => None
  }

  ghost predicate BusyAt(s: Callers, k: nat) { exists c :: c in s.busy && s.busy[c].place == k }

  ghost predicate DoneAt(s: Callers, k: nat) { exists x :: 0 <= x < |s.done| && s.done[x].place == k }

  predicate Drew(t: Ticket, draws: nat, call: Drawn) { call.place < draws && call.ticket == TicketAt(t, call.place) }

  /** Each draw so far belongs to one call, which is with a caller or has finished;
      and the k-th draw got the k-th ticket. */
  ghost predicate OnceEach(t: Ticket, s: Callers) {
    && s.counter == TicketAt(t, s.draws)
    && (forall k: nat | k < s.draws :: BusyAt(s, k) || DoneAt(s, k))
    && (forall c | c in s.busy :: Drew(t, s.draws, s.busy[c]))
    && (forall x | 0 <= x < |s.done| :: Drew(t, s.draws, s.done[x]))
    && (forall x, y | 0 <= x < y < |s.done| :: s.done[x].place != s.done[y].place)
    && (forall c, d | c in s.busy && d in s.busy && s.busy[c].place == s.busy[d].place :: c == d)
    && (forall c, x | c in s.busy && 0 <= x < |s.done| :: s.busy[c].place != s.done[x].place)
  }

  lemma {:induction false} DrawKeeps(t: Ticket, s: Callers, c: nat)
    requires OnceEach(t, s) && c !in s.busy
    ensures OnceEach(t, DoMove(s, Draw(c)))
  {
    var d := DoMove(s, Draw(c));
    forall k: nat | k < d.draws ensures BusyAt(d, k) || DoneAt(d, k) {
      assert c in d.busy && d.busy[c].place == s.draws;
      if k < s.draws && BusyAt(s, k) {
        var e :| e in s.busy && s.busy[e].place == k;
        assert e in d.busy && d.busy[e].place == k;
      }
    }
  }

  lemma {:induction false} FinishKeeps(t: Ticket, s: Callers, c: nat)
    requires OnceEach(t, s) && c in s.busy
    ensures OnceEach(t, DoMove(s, Finish(c)))
  {
    var d := DoMove(s, Finish(c));
    assert d.done[|s.done|] == s.busy[c];
    forall k: nat | k < d.draws ensures BusyAt(d, k) || DoneAt(d, k) {
      if BusyAt(s, k) {
        var e :| e in s.busy && s.busy[e].place == k;
        assert e == c || (e in d.busy && d.busy[e].place == k);
      } else {
        var x :| 0 <= x < |s.done| && s.done[x].place == k;
        assert d.done[x] == s.done[x];
      }
    }
  }

  lemma {:induction false} ScheduleKeeps(t: Ticket, moves: seq<Move>, s: Callers)
    requires Scheduled(t, moves) == Some(s)
    ensures OnceEach(t, s)
  {
    if moves != [] {
      var init, m := moves[..|moves| - 1], moves[|moves| - 1];
      var p := Scheduled(t, init).value;
      ScheduleKeeps(t, init, p);
      match m
      case Draw(c) => DrawKeeps(t, p, c);
      case Finish(c) => FinishKeeps(t, p, c);
    }
  }

  /** The x-th finished call is one of the n - 1 draws from a on, and probed link i. */
  predicate Probes(primary: nat, n: nat, a: nat, done: seq<Drawn>, x: int, i: nat)
    requires n > 1
  {
    0 <= x < |done| && a <= done[x].place < a + (n - 1) && ProbeIndex(primary, n, done[x].ticket) == i
  }

  ghost predicate ProbedOnceBy(primary: nat, n: nat, a: nat, done: seq<Drawn>, i: nat)
    requires n > 1
  {
    exists x :: Probes(primary, n, a, done, x, i) && forall y | Probes(primary, n, a, done, y, i) :: y == x
  }

  /** No call of the round of n - 1 draws from a on is still busy. */
  ghost predicate RoundDone(s: Callers, n: nat, a: nat) {
    a + (n - 1) <= s.draws && forall c | c in s.busy :: !(a <= s.busy[c].place < a + (n - 1))
  }

  lemma {:induction false} TicketLater(t: Ticket, a: nat, j: nat)
    ensures TicketAt(TicketAt(t, a), j) == TicketAt(t, a + j)
  {
    var q := (t + a) / TWO64;
    assert t + a == TWO64 * q + TicketAt(t, a);
  }

  /** The finished call of one draw of the round. */
  lemma {:induction false} CallOf(t: Ticket, s: Callers, n: nat, a: nat, j: nat) returns (x: nat)
    requires OnceEach(t, s) && RoundDone(s, n, a) && j < n - 1
    ensures x < |s.done| && s.done[x] == Drawn(a + j, TicketAt(TicketAt(t, a), j))
  {
    TicketLater(t, a, j);
    hide TicketAt;
    assert !BusyAt(s, a + j) && DoneAt(s, a + j);
    x :| 0 <= x < |s.done| && s.done[x].place == a + j;
    assert Drew(t, s.draws, s.done[x]);
  }

  /** What the calls of a round probe, in whatever order they finish, is what the
      round's tickets probe in the order of the draws. */
  lemma {:induction false} RoundProbes(primary: nat, n: nat, t: Ticket, s: Callers, a: nat, i: nat)
    requires 1 < n && OnceEach(t, s) && RoundDone(s, n, a)
    ensures ProbedOnceBy(primary, n, a, s.done, i) <==> ProbedOnce(primary, n, TicketAt(t, a), i)
  {
    var u := TicketAt(t, a);
    forall x | Probes(primary, n, a, s.done, x, i) ensures s.done[x].ticket == TicketAt(u, s.done[x].place - a) {
      var y := CallOf(t, s, n, a, s.done[x].place - a);
      assert x == y;
    }
    hide TicketAt, ProbeIndex, RoundDone;
    if ProbedOnce(primary, n, u, i) {
      var k: nat :| k < n - 1 && ProbeIndex(primary, n, TicketAt(u, k)) == i
                    && forall j: nat :: j < n - 1 && ProbeIndex(primary, n, TicketAt(u, j)) == i ==> j == k;
      var x := CallOf(t, s, n, a, k);
      assert Probes(primary, n, a, s.done, x, i);
      forall y | Probes(primary, n, a, s.done, y, i) ensures y == x {
        assert s.done[y].place - a == k;
      }
    }
    if ProbedOnceBy(primary, n, a, s.done, i) {
      var x :| Probes(primary, n, a, s.done, x, i) && forall y | Probes(primary, n, a, s.done, y, i) :: y == x;
      var k: nat := s.done[x].place - a;
      forall j: nat | j < n - 1 && ProbeIndex(primary, n, TicketAt(u, j)) == i ensures j == k {
        var y := CallOf(t, s, n, a, j);
        assert Probes(primary, n, a, s.done, y, i);
      }
      assert k < n - 1 && ProbeIndex(primary, n, TicketAt(u, k)) == i;
    }
  }

  /** Under any interleaving of callers, and at any point of it, n - 1 consecutive
      draws whose calls have finished probe each link but the primary exactly once;
      unless the counter wraps among them, and n - 1 does not divide 2^64. */
  lemma {:induction false} CoverageUnderInterleaving(primary: nat, n: nat, t: Ticket, moves: seq<Move>, s: Callers,
        a: nat)
    requires 1 < n < TWO64 && primary < n
    requires Scheduled(t, moves) == Some(s) && RoundDone(s, n, a)
    ensures (forall i: nat | i < n && i != primary :: ProbedOnceBy(primary, n, a, s.done, i))
       <==> TicketAt(t, a) + (n - 1) <= TWO64 || TWO64 % (n - 1) == 0
  {
    ScheduleKeeps(t, moves, s);
    CoverageIff(primary, n, TicketAt(t, a));
    hide Scheduled, OnceEach, ProbedOnceBy, ProbedOnce, RoundDone, TicketAt;
    forall i: nat | i < n && i != primary
      ensures ProbedOnceBy(primary, n, a, s.done, i) <==> ProbedOnce(primary, n, TicketAt(t, a), i)
    {
      RoundProbes(primary, n, t, s, a, i);
    }
  }

  // ---- The selector ----

  lemma {:induction false} InsertSorted(ranked: seq<Entry>, k: nat, e: Entry)
    requires Descending(ranked) && k <= |ranked|
    requires (forall j | 0 <= j < k :: ranked[j].weight >= e.weight) && (k < |ranked| ==> ranked[k].weight < e.weight)
    ensures Descending(ranked[..k] + [e] + ranked[k..])
    ensures multiset(ranked[..k] + [e] + ranked[k..]) == multiset(ranked) + multiset{e}
  {
    InsertPermutes(ranked, k, e);
    var r := ranked[..k] + [e] + ranked[k..];
    assert forall j | 0 <= j < |r| :: r[j] == if j < k then ranked[j] else if j == k then e else ranked[j - 1];
    forall i, j | 0 <= i < j < |r| ensures r[i].weight >= r[j].weight {
      if j > k && k < |ranked| {
        assert ranked[k].weight >= ranked[j - 1].weight;
      }
    }
  }

  lemma {:induction false} InsertPermutes(ranked: seq<Entry>, k: nat, e: Entry)
    requires k <= |ranked|
    ensures multiset(ranked[..k] + [e] + ranked[k..]) == multiset(ranked) + multiset{e}
  {
    assert ranked == ranked[..k] + ranked[k..];
  }

  class LinkSelector {
    var mode: Mode
    var primary: u32
    var probeRotation: Ticket

    constructor ()
      ensures mode == Weighted && primary == 0 && probeRotation == 0
    {
      mode, primary, probeRotation := Weighted, 0, 0;
    }

    method SetMode(m: Mode)
      modifies this`mode
      ensures mode == m
    {
      mode := m;
    }

    method SetPrimaryChannel(id: u32)
      modifies this`primary
      ensures primary == id
    {
      primary := id;
    }

    static method InsertInto(ranked: seq<Entry>, e: Entry) returns (r: seq<Entry>)
      requires Descending(ranked)
      ensures Descending(r) && multiset(r) == multiset(ranked) + multiset{e}
    {
      var k := 0;
      while k < |ranked| && ranked[k].weight >= e.weight
        invariant 0 <= k <= |ranked| && forall j | 0 <= j < k :: ranked[j].weight >= e.weight
      {
        k := k + 1;
      }
      InsertSorted(ranked, k, e);
      r := ranked[..k] + [e] + ranked[k..];
    }

    /** Stands for the library sort, which may order equal weights otherwise. */
    static method Sort(es: seq<Entry>) returns (ranked: seq<Entry>)
      ensures Descending(ranked) && multiset(ranked) == multiset(es)
    {
      ranked := [];
      for i := 0 to |es|
        invariant Descending(ranked) && multiset(ranked) == multiset(es[..i])
      {
        ranked := InsertInto(ranked, es[i]);
        assert es[..i + 1] == es[..i] + [es[i]];
      }
      assert es[..|es|] == es;
    }

    /** The live links of the pool, ranked. */
    static method Rank(pool: seq<LinkInfo>) returns (ranked: seq<Entry>)
      ensures IsRanking(pool, ranked)
    {
      var es: seq<Entry> := [];
      for i := 0 to |pool|
        invariant es == Entries(Live(pool[..i]))
      {
        hide Weight;
        assert pool[..i + 1][..i] == pool[..i];
        if pool[i].live {
          es := es + [Entry(pool[i].id, Weight(pool[i]))];
        }
      }
      assert pool[..|pool|] == pool;
      ranked := Sort(es);
    }

    /** The ids that carry the next segment. Only a weighted choice with an
        alternative draws a ticket. */
    method Select(pool: seq<LinkInfo>) returns (ids: seq<u32>, ghost ranked: seq<Entry>)
      modifies this`probeRotation
      ensures IsRanking(pool, ranked) && ids == Choose(mode, ranked, primary, old(probeRotation))
      ensures probeRotation == if mode == Weighted && |ranked| > 1 then (old(probeRotation) + 1) % TWO64
                               else old(probeRotation)
    {
      hide IsRanking;
      var order := Rank(pool);
      ranked := order;
      if order == [] { return [], ranked; }
      match mode
      case Best => ids := [order[0].id];
      case All =>
        ids := [];
        for i := 0 to |order|
          invariant ids == seq(i, k requires 0 <= k < i => order[k].id)
        {
          ids := ids + [order[i].id];
        }
      case Weighted =>
        var p := 0;
        if primary != 0 {
          var i := 0;
          while i < |order| && order[i].id != primary
            invariant 0 <= i <= |order| && forall k | 0 <= k < i :: order[k].id != primary
            invariant Find(order, primary, 0) == Find(order, primary, i)
          {
            i := i + 1;
          }
          if i < |order| { p := i; }
        }
        ids := [order[p].id];
        if |order| > 1 {
          var others := |order| - 1;
          ModRange(probeRotation, others);
          var r := probeRotation % others;
          probeRotation := (probeRotation + 1) % TWO64;
          ids := ids + [order[if r < p then r else r + 1].id];
        }
    }
  }
}
