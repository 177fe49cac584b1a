/** What every run of the middle hop keeps: sound and self-healing tables, and
    frames that pass through unchanged. */
module TransitRuns {
  import opened Words
  import opened Segment
  import opened Framing
  import opened StreamSpec
  import opened TransitSpec

  // ---- The tables ----

  ghost predicate Injective(m: map<u32, Link>) {
    forall i, j | i in m && j in m && m[i] == m[j] :: i == j
  }

  /** Each routed link is a registered link of the right direction, each registered
      outbound link is routed to, and no swept link is anywhere. */
  ghost predicate TablesOk(h: Hub) { Routed(h) && Covered(h) && Known(h) }

  ghost predicate Routed(h: Hub) {
    && (forall k | k in h.outbound :: h.outbound[k] in h.links && h.links[h.outbound[k]].outbound)
    && (forall k | k in h.inbound :: h.inbound[k] in h.links && !h.links[h.inbound[k]].outbound)
  }

  ghost predicate Serves(h: Hub, l: Link) { exists k :: k in h.outbound && h.outbound[k] == l }

  ghost predicate Covered(h: Hub) {
    Injective(h.outbound) && forall l | l in h.links && h.links[l].outbound :: Serves(h, l)
  }

  ghost predicate Known(h: Hub) {
    && (forall l | l in h.links :: l < h.next && l !in h.swept)
    && (forall l | l in h.failed :: l < h.next)
    && (forall l | l in h.closed :: l < h.next)
    && (forall l | l in h.swept :: l < h.next)
  }

  /** A route that works, or whose repair is already scheduled. */
  ghost predicate Healing(h: Hub, outport: u32) {
    || (outport in h.outbound && h.outbound[outport] !in h.failed && h.outbound[outport] !in h.closed)
    || (outport in h.outbound && h.outbound[outport] in h.closing)
    || outport in h.redials
  }

  /** No dial or redial names an outport that is not configured. */
  ghost predicate Within(configured: set<u32>, h: Hub) {
    (forall k | k in h.outbound :: k in configured) && (forall k | k in h.redials :: k in configured)
  }

  /** Only known links are being closed. */
  ghost predicate ClosingKnown(h: Hub) { forall l | l in h.closing :: l < h.next }

  ghost predicate Sound(configured: set<u32>, h: Hub) { TablesOk(h) && Within(configured, h) && ClosingKnown(h) }

  lemma {:induction false} RouteAllInbound(hello: HelloDecoder, outbound: map<u32, Link>, inbound: map<u32, Link>,
                                           src: Link,
                                           fromOutport: bool, frames: seq<seq<u8>>)
    requires AllWellFormed(frames)
    ensures var table := RouteAll(hello, outbound, inbound, src, fromOutport, frames).0;
            (fromOutport ==> table == inbound)
            && forall k | k in table :: table[k] == src || (k in inbound && table[k] == inbound[k])
  {
    if frames != [] {
      RouteAllInbound(hello, outbound, inbound, src, fromOutport, frames[..|frames| - 1]);
      hide Announced;
    }
  }

  /** Buffers and the inbound table may change, as long as that table names Inport links. */
  lemma {:induction false} SameTables(h: Hub, d: Hub)
    requires TablesOk(h) && d == h.(inbound := d.inbound, links := d.links)
    requires forall l :: l in d.links <==> l in h.links
    requires forall l | l in h.links :: d.links[l].outbound == h.links[l].outbound
    requires forall k | k in d.inbound :: d.inbound[k] in h.links && !h.links[d.inbound[k]].outbound
    ensures TablesOk(d)
  {
    assert forall l | Serves(h, l) :: Serves(d, l);
  }

  lemma {:induction false} InboundSound(h: Hub, table: map<u32, Link>, link: Link)
    requires Routed(h) && link in h.links && (h.links[link].outbound ==> table == h.inbound)
    requires forall k | k in table :: table[k] == link || (k in h.inbound && table[k] == h.inbound[k])
    ensures forall k | k in table :: table[k] in h.links && !h.links[table[k]].outbound
  {}

  lemma {:induction false} BytesSound(hello: HelloDecoder, h: Hub, link: Link, bytes: seq<u8>)
    requires TablesOk(h)
    ensures var d := OnBytes(hello, h, link, bytes).0;
            TablesOk(d) && d == h.(inbound := d.inbound, links := d.links)
  {
    if link in h.links {
      var p := Parse(h.links[link].buffer + bytes);
      ParseWellFormed(h.links[link].buffer + bytes);
      RouteAllInbound(hello, h.outbound, h.inbound, link, h.links[link].outbound, p.frames);
      var table := RouteAll(hello, h.outbound, h.inbound, link, h.links[link].outbound, p.frames).0;
      hide RouteAll, Parse, Covered, Known;
      var d := OnBytes(hello, h, link, bytes).0;
      assert d == h.(inbound := table, links := h.links[link := h.links[link].(buffer := p.rest)]);
      InboundSound(h, table, link);
      SameTables(h, d);
    }
  }

  lemma {:induction false} DialCovers(h: Hub, outport: u32, connected: bool)
    requires Routed(h) && Covered(h) && Known(h)
    ensures Covered(DialOne(h, outport, connected))
  {
    var d := DialOne(h, outport, connected);
    forall l | l in d.links && d.links[l].outbound ensures Serves(d, l) {
      if l != h.next {
        assert Serves(h, l);
        var k :| k in h.outbound && h.outbound[k] == l;
        assert k != outport;
        assert k in d.outbound;
      } else {
        assert outport in d.outbound;
      }
    }
  }

  lemma {:induction false} DialSound(h: Hub, outport: u32, connected: bool)
    requires TablesOk(h)
    ensures TablesOk(DialOne(h, outport, connected))
  {
    DialCovers(h, outport, connected);
    hide Covered, Injective;
  }

  lemma {:induction false} SweepCovers(h: Hub, link: Link)
    requires Covered(h)
    ensures Covered(Sweep(h, link))
  {
    var d := Sweep(h, link);
    if link in h.links {
      forall l | l in d.links && d.links[l].outbound ensures Serves(d, l) {
        assert Serves(h, l);
        var k :| k in h.outbound && h.outbound[k] == l;
        assert k in d.outbound;
      }
    } else {
      assert forall l | Serves(h, l) :: Serves(d, l);
    }
  }

  lemma {:induction false} SweepSound(h: Hub, link: Link)
    requires TablesOk(h) && link < h.next
    ensures TablesOk(Sweep(h, link))
  {
    SweepCovers(h, link);
    hide Covered, Injective;
  }

  lemma {:induction false} StepTables(hello: HelloDecoder, h: Hub, e: HubEvent)
    requires TablesOk(h) && ClosingKnown(h) && Enabled(h, e)
    ensures TablesOk(Step(hello, h, e).0)
  {
    match e
    case Bytes(link, bytes) => hide OnBytes, TablesOk; BytesSound(hello, h, link, bytes);
    case Dial(outport, connected) => hide DialOne, TablesOk; DialSound(h, outport, connected);
    case Redial(outport, connected) =>
      var h' := h.(redials := h.redials - multiset{outport});
      assert TablesOk(h');
      hide DialOne, TablesOk;
      DialSound(h', outport, connected);
    case CloseTask(link) =>
      assert link < h.next;
      hide Sweep, TablesOk;
      SweepSound(h, link);
    case _ =>
  }

  lemma {:induction false} StepWithin(hello: HelloDecoder, configured: set<u32>, h: Hub, e: HubEvent)
    requires TablesOk(h) && Within(configured, h) && Enabled(h, e) && (e.Dial? ==> e.outport in configured)
    ensures Within(configured, Step(hello, h, e).0)
  {
    if e.Bytes? { BytesSound(hello, h, e.link, e.bytes); }
    hide TablesOk, OnBytes;
  }

  lemma {:induction false} StepClosing(hello: HelloDecoder, h: Hub, e: HubEvent)
    requires TablesOk(h) && ClosingKnown(h) && Enabled(h, e)
    ensures ClosingKnown(Step(hello, h, e).0)
  {
    if e.Bytes? { BytesSound(hello, h, e.link, e.bytes); }
    hide TablesOk, OnBytes;
  }

  lemma {:induction false} StepSound(hello: HelloDecoder, configured: set<u32>, h: Hub, e: HubEvent)
    requires Sound(configured, h) && Enabled(h, e) && (e.Dial? ==> e.outport in configured)
    ensures Sound(configured, Step(hello, h, e).0)
  {
    StepTables(hello, h, e);
    StepWithin(hello, configured, h, e);
    StepClosing(hello, h, e);
  }

  /** The close task of a routed link schedules the redial of exactly its outport, as
      the link serves no other; and no close task loses the repair of a route. */
  lemma {:induction false} SweepHeals(h: Hub, link: Link, outport: u32)
    requires TablesOk(h)
    ensures outport in h.outbound && h.outbound[outport] == link ==>
              Sweep(h, link).redials == h.redials + multiset{outport} && outport !in Sweep(h, link).outbound
    ensures link !in h.outbound.Values ==> Sweep(h, link).redials == h.redials
    ensures Healing(h, outport) ==> Healing(Sweep(h, link), outport)
  {
    if outport in h.outbound && h.outbound[outport] == link {
      assert outport in Served(h.outbound, link);
      assert Greatest(Served(h.outbound, link)) == outport;
    }
  }

  /** A dial repairs its own route, at once or by a redial, and leaves the others alone. */
  lemma {:induction false} DialHeals(h: Hub, k: u32, connected: bool, outport: u32)
    requires TablesOk(h)
    ensures outport == k || Healing(h, outport) ==> Healing(DialOne(h, k, connected), outport)
  {}

  /** A step never loses the repair of a route. */
  lemma {:induction false} StepHeals(hello: HelloDecoder, h: Hub, e: HubEvent, outport: u32)
    requires TablesOk(h) && Enabled(h, e) && Healing(h, outport)
    ensures Healing(Step(hello, h, e).0, outport)
  {
    match e
    case Bytes(link, bytes) => hide OnBytes, TablesOk; BytesSound(hello, h, link, bytes);
    case CloseTask(link) => hide Sweep, TablesOk; SweepHeals(h, link, outport);
    case Dial(k, connected) => hide DialOne, TablesOk, Healing; DialHeals(h, k, connected, outport);
    case Redial(k, connected) =>
      var h' := h.(redials := h.redials - multiset{k});
      assert TablesOk(h') && (k != outport ==> Healing(h', outport));
      hide DialOne, TablesOk, Healing;
      DialHeals(h', k, connected, outport);
    case _ => hide TablesOk;
  }

  /** The dials of start(), one for each configured outport. */
  function Started(h: Hub, outports: seq<u32>, connected: seq<bool>): Hub
    requires |outports| == |connected|
  {
    if outports == [] then h
    else
      var n := |outports| - 1;
      DialOne(Started(h, outports[..n], connected[..n]), outports[n], connected[n])
  }

  lemma {:induction false} StartedOk(configured: set<u32>, outports: seq<u32>, connected: seq<bool>)
    requires |outports| == |connected| && forall k | k in outports :: k in configured
    ensures Sound(configured, Started(EMPTY, outports, connected))
    ensures forall k | k in outports :: Healing(Started(EMPTY, outports, connected), k)
  {
    if outports != [] {
      var n := |outports| - 1;
      StartedOk(configured, outports[..n], connected[..n]);
      var h := Started(EMPTY, outports[..n], connected[..n]);
      DialSound(h, outports[n], connected[n]);
      assert outports[n] in outports;
      forall k | k in outports ensures Healing(DialOne(h, outports[n], connected[n]), k) {
        if k != outports[n] {
          assert k in outports[..n];
          StepHeals(_ => None, h, Dial(outports[n], connected[n]), k);
        }
      }
    }
  }

  ghost function Run(hello: HelloDecoder, h: Hub, events: seq<HubEvent>): Hub {
    if events == [] then h else Step(hello, Run(hello, h, events[..|events| - 1]), events[|events| - 1]).0
  }

  /** A run: each event is enabled when it happens, and only configured outports are dialed. */
  ghost predicate Allowed(hello: HelloDecoder, configured: set<u32>, h: Hub, events: seq<HubEvent>) {
    events == []
    || (var init, e := events[..|events| - 1], events[|events| - 1];
        Allowed(hello, configured, h, init) && Enabled(Run(hello, h, init), e) && (e.Dial? ==> e.outport in configured))
  }

  function Configured(outports: seq<u32>): set<u32> { set k | k in outports }

  /** In every state before stop the tables are sound, and every configured outport
      has an unfailed link, a pending close task or a pending redial. */
  lemma {:induction false} TablesSoundAndHealing(hello: HelloDecoder, outports: seq<u32>, connected: seq<bool>,
                                                 events: seq<HubEvent>)
    requires |outports| == |connected|
    requires Allowed(hello, Configured(outports), Started(EMPTY, outports, connected), events)
    ensures var h := Run(hello, Started(EMPTY, outports, connected), events);
            Sound(Configured(outports), h) && forall k | k in outports :: Healing(h, k)
  {
    var configured := Configured(outports);
    StartedOk(configured, outports, connected);
    if events != [] {
      var init, e := events[..|events| - 1], events[|events| - 1];
      TablesSoundAndHealing(hello, outports, connected, init);
      var h := Run(hello, Started(EMPTY, outports, connected), init);
      StepSound(hello, configured, h, e);
      forall k | k in outports ensures Healing(Step(hello, h, e).0, k) {
        StepHeals(hello, h, e, k);
      }
    }
  }

  // ---- Transparency ----

  /** What a whole run sends, in order. */
  ghost function Output(hello: HelloDecoder, h: Hub, events: seq<HubEvent>): seq<Forwarded>
    decreases |events|
  {
    if events == [] then []
    else Step(hello, h, events[0]).1 + Output(hello, Step(hello, h, events[0]).0, events[1..])
  }

  /** The frames sent on dst that came in on src. */
  function Between(sent: seq<Forwarded>, src: Link, dst: Link): seq<seq<u8>> {
    if sent == [] then []
    else Between(sent[..|sent| - 1], src, dst)
         + (if sent[|sent| - 1].src == src && sent[|sent| - 1].dst == dst then [sent[|sent| - 1].frame] else [])
  }

  /** The frames that are not hop-local, which have none of the flags of feedback,
      heartbeat and hello, and name this outport. */
  function For(frames: seq<seq<u8>>, outport: u32): seq<seq<u8>>
    requires AllWellFormed(frames)
  {
    if frames == [] then []
    else
      var n := |frames| - 1;
      For(frames[..n], outport)
      + (if HdrOf(frames[n]).flags & 0x38 == 0 && HdrOf(frames[n]).outport == outport then [frames[n]] else [])
  }

  lemma {:induction false} BetweenAppend(a: seq<Forwarded>, b: seq<Forwarded>, src: Link, dst: Link)
    ensures Between(a + b, src, dst) == Between(a, src, dst) + Between(b, src, dst)
    decreases |b|
  {
    if b == [] {
      assert a + b == a;
    } else {
      assert (a + b)[..|a + b| - 1] == a + b[..|b| - 1];
      BetweenAppend(a, b[..|b| - 1], src, dst);
    }
  }

  lemma {:induction false} ForAppend(a: seq<seq<u8>>, b: seq<seq<u8>>, outport: u32)
    requires AllWellFormed(a) && AllWellFormed(b)
    ensures AllWellFormed(a + b) && For(a + b, outport) == For(a, outport) + For(b, outport)
    decreases |b|
  {
    if b == [] {
      assert a + b == a;
    } else {
      assert (a + b)[..|a + b| - 1] == a + b[..|b| - 1];
      ForAppend(a, b[..|b| - 1], outport);
    }
  }

  /** One round from an Inport: what reaches the link of an outport is its frames. */
  lemma {:induction false} RouteAllTransparent(hello: HelloDecoder, outbound: map<u32, Link>, inbound: map<u32,
                                               Link>, src: Link,
                                               frames: seq<seq<u8>>, outport: u32)
    requires AllWellFormed(frames) && outport in outbound && Injective(outbound)
    ensures Between(RouteAll(hello, outbound, inbound, src, false, frames).1, src, outbound[outport])
            == For(frames, outport)
  {
    if frames != [] {
      var n := |frames| - 1;
      var dst := outbound[outport];
      RouteAllTransparent(hello, outbound, inbound, src, frames[..n], outport);
      var (table, sent) := RouteAll(hello, outbound, inbound, src, false, frames[..n]);
      var last := Forward(src, Target(outbound, Learn(hello, table, src, false, frames[n]), false, frames[n]),
                          frames[n]);
      BetweenAppend(sent, last, src, dst);
      SessionIff(frames[n]);
      hide Learn, IsSession;
      assert |last| == 1 ==> last[..0] == [];
    }
  }

  lemma {:induction false} RouteAllSources(hello: HelloDecoder, outbound: map<u32, Link>, inbound: map<u32, Link>,
                                           src: Link,
                                           fromOutport: bool, frames: seq<seq<u8>>)
    requires AllWellFormed(frames)
    ensures forall s | s in RouteAll(hello, outbound, inbound, src, fromOutport, frames).1 ::
              s.src == src && s.frame in frames
  {
    if frames != [] {
      RouteAllSources(hello, outbound, inbound, src, fromOutport, frames[..|frames| - 1]);
      assert forall f | f in frames[..|frames| - 1] :: f in frames;
      hide Learn, Target;
    }
  }

  /** A round touches only the buffer of its own link, and sends only what that link completed. */
  lemma {:induction false} OnBytesForwards(hello: HelloDecoder, h: Hub, link: Link, bytes: seq<u8>)
    ensures var (d, sent) := OnBytes(hello, h, link, bytes);
            && d.next == h.next && (forall l :: l in d.links <==> l in h.links)
            && (forall l | l in h.links && l != link :: d.links[l] == h.links[l])
            && (link !in h.links ==> sent == [])
            && (link in h.links ==>
                  var p := Parse(h.links[link].buffer + bytes);
                  d.links[link].buffer == p.rest && forall s | s in sent :: s.frame in p.frames)
  {
    if link in h.links {
      var port := h.links[link];
      ParseWellFormed(port.buffer + bytes);
      RouteAllSources(hello, h.outbound, h.inbound, link, port.outbound, Parse(port.buffer + bytes).frames);
      hide Parse, RouteAll;
    }
  }

  lemma {:induction false} OnBytesKeepsSides(hello: HelloDecoder, h: Hub, link: Link, bytes: seq<u8>)
    ensures var d := OnBytes(hello, h, link, bytes).0;
            forall l | l in d.links :: l in h.links && d.links[l].outbound == h.links[l].outbound
  {
    hide Parse, RouteAll;
  }

  lemma {:induction false} RouteAllTargets(hello: HelloDecoder, outbound: map<u32, Link>, inbound: map<u32, Link>,
                                           src: Link, fromOutport: bool, frames: seq<seq<u8>>)
    requires AllWellFormed(frames)
    ensures forall s | s in RouteAll(hello, outbound, inbound, src, fromOutport, frames).1 ::
              if fromOutport then s.dst in inbound.Values else s.dst in outbound.Values
  {
    if frames != [] {
      RouteAllTargets(hello, outbound, inbound, src, fromOutport, frames[..|frames| - 1]);
      RouteAllInbound(hello, outbound, inbound, src, fromOutport, frames[..|frames| - 1]);
      hide IsSession;
    }
  }

  /** Frames cross the transit from Inport links to Outport links or the other way round. */
  lemma {:induction false} OnBytesCrosses(hello: HelloDecoder, h: Hub, link: Link, bytes: seq<u8>)
    requires Routed(h)
    ensures forall s | s in OnBytes(hello, h, link, bytes).1 ::
              link in h.links && s.dst in h.links && h.links[s.dst].outbound != h.links[link].outbound
  {
    if link in h.links {
      ParseWellFormed(h.links[link].buffer + bytes);
      RouteAllTargets(hello, h.outbound, h.inbound, link, h.links[link].outbound,
                      Parse(h.links[link].buffer + bytes).frames);
      hide Parse, RouteAll;
    }
  }

  /** Any other event leaves the registered links alone, and starts new ones empty. */
  lemma {:induction false} OtherLinks(hello: HelloDecoder, h: Hub, e: HubEvent)
    requires !e.Bytes?
    ensures var d := Step(hello, h, e).0;
            h.next <= d.next
            && (e.Dial? || e.Redial? ==> h.next < d.next)
            && forall l | l in d.links ::
                 (l in h.links && d.links[l] == h.links[l])
                 || (l == h.next < d.next && d.links[l].buffer == [] && d.links[l].outbound == (e.Dial? || e.Redial?))
  {}

  lemma {:induction false} NotBetween(sent: seq<Forwarded>, src: Link, dst: Link)
    requires forall s | s in sent :: s.src != src
    ensures Between(sent, src, dst) == []
  {
    if sent != [] {
      assert sent[|sent| - 1] in sent;
      NotBetween(sent[..|sent| - 1], src, dst);
    }
  }

  /** The bytes that a run brings on one link. */
  function Incoming(events: seq<HubEvent>, link: Link): seq<u8> {
    if events == [] then []
    else (if events[0].Bytes? && events[0].link == link then events[0].bytes else []) + Incoming(events[1..], link)
  }

  /** Throughout the run src is a registered Inport link and the outport is served by
      dst, which serves no other, as in every reachable state (TablesSoundAndHealing). */
  ghost predicate InPlace(hello: HelloDecoder, h: Hub, events: seq<HubEvent>, src: Link, outport: u32, dst: Link)
    decreases |events|
  {
    && src in h.links && !h.links[src].outbound
    && outport in h.outbound && h.outbound[outport] == dst && Injective(h.outbound)
    && (events != [] ==> InPlace(hello, Step(hello, h, events[0]).0, events[1..], src, outport, dst))
  }

  /** One event: the source link goes on from its own remainder, and everything it
      completes for the outport is sent. */
  lemma {:induction false} StepTransparent(hello: HelloDecoder, h: Hub, e: HubEvent, src: Link, outport: u32)
    requires src in h.links && !h.links[src].outbound && outport in h.outbound && Injective(h.outbound)
    requires src in Step(hello, h, e).0.links && !Step(hello, h, e).0.links[src].outbound
    requires src < h.next
    ensures if e.Bytes? && e.link == src then
              var p := Parse(h.links[src].buffer + e.bytes);
              AllWellFormed(p.frames) && Step(hello, h, e).0.links[src].buffer == p.rest
              && Between(Step(hello, h, e).1, src, h.outbound[outport]) == For(p.frames, outport)
            else
              Step(hello, h, e).0.links[src] == h.links[src]
              && Between(Step(hello, h, e).1, src, h.outbound[outport]) == []
  {
    if e.Bytes? && e.link in h.links {
      var port := h.links[e.link];
      var p := Parse(port.buffer + e.bytes);
      ParseWellFormed(port.buffer + e.bytes);
      RouteAllSources(hello, h.outbound, h.inbound, e.link, port.outbound, p.frames);
      if e.link == src {
        RouteAllTransparent(hello, h.outbound, h.inbound, src, p.frames, outport);
      } else {
        NotBetween(Step(hello, h, e).1, src, h.outbound[outport]);
      }
    }
  }

  lemma {:induction false} StepNext(hello: HelloDecoder, h: Hub, e: HubEvent)
    ensures h.next <= Step(hello, h, e).0.next
  {}

  /** Over any run during which the route is in place, the frames sent to the
      outport's link that came from src are exactly the frames in the bytes of src
      that are not hop-local and name the outport: in order, and byte for byte. */
  lemma {:induction false} Transparent(hello: HelloDecoder, h: Hub, events: seq<HubEvent>, src: Link, outport: u32,
                                       dst: Link)
    requires InPlace(hello, h, events, src, outport, dst) && src < h.next
    requires var buf := h.links[src].buffer;
             Parse(buf) == Parsed([], buf, false) && !Parse(buf + Incoming(events, src)).bad
    ensures var frames := Parse(h.links[src].buffer + Incoming(events, src)).frames;
            AllWellFormed(frames) && Between(Output(hello, h, events), src, dst) == For(frames, outport)
    decreases |events|
  {
    var buf := h.links[src].buffer;
    ParseWellFormed(buf + Incoming(events, src));
    if events == [] {
      assert buf + [] == buf;
    } else {
      var e := events[0];
      var d := Step(hello, h, e).0;
      var later := Incoming(events[1..], src);
      StepTransparent(hello, h, e, src, outport);
      StepNext(hello, h, e);
      BetweenAppend(Step(hello, h, e).1, Output(hello, d, events[1..]), src, dst);
      hide Step, Parse, For, Between;
      if e.Bytes? && e.link == src {
        Assoc(buf, e.bytes, later);
        Continues(buf + e.bytes, later);
        ParseWellFormed(buf + e.bytes);
        ParseWellFormed(d.links[src].buffer + later);
        ForAppend(Parse(buf + e.bytes).frames, Parse(d.links[src].buffer + later).frames, outport);
      } else {
        assert Incoming(events, src) == later;
        assert [] + Between(Output(hello, d, events[1..]), src, dst)
               == Between(Output(hello, d, events[1..]), src, dst);
      }
      Transparent(hello, d, events[1..], src, outport, dst);
    }
  }

  /** A stream whose bytes are not bad is not bad half-way, and goes on from there. */
  lemma {:induction false} Continues(a: seq<u8>, b: seq<u8>)
    requires !Parse(a + b).bad
    ensures !Parse(a).bad && Parse(Parse(a).rest) == Parsed([], Parse(a).rest, false)
    ensures Parse(a + b) == After(Parse(a).frames, Parse(Parse(a).rest + b))
  {
    if Parse(a).bad {
      ParseBad(a, b);
    } else {
      ParseAppend(a, b);
      RestIsQuiet(a);
    }
  }

  // ---- What the next hop sees ----

  /** All frames sent on one link. */
  function Onto(sent: seq<Forwarded>, dst: Link): seq<seq<u8>> {
    if sent == [] then []
    else (if sent[0].dst == dst then [sent[0].frame] else []) + Onto(sent[1..], dst)
  }

  lemma {:induction false} OntoFrames(sent: seq<Forwarded>, dst: Link)
    ensures forall f | f in Onto(sent, dst) :: exists s :: s in sent && s.frame == f
  {
    if sent != [] {
      OntoFrames(sent[1..], dst);
      forall f | f in Onto(sent, dst) ensures exists s :: s in sent && s.frame == f {
        if f in Onto(sent[1..], dst) {
          var s :| s in sent[1..] && s.frame == f;
          assert s in sent;
        } else {
          assert sent[0] in sent;
        }
      }
    }
  }

  lemma {:induction false} OutputWellFormed(hello: HelloDecoder, h: Hub, events: seq<HubEvent>)
    ensures forall s | s in Output(hello, h, events) :: WellFormed(s.frame)
    decreases |events|
  {
    if events != [] {
      var e := events[0];
      OutputWellFormed(hello, Step(hello, h, e).0, events[1..]);
      if e.Bytes? && e.link in h.links {
        var p := Parse(h.links[e.link].buffer + e.bytes);
        ParseWellFormed(h.links[e.link].buffer + e.bytes);
        RouteAllSources(hello, h.outbound, h.inbound, e.link, h.links[e.link].outbound, p.frames);
      }
      hide Parse, RouteAll, WellFormed;
    }
  }

  lemma {:induction false} EmptyIsPartial()
    ensures Partial([])
  {
    var hdr := Header(0, 0, 0, 0, 0, 0, 0);
    FrameIntact(hdr, []);
    assert WellFormed(Frame(hdr, [])) && |Frame(hdr, [])| > 0 && Frame(hdr, [])[..0] == [];
  }

  /** A framer at the far end of a link cuts it into the very frames sent there. */
  lemma {:induction false} NextHopSees(hello: HelloDecoder, h: Hub, events: seq<HubEvent>, dst: Link)
    ensures var frames := Onto(Output(hello, h, events), dst);
            Parse(Flat(frames)) == Parsed(frames, [], false)
  {
    var frames := Onto(Output(hello, h, events), dst);
    OutputWellFormed(hello, h, events);
    OntoFrames(Output(hello, h, events), dst);
    EmptyIsPartial();
    ParseFlat(frames, []);
    assert Flat(frames) + [] == Flat(frames);
  }

  // ---- The way back ----

  /** What decides the way back: announcements on Inport links, and swept links. */
  datatype Note = Heard(link: Link, ingress: u32) | Swept(link: Link)

  /** The latest link that announced or carried this ingress id, unless it was
      swept since. */
  function Latest(log: seq<Note>, ingress: u32): Option<Link> {
    if log == [] then None
    else
      var before := Latest(log[..|log| - 1], ingress);
      match log[|log| - 1]
      case Heard(link, i) => if i == ingress then Some(link) else before
      case Swept(link) => if before == Some(link) then None else before
  }

  /** What one frame from an Inport tells: a hello of version 2 announces the ingress id
      in it, a session frame carries the one in its header, the others tell nothing. */
  function HeardIn(hello: HelloDecoder, src: Link, frame: seq<u8>): seq<Note>
    requires WellFormed(frame)
  {
    var h := HdrOf(frame);
    if h.flags & 0x20 != 0 then
      match hello(PayloadOf(frame))
      case Some(greeting) => if greeting.version == 2 then [Heard(src, greeting.ingress)] else []
      case None => []
    else if h.flags & 0x38 == 0 then [Heard(src, h.ingress)]
    else []
  }

  lemma {:induction false} HeardIsAnnounced(hello: HelloDecoder, src: Link, frame: seq<u8>)
    requires WellFormed(frame)
    ensures HeardIn(hello, src, frame)
            == match Announced(hello, frame) case Some(i) => [Heard(src, i)] case None => []
  {
    SessionIff(frame);
    ControlFlags(HdrOf(frame).flags);
    hide IsSession;
  }

  function NotesOf(hello: HelloDecoder, src: Link, frames: seq<seq<u8>>): seq<Note>
    requires AllWellFormed(frames)
  {
    if frames == [] then []
    else
      var n := |frames| - 1;
      NotesOf(hello, src, frames[..n]) + HeardIn(hello, src, frames[n])
  }

  ghost function Notes(hello: HelloDecoder, h: Hub, e: HubEvent): seq<Note> {
    match e
    case Bytes(link, bytes) =>
      if link in h.links && !h.links[link].outbound then
        ParseWellFormed(h.links[link].buffer + bytes);
        NotesOf(hello, link, Parse(h.links[link].buffer + bytes).frames)
      else []
    case CloseTask(link) => if link in h.links then [Swept(link)] else []
    case _ => []
  }

  ghost function Log(hello: HelloDecoder, h: Hub, events: seq<HubEvent>): seq<Note> {
    if events == [] then []
    else
      var init, e := events[..|events| - 1], events[|events| - 1];
      Log(hello, h, init) + Notes(hello, Run(hello, h, init), e)
  }

  /** The inbound table holds, for each ingress id, the latest such link. */
  ghost predicate Follows(inbound: map<u32, Link>, log: seq<Note>) {
    forall i: u32 :: Latest(log, i) == if i in inbound then Some(inbound[i]) else None
  }

  lemma {:induction false} RouteAllFollows(hello: HelloDecoder, outbound: map<u32, Link>, inbound: map<u32, Link>,
                                           src: Link,
                                           frames: seq<seq<u8>>, log: seq<Note>)
    requires AllWellFormed(frames) && Follows(inbound, log)
    ensures Follows(RouteAll(hello, outbound, inbound, src, false, frames).0, log + NotesOf(hello, src, frames))
  {
    if frames == [] {
      assert log + [] == log;
    } else {
      var n := |frames| - 1;
      RouteAllFollows(hello, outbound, inbound, src, frames[..n], log);
      var notes := log + NotesOf(hello, src, frames[..n]);
      HeardIsAnnounced(hello, src, frames[n]);
      hide HeardIn, Announced;
      match Announced(hello, frames[n])
      case None => assert log + NotesOf(hello, src, frames) == notes;
      case Some(i) =>
        assert log + NotesOf(hello, src, frames) == notes + [Heard(src, i)];
        assert (notes + [Heard(src, i)])[..|notes|] == notes;
    }
  }

  lemma {:induction false} StepFollows(hello: HelloDecoder, h: Hub, e: HubEvent, log: seq<Note>)
    requires Follows(h.inbound, log)
    ensures Follows(Step(hello, h, e).0.inbound, log + Notes(hello, h, e))
  {
    match e
    case Bytes(link, bytes) =>
      if link in h.links {
        var p := Parse(h.links[link].buffer + bytes);
        ParseWellFormed(h.links[link].buffer + bytes);
        RouteAllInbound(hello, h.outbound, h.inbound, link, h.links[link].outbound, p.frames);
        RouteAllFollows(hello, h.outbound, h.inbound, link, p.frames, log);
      }
      hide RouteAll, Parse, NotesOf, Latest;
      assert log + [] == log;
    case CloseTask(link) =>
      assert (log + [Swept(link)])[..|log|] == log;
      assert log + [] == log;
    case _ => assert log + [] == log;
  }

  lemma {:induction false} InboundIsLatest(hello: HelloDecoder, h: Hub, events: seq<HubEvent>)
    requires h.inbound == map[]
    ensures Follows(Run(hello, h, events).inbound, Log(hello, h, events))
  {
    if events != [] {
      InboundIsLatest(hello, h, events[..|events| - 1]);
      StepFollows(hello, Run(hello, h, events[..|events| - 1]), events[|events| - 1],
                  Log(hello, h, events[..|events| - 1]));
    }
  }

  /** The frames that belong to an ingress id whose latest link is dst. */
  function Back(frames: seq<seq<u8>>, log: seq<Note>, dst: Link): seq<seq<u8>>
    requires AllWellFormed(frames)
  {
    if frames == [] then []
    else
      var n := |frames| - 1;
      Back(frames[..n], log, dst)
      + (if HdrOf(frames[n]).flags & 0x38 == 0 && Latest(log, HdrOf(frames[n]).ingress) == Some(dst) then [frames[n]]
         else [])
  }

  lemma {:induction false} RouteAllBack(hello: HelloDecoder, outbound: map<u32, Link>, inbound: map<u32, Link>,
                                        src: Link,
                                        frames: seq<seq<u8>>, log: seq<Note>, dst: Link)
    requires AllWellFormed(frames) && Follows(inbound, log)
    ensures Between(RouteAll(hello, outbound, inbound, src, true, frames).1, src, dst) == Back(frames, log, dst)
  {
    if frames != [] {
      var n := |frames| - 1;
      RouteAllBack(hello, outbound, inbound, src, frames[..n], log, dst);
      RouteAllInbound(hello, outbound, inbound, src, true, frames[..n]);
      var (table, sent) := RouteAll(hello, outbound, inbound, src, true, frames[..n]);
      var last := Forward(src, Target(outbound, table, true, frames[n]), frames[n]);
      BetweenAppend(sent, last, src, dst);
      SessionIff(frames[n]);
      hide IsSession, Latest;
      assert |last| == 1 ==> last[..0] == [];
    }
  }

  /** Whatever an Outport link completes goes, byte for byte and in order, to the
      latest link that announced or carried the frame's ingress id. */
  lemma {:induction false} ReverseGoesToLatest(hello: HelloDecoder, h: Hub, events: seq<HubEvent>, src: Link,
                                               bytes: seq<u8>, dst: Link)
    requires h.inbound == map[]
    requires var d := Run(hello, h, events); src in d.links && d.links[src].outbound
    ensures var d := Run(hello, h, events);
            var frames := Parse(d.links[src].buffer + bytes).frames;
            AllWellFormed(frames)
            && Between(Step(hello, d, Bytes(src, bytes)).1, src, dst) == Back(frames, Log(hello, h, events), dst)
  {
    var d := Run(hello, h, events);
    InboundIsLatest(hello, h, events);
    ParseWellFormed(d.links[src].buffer + bytes);
    RouteAllBack(hello, d.outbound, d.inbound, src, Parse(d.links[src].buffer + bytes).frames, Log(hello, h, events),
                 dst);
  }

  // ---- There and back ----

  /** Nothing in the run disputes that ingress id i is at src: src is not swept, and no
      other Inport link announces or carries i. */
  ghost predicate Undisputed(hello: HelloDecoder, h: Hub, events: seq<HubEvent>, src: Link, i: u32)
    decreases |events|
  {
    events == []
    || (events[0] != CloseTask(src)
        && (forall n | n in Notes(hello, h, events[0]) && n.Heard? && n.ingress == i :: n.link == src)
        && Undisputed(hello, Step(hello, h, events[0]).0, events[1..], src, i))
  }

  ghost predicate RoutesTo(inbound: map<u32, Link>, i: u32, src: Link) { i in inbound && inbound[i] == src }

  lemma {:induction false} RouteAllKeeps(hello: HelloDecoder, outbound: map<u32, Link>, inbound: map<u32, Link>,
                                         link: Link, frames: seq<seq<u8>>, i: u32, src: Link)
    requires AllWellFormed(frames) && RoutesTo(inbound, i, src)
    requires forall n | n in NotesOf(hello, link, frames) && n.Heard? && n.ingress == i :: n.link == src
    ensures RoutesTo(RouteAll(hello, outbound, inbound, link, false, frames).0, i, src)
  {
    if frames != [] {
      var n := |frames| - 1;
      var notes := NotesOf(hello, link, frames[..n]);
      assert forall x | x in notes :: x in NotesOf(hello, link, frames);
      assert forall x | x in HeardIn(hello, link, frames[n]) :: x in NotesOf(hello, link, frames);
      RouteAllKeeps(hello, outbound, inbound, link, frames[..n], i, src);
      HeardIsAnnounced(hello, link, frames[n]);
      hide HeardIn, Announced, Target;
      match Announced(hello, frames[n])
      case Some(j) => assert Heard(link, j) in HeardIn(hello, link, frames[n]);
      case None =>
    }
  }

  lemma {:induction false} StepRoutes(hello: HelloDecoder, h: Hub, e: HubEvent, src: Link, i: u32)
    requires RoutesTo(h.inbound, i, src) && Undisputed(hello, h, [e], src, i)
    ensures RoutesTo(Step(hello, h, e).0.inbound, i, src)
  {
    match e
    case Bytes(link, bytes) =>
      if link in h.links {
        var p := Parse(h.links[link].buffer + bytes);
        ParseWellFormed(h.links[link].buffer + bytes);
        if h.links[link].outbound {
          RouteAllInbound(hello, h.outbound, h.inbound, link, true, p.frames);
        } else {
          RouteAllKeeps(hello, h.outbound, h.inbound, link, p.frames, i, src);
        }
      }
      hide RouteAll, Parse, NotesOf;
    case _ =>
  }

  lemma {:induction false} RunRoutes(hello: HelloDecoder, h: Hub, events: seq<HubEvent>, src: Link, i: u32)
    requires RoutesTo(h.inbound, i, src) && Undisputed(hello, h, events, src, i)
    ensures RoutesTo(Continued(hello, h, events).inbound, i, src)
    decreases |events|
  {
    if events != [] {
      assert Undisputed(hello, h, [events[0]], src, i);
      StepRoutes(hello, h, events[0], src, i);
      hide Step, Notes;
      RunRoutes(hello, Step(hello, h, events[0]).0, events[1..], src, i);
    }
  }

  ghost function Continued(hello: HelloDecoder, h: Hub, events: seq<HubEvent>): Hub
    decreases |events|
  {
    if events == [] then h else Continued(hello, Step(hello, h, events[0]).0, events[1..])
  }

  lemma {:induction false} OneFrame(frame: seq<u8>)
    requires WellFormed(frame)
    ensures Parse(frame) == Parsed([frame], [], false)
  {
    EmptyIsPartial();
    ParseFlat([frame], []);
    assert Flat([frame]) + [] == frame;
  }

  /** One whole frame on a link that is between frames. */
  lemma {:induction false} OneFrameRouted(hello: HelloDecoder, h: Hub, link: Link, frame: seq<u8>)
    requires WellFormed(frame) && link in h.links && h.links[link].buffer == []
    ensures var (d, sent) := Step(hello, h, Bytes(link, frame));
            var out := h.links[link].outbound;
            && d.inbound == Learn(hello, h.inbound, link, out, frame)
            && sent == Forward(link, Target(h.outbound, Learn(hello, h.inbound, link, out, frame), out, frame), frame)
  {
    OneFrame(frame);
    assert [] + frame == frame && [frame][..0] == [];
    var out := h.links[link].outbound;
    hide Parse, WellFormed, Target, Learn, Forward;
    assert RouteAll(hello, h.outbound, h.inbound, link, out, []) == (h.inbound, []);
    var sent := Forward(link, Target(h.outbound, Learn(hello, h.inbound, link, out, frame), out, frame), frame);
    assert [] + sent == sent;
  }

  lemma {:induction false} CarriedIsLearnt(hello: HelloDecoder, h: Hub, src: Link, request: seq<u8>)
    requires WellFormed(request) && HdrOf(request).flags & 0x38 == 0
    requires src in h.links && h.links[src] == Port(false, [])
    ensures RoutesTo(Step(hello, h, Bytes(src, request)).0.inbound, HdrOf(request).ingress, src)
  {
    OneFrameRouted(hello, h, src, request);
    SessionIff(request);
    ControlFlags(HdrOf(request).flags);
    hide Step, WellFormed, Target;
  }

  lemma {:induction false} ReplyIsRouted(hello: HelloDecoder, h: Hub, back: Link, reply: seq<u8>, src: Link)
    requires WellFormed(reply) && HdrOf(reply).flags & 0x38 == 0
    requires back in h.links && h.links[back] == Port(true, []) && RoutesTo(h.inbound, HdrOf(reply).ingress, src)
    ensures Step(hello, h, Bytes(back, reply)).1 == [Forwarded(back, src, reply)]
  {
    OneFrameRouted(hello, h, back, reply);
    SessionIff(reply);
    hide Step, WellFormed, IsSession;
  }

  /** There and back: once an Inport link has carried a session frame, a session frame
      with the same ingress id that comes in from an Outport is sent on that link, and on
      no other, however much happens in between, unless that disputes the route. */
  lemma {:induction false} ReplyReturns(hello: HelloDecoder, h: Hub, src: Link, request: seq<u8>,
                                        between: seq<HubEvent>, back: Link, reply: seq<u8>)
    requires WellFormed(request) && WellFormed(reply) && HdrOf(request).ingress == HdrOf(reply).ingress
    requires HdrOf(request).flags & 0x38 == 0 && HdrOf(reply).flags & 0x38 == 0
    requires src in h.links && h.links[src] == Port(false, [])
    requires var d := Step(hello, h, Bytes(src, request)).0;
             Undisputed(hello, d, between, src, HdrOf(request).ingress)
             && back in Continued(hello, d, between).links
             && Continued(hello, d, between).links[back] == Port(true, [])
    ensures var d := Continued(hello, Step(hello, h, Bytes(src, request)).0, between);
            Step(hello, d, Bytes(back, reply)).1 == [Forwarded(back, src, reply)]
  {
    var d := Step(hello, h, Bytes(src, request)).0;
    hide *;
    CarriedIsLearnt(hello, h, src, request);
    RunRoutes(hello, d, between, src, HdrOf(request).ingress);
    ReplyIsRouted(hello, Continued(hello, d, between), back, reply, src);
  }

  /** The way there: a session frame for an outport goes to its link, and on no other. */
  lemma {:induction false} RequestIsRouted(hello: HelloDecoder, h: Hub, src: Link, request: seq<u8>, dst: Link)
    requires WellFormed(request) && HdrOf(request).flags & 0x38 == 0
    requires src in h.links && h.links[src] == Port(false, []) && RoutesTo(h.outbound, HdrOf(request).outport, dst)
    ensures Step(hello, h, Bytes(src, request)).1 == [Forwarded(src, dst, request)]
  {
    OneFrameRouted(hello, h, src, request);
    SessionIff(request);
    hide Step, WellFormed, IsSession, Learn;
  }

  /** Hello, heartbeat and feedback frames stop at the transit. */
  lemma {:induction false} ControlStops(hello: HelloDecoder, h: Hub, src: Link, frame: seq<u8>)
    requires WellFormed(frame) && HdrOf(frame).flags & 0x38 != 0
    requires src in h.links && h.links[src].buffer == []
    ensures Step(hello, h, Bytes(src, frame)).1 == []
  {
    OneFrameRouted(hello, h, src, frame);
    SessionIff(frame);
    hide Step, WellFormed, IsSession, Learn;
  }
}
