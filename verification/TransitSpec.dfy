/** The middle hop: whole frames from one link to another by two routing tables,
    and the tables' upkeep by deferred close tasks and redials. */
module TransitSpec {
  import opened Words
  import opened Segment
  import opened Framing
  import opened Feedback
  import opened StreamSpec

  datatype Port = Port(outbound: bool, buffer: seq<u8>)

  /** The service with its pending timers. failed: the dial failed at once.
      closed: the closed callback has fired. swept: so has its close task. */
  datatype Hub = Hub(
    links: map<Link, Port>, outbound: map<u32, Link>, inbound: map<u32, Link>, next: Link,
    failed: set<Link>, closed: set<Link>, swept: set<Link>, closing: multiset<Link>, redials: multiset<u32>)

  const EMPTY := Hub(map[], map[], map[], 0, {}, {}, {}, multiset{}, multiset{})

  datatype Forwarded = Forwarded(src: Link, dst: Link, frame: seq<u8>)

  type HelloDecoder = seq<u8> -> Option<Hello>

  predicate IsControl(frame: seq<u8>)
    requires WellFormed(frame)
  {
    !IsSession(frame)
  }

  /** The ingress id that a frame from an Inport announces, if any. */
  function Announced(hello: HelloDecoder, frame: seq<u8>): Option<u32>
    requires WellFormed(frame)
  {
    if Has(HdrOf(frame).flags, FLAG_HELLO) then
      match hello(PayloadOf(frame))
      case Some(h) => if h.version == PROTO_VERSION then Some(h.ingress) else None
      case None => None
    else if IsSession(frame) then Some(HdrOf(frame).ingress)
    else None
  }

  function Learn(hello: HelloDecoder, inbound: map<u32, Link>, src: Link, fromOutport: bool,
                 frame: seq<u8>): map<u32, Link>
    requires WellFormed(frame)
  {
    if fromOutport then inbound
    else
      match Announced(hello, frame)
      case Some(ingress) => inbound[ingress := src]
      case None => inbound
  }

  /** Where a frame goes: by outport id from an Inport, by ingress id from an Outport. */
  function Target(outbound: map<u32, Link>, inbound: map<u32, Link>, fromOutport: bool, frame: seq<u8>): Option<Link>
    requires WellFormed(frame)
  {
    var h := HdrOf(frame);
    if IsControl(frame) then None
    else if fromOutport then (if h.ingress in inbound then Some(inbound[h.ingress]) else None)
    else if h.outport in outbound then Some(outbound[h.outport])
    else None
  }

  function Forward(src: Link, target: Option<Link>, frame: seq<u8>): seq<Forwarded> {
    match target case Some(dst) => [Forwarded(src, dst, frame)] case None => []
  }

  /** The frames of one round of onLinkBytes: the inbound table, and what is sent. */
  function RouteAll(hello: HelloDecoder, outbound: map<u32, Link>, inbound: map<u32, Link>, src: Link,
                    fromOutport: bool,
                    frames: seq<seq<u8>>): (map<u32, Link>, seq<Forwarded>)
    requires AllWellFormed(frames)
  {
    if frames == [] then (inbound, [])
    else
      var n := |frames| - 1;
      var (table, sent) := RouteAll(hello, outbound, inbound, src, fromOutport, frames[..n]);
      (Learn(hello, table, src, fromOutport, frames[n]),
       sent + Forward(src, Target(outbound, Learn(hello, table, src, fromOutport, frames[n]), fromOutport, frames[n]),
                      frames[n]))
  }

  datatype HubEvent =
    | Bytes(link: Link, bytes: seq<u8>)
    | Accept
    | Dial(outport: u32, connected: bool)
    | Closed(link: Link)
    | CloseTask(link: Link)
    | Redial(outport: u32, connected: bool)

  function OnBytes(hello: HelloDecoder, h: Hub, link: Link, bytes: seq<u8>): (Hub, seq<Forwarded>) {
    if link !in h.links then (h, [])
    else
      var port := h.links[link];
      var p := Parse(port.buffer + bytes);
      ParseWellFormed(port.buffer + bytes);
      var (table, sent) := RouteAll(hello, h.outbound, h.inbound, link, port.outbound, p.frames);
      (h.(inbound := table, links := h.links[link := port.(buffer := p.rest)]), sent)
  }

  /** A fresh link for an outport replaces the one it had. */
  function DialOne(h: Hub, outport: u32, connected: bool): Hub {
    var kept := if outport in h.outbound then h.links - {h.outbound[outport]} else h.links;
    h.(links := kept[h.next := Port(true, [])], outbound := h.outbound[outport := h.next], next := h.next + 1,
       failed := if connected then h.failed else h.failed + {h.next},
       redials := if connected then h.redials else h.redials + multiset{outport})
  }

  function Without(table: map<u32, Link>, link: Link): map<u32, Link> {
    map k | k in table && table[k] != link :: table[k]
  }

  /** The outports that a link serves. */
  function Served(table: map<u32, Link>, link: Link): set<u32> { set k | k in table && table[k] == link }

  /** The deferred half of onLinkClosed. The redial is for the last of the outports
      that the link served. */
  function Sweep(h: Hub, link: Link): Hub {
    var h' := h.(closing := h.closing - multiset{link}, swept := h.swept + {link});
    if link !in h.links then h'
    else
      var served := Served(h.outbound, link);
      h'.(links := h.links - {link}, outbound := Without(h.outbound, link), inbound := Without(h.inbound, link),
          redials := if h.links[link].outbound && served != {} then h.redials + multiset{Greatest(served)}
                     else h.redials)
  }

  ghost predicate IsGreatest(s: set<u32>, x: u32) { x in s && forall y | y in s :: y <= x }

  lemma {:induction false} GreatestExists(s: set<u32>) returns (x: u32)
    requires s != {}
    ensures IsGreatest(s, x)
  {
    var any :| any in s;
    x := any;
    if s - {any} != {} {
      var y := GreatestExists(s - {any});
      if y > any { x := y; }
    }
    assert forall y | y in s :: y == any || y in s - {any};
  }

  function Greatest(s: set<u32>): (x: u32)
    requires s != {}
    ensures IsGreatest(s, x)
  {
    ghost var w := GreatestWitness(s);
    var x: u32 :| x in s && forall y | y in s :: y <= x;
    x
  }

  ghost function GreatestWitness(s: set<u32>): (x: u32)
    requires s != {}
    ensures IsGreatest(s, x)
  {
    assert exists x: u32 :: IsGreatest(s, x) by { var x := GreatestExists(s); }
    var x: u32 :| IsGreatest(s, x);
    x
  }

  /** Tasks and timers run only when they are pending. */
  ghost predicate Enabled(h: Hub, e: HubEvent) {
    match e
    case Closed(link) => link < h.next
    case CloseTask(link) => link in h.closing
    case Redial(outport, _) => outport in h.redials
    case _ => true
  }

  function Step(hello: HelloDecoder, h: Hub, e: HubEvent): (Hub, seq<Forwarded>) {
    match e
    case Bytes(link, bytes) => OnBytes(hello, h, link, bytes)
    case Accept => (h.(links := h.links[h.next := Port(false, [])], next := h.next + 1), [])
    case Dial(outport, connected) => (DialOne(h, outport, connected), [])
    case Closed(link) => (h.(closing := h.closing + multiset{link}, closed := h.closed + {link}), [])
    case CloseTask(link) => (Sweep(h, link), [])
    case Redial(outport, connected) => (DialOne(h.(redials := h.redials - multiset{outport}), outport, connected), [])
  }
}
