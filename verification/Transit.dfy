/** The middle hop as an object: its tables, its pending timers, and the operations
    that update them in place. */
module Transit {
  import opened Words
  import opened Segment
  import opened Feedback
  import opened Framing
  import opened StreamSpec
  import opened TransitSpec
  import opened TransitRuns
  import Race

  /** A dial that fails at once differs from one that does not by its redial. */
  lemma {:induction false} DialFails(h: Hub, outport: u32)
    ensures var d := DialOne(h, outport, true);
            && d == h.(links := d.links, outbound := d.outbound, next := d.next)
            && DialOne(h, outport, false) == d.(failed := h.failed + {h.next}, redials := h.redials + multiset{outport})
  {}

  class TransitService {
    var links: map<Link, Port>
    var outbound: map<u32, Link>
    var inbound: map<u32, Link>
    var next: Link
    var closing: multiset<Link>
    var redials: multiset<u32>
    ghost var failed: set<Link>
    ghost var closed: set<Link>
    ghost var swept: set<Link>

    ghost function State(): Hub
      reads this
    {
      Hub(links, outbound, inbound, next, failed, closed, swept, closing, redials)
    }

    constructor ()
      ensures State() == EMPTY
    {
      links, outbound, inbound, next := map[], map[], map[], 0;
      failed, closed, swept, closing, redials := {}, {}, {}, multiset{}, multiset{};
    }

    /** start(): one dial for each configured outport. */
    method DialOutports(outports: seq<u32>, connected: seq<bool>)
      requires |outports| == |connected|
      modifies this
      ensures State() == Started(old(State()), outports, connected)
    {
      for i := 0 to |outports|
        invariant State() == Started(old(State()), outports[..i], connected[..i])
      {
        DialOneOutport(outports[i], connected[i]);
        assert outports[..i + 1][..i] == outports[..i] && connected[..i + 1][..i] == connected[..i];
      }
      assert outports[..|outports|] == outports && connected[..|outports|] == connected;
    }

    /** Registers a fresh link for an outport in place of the one it had. */
    method Replace(outport: u32) returns (link: Link)
      modifies this`links, this`outbound, this`next
      ensures link == old(next)
      ensures var d := DialOne(old(State()), outport, true);
              links == d.links && outbound == d.outbound && next == d.next
    {
      link := next;
      next := next + 1;
      if outport in outbound {
        links := links - {outbound[outport]};
      }
      links := links[link := Port(true, [])];
      outbound := outbound[outport := link];
    }

    /** connected is the outcome of connect(). */
    method DialOneOutport(outport: u32, connected: bool)
      modifies this
      ensures State() == DialOne(old(State()), outport, connected)
    {
      DialFails(State(), outport);
      hide DialOne;
      var link := Replace(outport);
      if !connected {
        failed := failed + {link};
        ScheduleOutportRedial(outport);
      }
    }

    method ScheduleOutportRedial(outport: u32)
      modifies this`redials
      ensures redials == old(redials) + multiset{outport}
    {
      redials := redials + multiset{outport};
    }

    method RunRedial(outport: u32, connected: bool)
      requires outport in redials
      modifies this
      ensures State() == Step(_ => None, old(State()), Redial(outport, connected)).0
    {
      redials := redials - multiset{outport};
      DialOneOutport(outport, connected);
    }

    method MakeInboundChannel() returns (link: Link)
      modifies this
      ensures State() == Step(_ => None, old(State()), Accept).0
      ensures link == old(next) && link in links
    {
      link := next;
      next := next + 1;
      links := links[link := Port(false, [])];
    }

    /** What one whole frame does: the hop-local ones stop here. */
    method RouteFrame(hello: HelloDecoder, src: Link, fromOutport: bool, frame: seq<u8>) returns (sent: seq<Forwarded>)
      requires WellFormed(frame)
      modifies this`inbound
      ensures inbound == Learn(hello, old(inbound), src, fromOutport, frame)
      ensures sent == Forward(src, Target(outbound, inbound, fromOutport, frame), frame)
    {
      sent := [];
      var h := HdrOf(frame);
      if Has(h.flags, FLAG_HELLO) {
        if !fromOutport {
          match hello(PayloadOf(frame)) {
            case Some(greeting) =>
              if greeting.version == PROTO_VERSION {
                inbound := inbound[greeting.ingress := src];
              }
            case None =>
          }
        }
      } else if Has(h.flags, FLAG_HEARTBEAT) || Has(h.flags, FLAG_ACK) {
      } else if !fromOutport {
        inbound := inbound[h.ingress := src];
        if h.outport in outbound {
          sent := [Forwarded(src, outbound[h.outport], frame)];
        }
      } else {
        if h.ingress in inbound {
          sent := [Forwarded(src, inbound[h.ingress], frame)];
        }
      }
    }

    /** Cuts buf into whole frames and routes each; rest is what stays buffered. */
    method RouteBuffer(hello: HelloDecoder, src: Link, fromOutport: bool, buf: seq<u8>) returns (rest: seq<u8>,
                       sent: seq<Forwarded>)
      modifies this`inbound
      ensures rest == Parse(buf).rest && AllWellFormed(Parse(buf).frames)
      ensures (inbound, sent) == RouteAll(hello, outbound, old(inbound), src, fromOutport, Parse(buf).frames)
    {
      sent := [];
      var pos := 0;
      ghost var done: seq<seq<u8>> := [];
      FramingStart(buf);
      var found := NextFrame(buf);
      hide FindFrame, Parse, Tail, Cut, Learn, Target, WellFormed;
      while found.Whole?
        invariant 0 <= pos <= |buf| && AllWellFormed(done) && Parse(buf) == After(done, Parse(Tail(buf, pos)))
        invariant found == FindFrame(Tail(buf, pos))
        invariant (inbound, sent) == RouteAll(hello, outbound, old(inbound), src, fromOutport, done)
        decreases |buf| - pos
      {
        FramingRound(buf, pos, done);
        var frame := Cut(buf, pos, found.size);
        var forwarded := RouteFrame(hello, src, fromOutport, frame);
        assert (done + [frame])[..|done|] == done;
        done := done + [frame];
        sent := sent + forwarded;
        pos := pos + found.size;
        found := NextFrame(Tail(buf, pos));
      }
      FramingRound(buf, pos, done);
      rest := if found.Bad? then [] else Tail(buf, pos);
    }

    method OnLinkBytes(hello: HelloDecoder, link: Link, bytes: seq<u8>) returns (sent: seq<Forwarded>)
      modifies this
      ensures (State(), sent) == OnBytes(hello, old(State()), link, bytes)
    {
      if link !in links { return []; }
      var port := links[link];
      var rest;
      hide Parse, RouteAll;
      rest, sent := RouteBuffer(hello, link, port.outbound, port.buffer + bytes);
      links := links[link := port.(buffer := rest)];
    }

    /** The close task may only run after the callback has returned. */
    method OnLinkClosed(link: Link)
      modifies this
      ensures State() == Step(_ => None, old(State()), Closed(link)).0
    {
      closing := closing + multiset{link};
      closed := closed + {link};
    }

    /** Erases every entry of the link; last is the greatest id it had. */
    static method Erase(table: map<u32, Link>, link: Link) returns (erased: map<u32, Link>, last: Option<u32>)
      ensures erased == Without(table, link)
      ensures last == if Served(table, link) == {} then None else Some(Greatest(Served(table, link)))
    {
      erased := table;
      last := None;
      var todo := table.Keys;
      while todo != {}
        invariant todo <= table.Keys
        invariant forall j, k | j in table.Keys - todo && k in todo :: j < k
        invariant erased == map k | k in table && (k in todo || table[k] != link) :: table[k]
        invariant last.None? ==> Served(table, link) <= todo
        invariant last.Some? ==> IsGreatest(Served(table, link) - todo, last.value)
        decreases todo
      {
        ghost var least := Race.LeastExists(todo);
        var k :| k in todo && forall j | j in todo :: k <= j;
        ghost var before := Served(table, link) - todo;
        assert table.Keys - (todo - {k}) == (table.Keys - todo) + {k};
        assert forall j | j in before :: j in table.Keys - todo;
        if table[k] == link {
          assert Served(table, link) - (todo - {k}) == before + {k};
          erased := erased - {k};
          last := Some(k);
        } else {
          assert Served(table, link) - (todo - {k}) == before;
        }
        todo := todo - {k};
      }
      assert Served(table, link) - {} == Served(table, link);
    }

    /** Takes a registered link out of every table. */
    method Unregister(link: Link) returns (last: Option<u32>)
      requires link in links
      modifies this`links, this`outbound, this`inbound
      ensures links == old(links) - {link}
      ensures outbound == Without(old(outbound), link) && inbound == Without(old(inbound), link)
      ensures last == if Served(old(outbound), link) == {} then None else Some(Greatest(Served(old(outbound), link)))
    {
      hide Without, Served;
      var gone;
      outbound, last := Erase(outbound, link);
      inbound, gone := Erase(inbound, link);
      links := links - {link};
    }

    method RunCloseTask(link: Link)
      requires link in closing
      modifies this
      ensures State() == Step(_ => None, old(State()), CloseTask(link)).0
    {
      hide Without, Served;
      closing := closing - multiset{link};
      swept := swept + {link};
      if link in links {
        var wasOutbound := links[link].outbound;
        var last := Unregister(link);
        if wasOutbound && last.Some? {
          ScheduleOutportRedial(last.value);
        }
      }
    }
  }
}
