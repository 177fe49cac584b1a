/** The SOCKS5 session as an object: its state and buffer, changed in place by the
    client's bytes, the target's connection and close. */
module RelaySession {
  import opened Words
  import opened Socks

  class FgwRelaySession {
    const dial: Dialer
    var phase: Phase
    var buffer: seq<u8>
    var remote: bool
    var target: string
    var toPeer: seq<u8>
    var toTarget: seq<u8>
    ghost var consumed: seq<u8>
    ghost var farewells: nat

    ghost function State(): Relay
      reads this
    {
      Relay(phase, buffer, remote, target, consumed, toPeer, toTarget, farewells)
    }

    constructor (dial: Dialer)
      ensures State() == FRESH && this.dial == dial
    {
      this.dial := dial;
      phase, buffer, remote, target := AwaitMethods, [], false, "";
      toPeer, toTarget, consumed, farewells := [], [], [], 0;
    }

    method FeedRx(bytes: seq<u8>)
      modifies this
      ensures State() == Feed(dial, old(State()), bytes)
    {
      buffer := buffer + bytes;
      ghost var start := State();
      var going := true;
      hide Methods, Requests;
      while going
        invariant Advance(dial, State()) == Advance(dial, start)
        invariant !going ==> Advance(dial, State()) == State()
        decreases going, match phase case AwaitMethods => 2 case AwaitRequest => 1 case _ => 0
      {
        match phase
        case AwaitMethods =>
          var ret := TryParseMethods();
          going := ret > 0;
        case AwaitRequest =>
          var ret := TryParseRequest();
          going := ret > 0;
        case Relaying =>
          Flush();
          going := false;
        case _ =>
          going := false;
      }
    }

    /** Everything buffered goes to the target, if there still is one. */
    method Flush()
      modifies this`buffer, this`toTarget
      ensures State() == Write(old(State()))
    {
      var data := buffer;
      buffer := [];
      if remote { toTarget := toTarget + data; }
    }

    /** Positive: the greeting was read; 0: more input is needed; negative: refused. */
    method TryParseMethods() returns (ret: int)
      requires phase == AwaitMethods
      modifies this
      ensures State() == Methods(old(State()))
      ensures if ret > 0 then phase == AwaitRequest else if ret == 0 then State() == old(State()) else phase == Closed
    {
      if |buffer| < 2 { return 0; }
      if buffer[0] != VERSION {
        var closed := CloseNow();
        return -1;
      }
      var size := GreetingSize(buffer);
      if |buffer| < size { return 0; }
      consumed := consumed + buffer[..size];
      buffer := buffer[size..];
      SendToPeer([VERSION, NO_AUTH]);
      phase := AwaitRequest;
      ret := size;
    }

    /** The sixteen bytes of an IPv6 address as text, two at a time. */
    static method FormatV6(p: seq<u8>) returns (ip: string)
      requires |p| == 16
      ensures ip == Colons(p)
    {
      ip := "";
      var i := 0;
      ColonsStart(p);
      hide ColonsSoFar, ColonsPair, Colons;
      while i < |p|
        invariant i <= |p| && ColonsSoFar(p, i, ip)
      {
        ColonsNext(p, i, ip);
        var pair := ColonsPair(p, i);
        var next := i + 2;
        ip, i := ip + pair, next;
      }
      ColonsEnd(p, ip);
    }

    method ReadRequest() returns (r: Parsed)
      ensures r == ParseRequest(buffer)
    {
      if |buffer| < 5 { return Incomplete; }
      if buffer[0] != VERSION { return BadVersion; }
      var command, kind := buffer[1], buffer[3];
      if kind == ATYP_IPV4 {
        if |buffer| < 10 { return Incomplete; }
        return Request(10, command, Dotted(buffer[4..8]), Be16(buffer[8..10]));
      } else if kind == ATYP_DOMAIN {
        var n: nat := buffer[4];
        if |buffer| < 7 + n { return Incomplete; }
        return Request(7 + n, command, Text(buffer[5..5 + n]), Be16(buffer[5 + n..7 + n]));
      } else if kind == ATYP_IPV6 {
        if |buffer| < 22 { return Incomplete; }
        var ip := FormatV6(buffer[4..20]);
        return Request(22, command, ip, Be16(buffer[20..22]));
      } else {
        return BadType;
      }
    }

    /** Positive: the request was read and dialed; 0: more input is needed; negative: refused. */
    method TryParseRequest() returns (ret: int)
      requires phase == AwaitRequest
      modifies this
      ensures State() == Requests(dial, old(State()))
      ensures if ret > 0 then phase in {Connecting, Closed} else if ret == 0 then State() == old(State())
              else phase == Closed
    {
      var r := ReadRequest();
      ParseFits(buffer);
      hide ParseRequest;
      match r
      case Incomplete => ret := 0;
      case BadVersion =>
        var closed := CloseNow();
        ret := -1;
      case BadType =>
        WriteReply(REP_CMDNOTSUP);
        var closed := CloseNow();
        ret := -1;
      case Request(size, command, host, port) =>
        consumed := consumed + buffer[..size];
        buffer := buffer[size..];
        if command != CONNECT {
          WriteReply(REP_CMDNOTSUP);
          var closed := CloseNow();
          ret := -1;
        } else {
          target := Target(host, port);
          phase := Connecting;
          StartConnect(host, port);
          ret := size;
        }
    }

    method StartConnect(host: string, port: u16)
      modifies this`remote, this`phase, this`toPeer, this`farewells
      ensures State() == if dial(host, port) then old(State()).(remote := true)
                         else Close(Say(old(State()).(remote := true), Reply(REP_HOSTUNREACH)))
    {
      remote := true;
      if !dial(host, port) {
        WriteReply(REP_HOSTUNREACH);
        var closed := CloseNow();
      }
    }

    method SendToPeer(bytes: seq<u8>)
      modifies this`toPeer
      ensures State() == Say(old(State()), bytes)
    {
      toPeer := toPeer + bytes;
    }

    method WriteReply(code: u8)
      modifies this`toPeer
      ensures State() == Say(old(State()), Reply(code))
    {
      SendToPeer([VERSION, code, 0, ATYP_IPV4, 0, 0, 0, 0, 0, 0]);
    }

    /** The target's connection is up: what came in meanwhile is flushed. */
    method OnRemoteOpen()
      requires phase == Connecting && remote
      modifies this
      ensures State() == OnOpen(old(State()))
    {
      WriteReply(REP_OK);
      phase := Relaying;
      Flush();
    }

    method OnRemoteBytes(bytes: seq<u8>)
      modifies this`toPeer
      ensures State() == Say(old(State()), bytes)
    {
      SendToPeer(bytes);
    }

    /** close(), also when the target or the stream closes. Only the first one drops the
        target and calls closeSession and removeSession: farewell says that it did. */
    method CloseNow() returns (farewell: bool)
      modifies this`phase, this`remote, this`farewells
      ensures State() == Close(old(State())) && phase == Closed && (farewell ==> !remote)
      ensures farewell == (old(phase) != Closed) && farewells == old(farewells) + if farewell then 1 else 0
    {
      farewell := phase != Closed;
      if farewell {
        phase := Closed;
        remote := false;
        farewells := farewells + 1;
      }
    }
  }
}
