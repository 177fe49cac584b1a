/** One SOCKS5 session at the Outport (sections 3 and 4 of RFC 1928): a state machine
    over an input that arrives in arbitrary pieces. */
module Socks {
  import opened Words

  const VERSION: u8 := 5
  const NO_AUTH: u8 := 0
  const CONNECT: u8 := 1
  const ATYP_IPV4: u8 := 1
  const ATYP_DOMAIN: u8 := 3
  const ATYP_IPV6: u8 := 4
  const REP_OK: u8 := 0
  const REP_HOSTUNREACH: u8 := 4
  const REP_CMDNOTSUP: u8 := 7

  datatype Phase = AwaitMethods | AwaitRequest | Connecting | Relaying | Closed

  /** consumed records the handshake bytes that were taken from the buffer, toPeer
      what went back to the client, toTarget what was written to the target, and
      farewells how often the stream was asked to close the session, and the Outport to
      forget it. */
  datatype Relay = Relay(phase: Phase, buffer: seq<u8>, remote: bool, target: string,
                         consumed: seq<u8>, toPeer: seq<u8>, toTarget: seq<u8>, farewells: nat)

  const FRESH := Relay(AwaitMethods, [], false, "", [], [], [], 0)

  /** Whether a connection attempt to this host and port can be started. */
  type Dialer = (string, u16) -> bool

  // ---- Text of an address ----

  function Digit(d: nat): char
    requires d < 16
  {
    "0123456789abcdef"[d]
  }

  function Decimal(n: nat): string {
    if n < 10 then [Digit(n)] else Decimal(n / 10) + [Digit(n % 10)]
  }

  function HexByte(b: u8): string { [Digit(b / 16), Digit(b % 16)] }

  function Dotted(p: seq<u8>): string
    requires |p| == 4
  {
    Decimal(p[0]) + "." + Decimal(p[1]) + "." + Decimal(p[2]) + "." + Decimal(p[3])
  }

  /** Pairs of bytes in hexadecimal, with colons in between. */
  function Colons(p: seq<u8>): string
    requires |p| % 2 == 0
    decreases |p|
  {
    if p == [] then ""
    else HexByte(p[0]) + HexByte(p[1]) + (if |p| > 2 then ":" else "") + Colons(p[2..])
  }

  /** What joins the text of the first i bytes to the rest. */
  function Separator(i: nat, n: nat): string { if 0 < i < n then ":" else "" }

  /** text is what the first i bytes come to. */
  ghost predicate ColonsSoFar(p: seq<u8>, i: nat, text: string) {
    |p| % 2 == 0 && i % 2 == 0 && i <= |p| && text + Separator(i, |p|) + Colons(Onwards(p, i)) == Colons(p)
  }

  lemma {:induction false} ColonsStart(p: seq<u8>)
    requires |p| % 2 == 0
    ensures ColonsSoFar(p, 0, "")
  {}

  function ColonsPair(p: seq<u8>, i: nat): string
    requires i + 1 < |p|
  {
    (if i > 0 then ":" else "") + HexByte(p[i]) + HexByte(p[i + 1])
  }

  /** The next pair of bytes, with the colon in front of all but the first. */
  lemma {:induction false} ColonsNext(p: seq<u8>, i: nat, text: string)
    requires ColonsSoFar(p, i, text) && i < |p|
    ensures i + 2 <= |p| && ColonsSoFar(p, i + 2, text + ColonsPair(p, i))
  {
    var rest := Onwards(p, i);
    assert rest[2..] == Onwards(p, i + 2);
    hide HexByte, Onwards;
    Rearrange(text, Separator(i, |p|), HexByte(p[i]), HexByte(p[i + 1]), Separator(i + 2, |p|), Colons(rest[2..]));
  }

  lemma {:induction false} Rearrange(text: string, x: string, y: string, z: string, c: string, rest: string)
    ensures text + x + (y + z + c + rest) == text + (x + y + z) + c + rest
  {}

  lemma {:induction false} ColonsEnd(p: seq<u8>, text: string)
    requires ColonsSoFar(p, |p|, text)
    ensures text == Colons(p)
  {}

  function Text(p: seq<u8>): string { seq(|p|, i requires 0 <= i < |p| => p[i] as char) }

  function Target(host: string, port: u16): string { host + ":" + Decimal(port) }

  // ---- Parsing ----

  /** The size of a greeting, from its second byte. */
  function GreetingSize(buf: seq<u8>): nat
    requires |buf| >= 2
  {
    var n: nat := buf[1];
    n + 2
  }

  datatype Parsed = Incomplete | BadVersion | BadType | Request(size: nat, command: u8, host: string, port: u16)

  function ParseRequest(buf: seq<u8>): Parsed {
    if |buf| < 5 then Incomplete
    else if buf[0] != VERSION then BadVersion
    else if buf[3] == ATYP_IPV4 then
      if |buf| < 10 then Incomplete else Request(10, buf[1], Dotted(buf[4..8]), Be16(buf[8..10]))
    else if buf[3] == ATYP_DOMAIN then
      var n: nat := buf[4];
      if |buf| < 7 + n then Incomplete else Request(7 + n, buf[1], Text(buf[5..5 + n]), Be16(buf[5 + n..7 + n]))
    else if buf[3] == ATYP_IPV6 then
      if |buf| < 22 then Incomplete else Request(22, buf[1], Colons(buf[4..20]), Be16(buf[20..22]))
    else BadType
  }

  /** More input changes nothing about a request that has been read or refused. */
  lemma {:induction false} ParseExtends(a: seq<u8>, b: seq<u8>)
    requires ParseRequest(a) != Incomplete
    ensures ParseRequest(a + b) == ParseRequest(a)
    ensures ParseRequest(a).Request? ==> ParseRequest(a).size <= |a|
  {
    var c := a + b;
    assert c[..5] == a[..5];
    if |a| >= 10 { assert c[4..8] == a[4..8] && c[8..10] == a[8..10]; }
    if |a| >= 22 { assert c[4..20] == a[4..20] && c[20..22] == a[20..22]; }
    var n: nat := a[4];
    if |a| >= 7 + n { assert c[5..5 + n] == a[5..5 + n] && c[5 + n..7 + n] == a[5 + n..7 + n]; }
  }

  lemma {:induction false} ParseFits(buf: seq<u8>)
    ensures ParseRequest(buf).Request? ==> 0 < ParseRequest(buf).size <= |buf|
  {}

  function Reply(code: u8): seq<u8> { [VERSION, code, 0, ATYP_IPV4, 0, 0, 0, 0, 0, 0] }

  // ---- Steps ----

  function Close(s: Relay): Relay {
    if s.phase == Closed then s else s.(phase := Closed, remote := false, farewells := s.farewells + 1)
  }

  function Say(s: Relay, bytes: seq<u8>): Relay { s.(toPeer := s.toPeer + bytes) }

  function Consume(s: Relay, n: nat): Relay
    requires n <= |s.buffer|
  {
    s.(consumed := s.consumed + s.buffer[..n], buffer := s.buffer[n..])
  }

  /** The method negotiation; it waits, refuses, or answers "no authentication". */
  function Methods(s: Relay): Relay {
    if |s.buffer| < 2 then s
    else if s.buffer[0] != VERSION then Close(s)
    else if |s.buffer| < GreetingSize(s.buffer) then s
    else Say(Consume(s, GreetingSize(s.buffer)), [VERSION, NO_AUTH]).(phase := AwaitRequest)
  }

  function Connect(dial: Dialer, s: Relay, host: string, port: u16): Relay {
    var t := s.(target := Target(host, port), phase := Connecting, remote := true);
    if dial(host, port) then t else Close(Say(t, Reply(REP_HOSTUNREACH)))
  }

  function Requests(dial: Dialer, s: Relay): Relay {
    match ParseRequest(s.buffer)
    case Incomplete => s
    case BadVersion => Close(s)
    case BadType => Close(Say(s, Reply(REP_CMDNOTSUP)))
    case Request(n, command, host, port) =>
      ParseExtends(s.buffer, []);
      if command != CONNECT then Close(Say(Consume(s, n), Reply(REP_CMDNOTSUP)))
      else Connect(dial, Consume(s, n), host, port)
  }

  function Write(s: Relay): Relay {
    if s.remote then s.(toTarget := s.toTarget + s.buffer, buffer := []) else s.(buffer := [])
  }

  /** The loop of feedRx: as far as the buffer allows. */
  function Advance(dial: Dialer, s: Relay): Relay {
    match s.phase
    case AwaitMethods => if Methods(s).phase == AwaitRequest then Requests(dial, Methods(s)) else Methods(s)
    case AwaitRequest => Requests(dial, s)
    case Relaying => Write(s)
    case _ => s
  }

  function Buffered(s: Relay, bytes: seq<u8>): Relay { s.(buffer := s.buffer + bytes) }

  function Feed(dial: Dialer, s: Relay, bytes: seq<u8>): Relay { Advance(dial, Buffered(s, bytes)) }

  function FeedAll(dial: Dialer, s: Relay, pieces: seq<seq<u8>>): Relay {
    if pieces == [] then s else Feed(dial, FeedAll(dial, s, pieces[..|pieces| - 1]), pieces[|pieces| - 1])
  }

  // ---- Fragmentation ----

  lemma {:induction false} ConsumeMore(s: Relay, n: nat, b: seq<u8>)
    requires n <= |s.buffer|
    ensures Consume(Buffered(s, b), n) == Buffered(Consume(s, n), b)
  {
    assert (s.buffer + b)[..n] == s.buffer[..n] && (s.buffer + b)[n..] == s.buffer[n..] + b;
  }

  lemma {:induction false} RequestsMore(dial: Dialer, s: Relay, b: seq<u8>)
    requires s.phase == AwaitRequest
    ensures Requests(dial, s) == s
            || (Requests(dial, s).phase in {Connecting, Closed}
                && Requests(dial, Buffered(s, b)) == Buffered(Requests(dial, s), b))
  {
    if ParseRequest(s.buffer) != Incomplete {
      ParseExtends(s.buffer, b);
      ParseExtends(s.buffer, []);
      if ParseRequest(s.buffer).Request? {
        ConsumeMore(s, ParseRequest(s.buffer).size, b);
      }
      hide ParseRequest, Consume;
    }
  }

  lemma {:induction false} MethodsMore(s: Relay, b: seq<u8>)
    requires s.phase == AwaitMethods
    ensures Methods(s) == s
            || (Methods(s).phase in {AwaitRequest, Closed} && Methods(Buffered(s, b)) == Buffered(Methods(s), b))
  {
    if |s.buffer| >= 2 && |s.buffer| >= GreetingSize(s.buffer) {
      ConsumeMore(s, GreetingSize(s.buffer), b);
    }
  }

  /** Bytes that come later find everything as if they had come at once. */
  lemma {:induction false} AdvanceMore(dial: Dialer, s: Relay, b: seq<u8>)
    ensures Advance(dial, Buffered(Advance(dial, s), b)) == Advance(dial, Buffered(s, b))
  {
    match s.phase
    case AwaitMethods =>
      MethodsMore(s, b);
      if Methods(s).phase == AwaitRequest { RequestsMore(dial, Methods(s), b); }
      hide Methods, Requests;
    case AwaitRequest => RequestsMore(dial, s, b); hide Requests;
    case Relaying => assert s.toTarget + (s.buffer + b) == s.toTarget + s.buffer + b;
    case _ =>
  }

  lemma {:induction false} FeedAppend(dial: Dialer, s: Relay, a: seq<u8>, b: seq<u8>)
    ensures Feed(dial, Feed(dial, s, a), b) == Feed(dial, s, a + b)
  {
    Assoc(s.buffer, a, b);
    hide Advance;
    AdvanceMore(dial, Buffered(s, a), b);
    assert Buffered(Buffered(s, a), b) == Buffered(s, a + b);
  }

  lemma {:induction false} FeedAllSnoc(dial: Dialer, s: Relay, pieces: seq<seq<u8>>, init: seq<seq<u8>>, last: seq<u8>)
    requires pieces != [] && init == pieces[..|pieces| - 1] && last == pieces[|pieces| - 1]
    ensures FeedAll(dial, s, pieces) == Feed(dial, FeedAll(dial, s, init), last) && pieces == init + [last]
  {
    hide Feed;
  }

  /** For any split of the client's bytes, the session gives the same replies, target,
      state and relayed bytes as for one call. */
  lemma {:induction false} AnySplit(dial: Dialer, s: Relay, pieces: seq<seq<u8>>)
    requires Feed(dial, s, []) == s
    ensures FeedAll(dial, s, pieces) == Feed(dial, s, Flat(pieces))
  {
    if pieces == [] {
      hide Feed;
    } else {
      hide *;
      var init, last := pieces[..|pieces| - 1], pieces[|pieces| - 1];
      FeedAllSnoc(dial, s, pieces, init, last);
      AnySplit(dial, s, init);
      FeedAppend(dial, s, Flat(init), last);
      FlatSnoc(init, last);
    }
  }

  // ---- The client's side ----

  datatype Address = V4(bytes: seq<u8>) | Domain(name: seq<u8>) | V6(bytes: seq<u8>)

  predicate ValidAddress(a: Address) {
    match a case V4(b) => |b| == 4 case Domain(n) => |n| < 256 case V6(b) => |b| == 16
  }

  function Host(a: Address): string
    requires ValidAddress(a)
  {
    match a case V4(b) => Dotted(b) case Domain(n) => Text(n) case V6(b) => Colons(b)
  }

  /** The client's first message, section 3 of RFC 1928. */
  function Greeting(methods: seq<u8>): seq<u8>
    requires |methods| < 256
  {
    [VERSION, |methods|] + methods
  }

  /** A CONNECT request, section 4 of RFC 1928. */
  function ConnectRequest(a: Address, port: u16): seq<u8>
    requires ValidAddress(a)
  {
    [VERSION, CONNECT, 0]
    + (match a
       case V4(b) => [ATYP_IPV4] + b
       case Domain(n) => [ATYP_DOMAIN, |n|] + n
       case V6(b) => [ATYP_IPV6] + b)
    + Pack16(port)
  }

  lemma {:induction false} ParseInverts(a: Address, port: u16, rest: seq<u8>)
    requires ValidAddress(a)
    ensures ParseRequest(ConnectRequest(a, port) + rest) == Request(|ConnectRequest(a, port)|, CONNECT, Host(a), port)
  {
    hide Pack16, Be16, Dotted, Colons, Text;
    var p := Pack16(port);
    var buf := ConnectRequest(a, port) + rest;
    match a
    case V4(b) => assert buf[4..8] == b && buf[8..10] == p;
    case Domain(n) => assert buf[5..5 + |n|] == n && buf[5 + |n|..7 + |n|] == p;
    case V6(b) => assert buf[4..20] == b && buf[20..22] == p;
  }

  ghost predicate IsGreeting(g: seq<u8>) { |g| >= 2 && g[0] == VERSION && |g| == GreetingSize(g) }

  lemma {:induction false} MethodsTake(s: Relay, g: seq<u8>, rest: seq<u8>)
    requires IsGreeting(g) && s.buffer == g + rest
    ensures Methods(s) == Say(s.(phase := AwaitRequest, buffer := rest, consumed := s.consumed + g), [VERSION, NO_AUTH])
  {
    assert s.buffer[..|g|] == g && s.buffer[|g|..] == rest;
  }

  lemma {:induction false} RequestsTake(dial: Dialer, s: Relay, r: seq<u8>, rest: seq<u8>, host: string, port: u16)
    requires ParseRequest(r + rest) == Request(|r|, CONNECT, host, port) && s.buffer == r + rest
    ensures Requests(dial, s) == Connect(dial, s.(buffer := rest, consumed := s.consumed + r), host, port)
  {
    hide ParseRequest;
    assert s.buffer[..|r|] == r && s.buffer[|r|..] == rest;
  }

  /** The handshake inverts the encoder: whatever methods are offered and whatever
      follows, the target of the request is dialed, and the rest waits for it. */
  lemma {:induction false} HandshakeInverts(dial: Dialer, methods: seq<u8>, a: Address, port: u16, rest: seq<u8>)
    requires |methods| < 256 && ValidAddress(a)
    ensures var shake := Greeting(methods) + ConnectRequest(a, port);
            var connecting := Relay(Connecting, rest, true, Target(Host(a), port), shake, [VERSION, NO_AUTH], [], 0);
            Feed(dial, FRESH, shake + rest)
            == if dial(Host(a), port) then connecting else Close(Say(connecting, Reply(REP_HOSTUNREACH)))
  {
    var g, r := Greeting(methods), ConnectRequest(a, port);
    var s := Buffered(FRESH, g + r + rest);
    assert s.buffer == g + (r + rest);
    MethodsTake(s, g, r + rest);
    ParseInverts(a, port, rest);
    hide ParseRequest, Greeting, ConnectRequest, Methods, Requests, Host, Target, Reply;
    RequestsTake(dial, Methods(s), r, rest, Host(a), port);
    assert [] + g == g && [] + [VERSION, NO_AUTH] == [VERSION, NO_AUTH];
  }

  // ---- The text names the address ----

  predicate AllDigits(s: string) { forall c | c in s :: '0' <= c <= '9' }

  lemma {:induction false} DecimalDigits(n: nat)
    ensures AllDigits(Decimal(n)) && Decimal(n) != ""
  {
    if n >= 10 {
      DecimalDigits(n / 10);
    }
  }

  lemma {:induction false} DecimalParts(n: nat)
    ensures var s := Decimal(n);
            && s != "" && s[|s| - 1] == Digit(n % 10)
            && (if n < 10 then |s| == 1 else |s| > 1 && s[..|s| - 1] == Decimal(n / 10))
  {
    DecimalDigits(n / 10);
  }

  lemma {:induction false} DecimalInjective(m: nat, n: nat)
    requires Decimal(m) == Decimal(n)
    ensures m == n
  {
    DecimalParts(m);
    DecimalParts(n);
    DigitInjective(m % 10, n % 10);
    hide Decimal, Digit;
    if m >= 10 {
      DecimalInjective(m / 10, n / 10);
    }
  }

  lemma {:induction false} DigitInjective(a: nat, b: nat)
    requires a < 16 && b < 16
    ensures Digit(a) == Digit(b) ==> a == b
  {}

  /** The separator's place is the last one in the text. */
  lemma {:induction false} LastPlace(a: string, b: string, sep: char)
    requires sep !in b
    ensures (a + [sep] + b)[|a|] == sep && forall i | |a| < i < |a + [sep] + b| :: (a + [sep] + b)[i] != sep
    ensures (a + [sep] + b)[..|a|] == a && (a + [sep] + b)[|a| + 1..] == b
  {
    forall i | |a| < i < |a + [sep] + b| ensures (a + [sep] + b)[i] != sep {
      assert (a + [sep] + b)[i] == b[i - |a| - 1];
    }
  }

  /** A separator that does not occur behind it splits a text in only one way. */
  lemma {:induction false} SplitLast(a: string, b: string, c: string, d: string, sep: char)
    requires a + [sep] + b == c + [sep] + d && sep !in b && sep !in d
    ensures a == c && b == d
  {
    LastPlace(a, b, sep);
    LastPlace(c, d, sep);
  }

  lemma {:induction false} NoSeparator(n: nat)
    ensures '.' !in Decimal(n) && ':' !in Decimal(n)
  {
    DecimalDigits(n);
  }

  lemma {:induction false} DottedInjective(p: seq<u8>, q: seq<u8>)
    requires |p| == |q| == 4 && Dotted(p) == Dotted(q)
    ensures p == q
  {
    var p0, p1, p2, p3 := Decimal(p[0]), Decimal(p[1]), Decimal(p[2]), Decimal(p[3]);
    var q0, q1, q2, q3 := Decimal(q[0]), Decimal(q[1]), Decimal(q[2]), Decimal(q[3]);
    assert p0 + "." + p1 + "." + p2 + "." + p3 == q0 + "." + q1 + "." + q2 + "." + q3;
    NoSeparator(p[1]); NoSeparator(p[2]); NoSeparator(p[3]);
    NoSeparator(q[1]); NoSeparator(q[2]); NoSeparator(q[3]);
    hide Decimal, Dotted;
    SplitLast(p0 + "." + p1 + "." + p2, p3, q0 + "." + q1 + "." + q2, q3, '.');
    SplitLast(p0 + "." + p1, p2, q0 + "." + q1, q2, '.');
    SplitLast(p0, p1, q0, q1, '.');
    DecimalInjective(p[0], q[0]);
    DecimalInjective(p[1], q[1]);
    DecimalInjective(p[2], q[2]);
    DecimalInjective(p[3], q[3]);
  }

  lemma {:induction false} HexInjective(a: u8, b: u8)
    requires HexByte(a) == HexByte(b)
    ensures a == b
  {
    assert HexByte(a)[0] == HexByte(b)[0] && HexByte(a)[1] == HexByte(b)[1];
    DigitInjective(a / 16, b / 16);
    DigitInjective(a % 16, b % 16);
  }

  lemma {:induction false} ColonsParts(p: seq<u8>)
    requires |p| % 2 == 0 && p != []
    ensures var s := Colons(p); var k := if |p| > 2 then 5 else 4;
            |s| >= k && s[..2] == HexByte(p[0]) && s[2..4] == HexByte(p[1]) && s[k..] == Colons(p[2..])
            && (|p| > 2 ==> s[4] == ':') && (|p| == 2 ==> |s| == 4)
  {}

  lemma {:induction false} ColonsHeads(p: seq<u8>, q: seq<u8>)
    requires |p| == |q| && |p| % 2 == 0 && p != [] && Colons(p) == Colons(q)
    ensures p[0] == q[0] && p[1] == q[1] && Colons(p[2..]) == Colons(q[2..])
  {
    ColonsParts(p);
    ColonsParts(q);
    hide Colons, HexByte;
    HexInjective(p[0], q[0]);
    HexInjective(p[1], q[1]);
  }

  lemma {:induction false} SamePairs(p: seq<u8>, q: seq<u8>)
    requires |p| == |q| >= 2 && p[0] == q[0] && p[1] == q[1] && p[2..] == q[2..]
    ensures p == q
  {
    assert p == [p[0], p[1]] + p[2..] && q == [q[0], q[1]] + q[2..];
  }

  lemma {:induction false} ColonsInjective(p: seq<u8>, q: seq<u8>)
    requires |p| == |q| && |p| % 2 == 0 && Colons(p) == Colons(q)
    ensures p == q
    decreases |p|
  {
    if p != [] {
      hide *;
      ColonsHeads(p, q);
      ColonsInjective(p[2..], q[2..]);
      SamePairs(p, q);
    }
  }

  lemma {:induction false} TextInjective(p: seq<u8>, q: seq<u8>)
    requires Text(p) == Text(q)
    ensures p == q
  {
    assert |p| == |Text(p)| == |q|;
    forall i | 0 <= i < |p| ensures p[i] == q[i] {
      assert Text(p)[i] == Text(q)[i];
    }
  }

  predicate SameKind(a: Address, b: Address) { a.V4? == b.V4? && a.Domain? == b.Domain? }

  /** Two requests of one kind with the same recorded target name the same address
      and port: the handshake loses nothing of either. */
  lemma {:induction false} TargetNamesAddress(a: Address, port: u16, b: Address, port': u16)
    requires ValidAddress(a) && ValidAddress(b) && SameKind(a, b)
    requires Target(Host(a), port) == Target(Host(b), port')
    ensures a == b && port == port'
  {
    NoSeparator(port);
    NoSeparator(port');
    SplitLast(Host(a), Decimal(port), Host(b), Decimal(port'), ':');
    DecimalInjective(port, port');
    match a
    case V4(p) => DottedInjective(p, b.bytes);
    case Domain(n) => TextInjective(n, b.name);
    case V6(p) => ColonsInjective(p, b.bytes);
  }

  // ---- Runs ----

  /** opened and answered come from the connection to the target. */
  datatype Event = Fed(bytes: seq<u8>) | Opened | Answered(bytes: seq<u8>) | TargetClosed | Ended

  predicate Possible(s: Relay, e: Event) {
    match e
    case Opened => s.remote && s.phase == Connecting
    case Answered(_) => s.remote
    case TargetClosed => s.remote
    case _ => true
  }

  function OnOpen(s: Relay): Relay { Write(Say(s, Reply(REP_OK)).(phase := Relaying)) }

  function Do(dial: Dialer, s: Relay, e: Event): Relay {
    match e
    case Fed(bytes) => Feed(dial, s, bytes)
    case Opened => OnOpen(s)
    case Answered(bytes) => Say(s, bytes)
    case TargetClosed => Close(s)
    case Ended => Close(s)
  }

  function After(dial: Dialer, events: seq<Event>): Option<Relay> {
    if events == [] then Some(FRESH)
    else
      match After(dial, events[..|events| - 1])
      case Some(s) => if Possible(s, events[|events| - 1]) then Some(Do(dial, s, events[|events| - 1])) else None
      case None => None
  }

  function Input(events: seq<Event>): seq<u8> {
    if events == [] then []
    else Input(events[..|events| - 1]) + (if events[|events| - 1].Fed? then events[|events| - 1].bytes else [])
  }

  /** A greeting and a CONNECT request, one after the other. */
  ghost predicate IsHandshake(h: seq<u8>) {
    |h| >= 2 && h[0] == VERSION && |h| >= GreetingSize(h)
    && ParseRequest(h[GreetingSize(h)..]).Request? && ParseRequest(h[GreetingSize(h)..]).size == |h| - GreetingSize(h)
    && ParseRequest(h[GreetingSize(h)..]).command == CONNECT
  }

  /** Nothing fed is lost, reordered or sent twice. */
  ghost predicate Conserves(s: Relay, input: seq<u8>) {
    && s.consumed + s.toTarget <= input
    && (s.phase != Closed ==> s.consumed + s.toTarget + s.buffer == input)
    && (s.phase == AwaitMethods ==> s.consumed == [])
    && (s.phase == AwaitRequest ==> IsGreeting(s.consumed))
    && (s.phase in {Connecting, Relaying} ==> IsHandshake(s.consumed) && s.remote)
    && (s.phase in {AwaitMethods, AwaitRequest, Connecting} ==> s.toTarget == [])
    && (s.phase == Relaying ==> s.buffer == [])
  }

  lemma {:induction false} MethodsConserve(s: Relay, input: seq<u8>)
    requires Conserves(s, input) && s.phase == AwaitMethods
    ensures Conserves(Methods(s), input)
  {
    if |s.buffer| >= 2 && s.buffer[0] == VERSION && |s.buffer| >= GreetingSize(s.buffer) {
      var n := GreetingSize(s.buffer);
      assert [] + s.buffer[..n] == s.buffer[..n] && s.buffer[..n] + [] + s.buffer[n..] == s.buffer;
    }
  }

  lemma {:induction false} ConnectConserves(dial: Dialer, s: Relay, host: string, port: u16, input: seq<u8>)
    requires IsHandshake(s.consumed) && s.toTarget == [] && s.consumed + [] + s.buffer == input
    ensures Conserves(Connect(dial, s, host, port), input)
  {
    hide IsHandshake;
    assert s.consumed + [] <= input;
  }

  lemma {:induction false} RefuseConserves(s: Relay, input: seq<u8>)
    requires s.consumed + s.toTarget + s.buffer == input
    ensures Conserves(Close(s), input)
  {
    hide IsHandshake;
    assert s.consumed + s.toTarget <= input;
  }

  lemma {:induction false} RequestsConserve(dial: Dialer, s: Relay, input: seq<u8>)
    requires Conserves(s, input) && s.phase == AwaitRequest
    ensures Conserves(Requests(dial, s), input)
  {
    match ParseRequest(s.buffer)
    case Request(n, command, host, port) =>
      ParseExact(s.buffer);
      ParseExtends(s.buffer, []);
      var r, rest := s.buffer[..n], s.buffer[n..];
      var t := Consume(s, n);
      Regroup(s.consumed, r, rest);
      TakeDrop(s.buffer, n);
      if command == CONNECT {
        ShakenBy(s.consumed, r);
        ConnectConserves(dial, t, host, port, input);
      } else {
        RefuseConserves(Say(t, Reply(REP_CMDNOTSUP)), input);
      }
      hide ParseRequest, IsHandshake, Conserves, Connect, Close, Reply;
    case _ => hide ParseRequest, IsHandshake;
  }

  lemma {:induction false} Regroup(a: seq<u8>, b: seq<u8>, c: seq<u8>)
    ensures a + [] + (b + c) == a + b + [] + c
  {}

  lemma {:induction false} ShakenBy(g: seq<u8>, r: seq<u8>)
    requires IsGreeting(g) && ParseRequest(r).Request? && ParseRequest(r).size == |r|
            && ParseRequest(r).command == CONNECT
    ensures IsHandshake(g + r)
  {
    assert (g + r)[GreetingSize(g + r)..] == r;
  }

  /** A request that has been read stands on its own. */
  lemma {:induction false} ParseExact(buf: seq<u8>)
    requires ParseRequest(buf).Request?
    ensures ParseRequest(buf).size <= |buf| && ParseRequest(buf[..ParseRequest(buf).size]) == ParseRequest(buf)
  {
    var n := ParseRequest(buf).size;
    var a := buf[..n];
    assert ParseRequest(a) != Incomplete;
    assert a + buf[n..] == buf;
    ParseExtends(a, buf[n..]);
  }

  lemma {:induction false} FeedConserves(dial: Dialer, s: Relay, input: seq<u8>, b: seq<u8>)
    requires Conserves(s, input)
    ensures Conserves(Feed(dial, s, b), input + b)
  {
    var t := Buffered(s, b);
    if s.phase == Relaying {
      RelayedConserves(s, input, b);
    } else {
      BufferedConserves(s, input, b);
      hide Methods, Requests, IsHandshake, Conserves;
      match s.phase
      case AwaitMethods =>
        MethodsConserve(t, input + b);
        if Methods(t).phase == AwaitRequest { RequestsConserve(dial, Methods(t), input + b); }
      case AwaitRequest => RequestsConserve(dial, t, input + b);
      case _ =>
    }
  }

  lemma {:induction false} RelayedConserves(s: Relay, input: seq<u8>, b: seq<u8>)
    requires Conserves(s, input) && s.phase == Relaying
    ensures Conserves(Write(Buffered(s, b)), input + b)
  {
    assert [] + b == b && s.consumed + (s.toTarget + b) + [] == s.consumed + s.toTarget + [] + b;
    hide IsHandshake;
  }

  lemma {:induction false} BufferedConserves(s: Relay, input: seq<u8>, b: seq<u8>)
    requires Conserves(s, input) && s.phase != Relaying
    ensures Conserves(Buffered(s, b), input + b)
  {
    hide IsHandshake;
    Assoc(s.consumed + s.toTarget, s.buffer, b);
    assert input <= input + b;
  }

  lemma {:induction false} DoConserves(dial: Dialer, s: Relay, input: seq<u8>, e: Event)
    requires Conserves(s, input) && Possible(s, e)
    ensures Conserves(Do(dial, s, e), input + if e.Fed? then e.bytes else [])
  {
    hide IsHandshake;
    assert input + [] == input;
    match e
    case Fed(bytes) => FeedConserves(dial, s, input, bytes); hide Feed;
    case Opened => assert s.consumed + ([] + s.buffer) + [] == s.consumed + [] + s.buffer;
    case _ =>
  }

  /** On every run: the consumed handshake, then the bytes written to the target, then
      what is still buffered make up exactly the bytes fed, until the session closes. */
  lemma {:induction false} Conservation(dial: Dialer, events: seq<Event>)
    requires After(dial, events).Some?
    ensures Conserves(After(dial, events).value, Input(events))
  {
    if events == [] {
      assert Conserves(FRESH, []);
    } else {
      Conservation(dial, events[..|events| - 1]);
      DoConserves(dial, After(dial, events[..|events| - 1]).value, Input(events[..|events| - 1]), events[|events| - 1]);
      hide Conserves, Do, Possible;
    }
  }

  ghost predicate SaidFarewell(s: Relay) { s.farewells == if s.phase == Closed then 1 else 0 }

  lemma {:induction false} DoSaysFarewell(dial: Dialer, s: Relay, e: Event)
    requires SaidFarewell(s) && Possible(s, e)
    ensures SaidFarewell(Do(dial, s, e)) && (s.phase == Closed ==> Do(dial, s, e).phase == Closed)
  {
    hide ParseRequest, Reply, Target;
  }

  /** On every run: a session is closed at the stream and removed at the Outport once if
      it has closed, however many of a refusal, a failed dial, the target's close and the
      stream's own close happen, and not before. */
  lemma {:induction false} FarewellOnce(dial: Dialer, events: seq<Event>)
    requires After(dial, events).Some?
    ensures SaidFarewell(After(dial, events).value)
    ensures events != [] && After(dial, events[..|events| - 1]).value.phase == Closed ==>
              After(dial, events).value.phase == Closed
  {
    if events != [] {
      FarewellOnce(dial, events[..|events| - 1]);
      DoSaysFarewell(dial, After(dial, events[..|events| - 1]).value, events[|events| - 1]);
      hide Do, Possible;
    }
  }

  lemma {:induction false} PrefixTail(h: seq<u8>, input: seq<u8>, n: nat)
    requires h <= input && n <= |h|
    ensures h[n..] + input[|h|..] == input[n..]
  {}

  /** There is only one way to read a handshake off the input. */
  lemma {:induction false} HandshakeUnique(h: seq<u8>, k: seq<u8>, input: seq<u8>)
    requires IsHandshake(h) && IsHandshake(k) && h <= input && k <= input
    ensures h == k
  {
    var n := GreetingSize(input);
    assert h[1] == k[1] == input[1];
    PrefixTail(h, input, n);
    PrefixTail(k, input, n);
    hide ParseRequest;
    ParseExtends(h[n..], input[|h|..]);
    ParseExtends(k[n..], input[|k|..]);
    assert |h| == |k|;
  }

  /** However the client's bytes are cut and whenever the target answers: once a
      session relays, the target has been written exactly what the client sent after
      its greeting and request. */
  lemma {:induction false} TargetGetsThePayload(dial: Dialer, events: seq<Event>, methods: seq<u8>, a: Address,
                                                port: u16, payload: seq<u8>)
    requires After(dial, events).Some? && |methods| < 256 && ValidAddress(a)
    requires Input(events) == Greeting(methods) + ConnectRequest(a, port) + payload
    ensures After(dial, events).value.phase == Relaying ==> After(dial, events).value.toTarget == payload
    ensures After(dial, events).value.phase == Connecting ==> After(dial, events).value.buffer == payload
  {
    var s := After(dial, events).value;
    var g, r := Greeting(methods), ConnectRequest(a, port);
    Conservation(dial, events);
    ParseInverts(a, port, []);
    assert r + [] == r;
    ShakenBy(g, r);
    RestIsPayload(s, Input(events), g + r, payload);
  }

  lemma {:induction false} RestIsPayload(s: Relay, input: seq<u8>, shake: seq<u8>, payload: seq<u8>)
    requires Conserves(s, input) && IsHandshake(shake) && input == shake + payload
    ensures s.phase == Relaying ==> s.toTarget == payload
    ensures s.phase == Connecting ==> s.buffer == payload
  {
    hide IsHandshake;
    if s.phase in {Connecting, Relaying} {
      var out := s.toTarget + s.buffer;
      assert s.consumed + s.toTarget + s.buffer == s.consumed + out;
      assert s.consumed <= input && shake <= input;
      HandshakeUnique(s.consumed, shake, input);
      Cancel(shake, out, payload);
      assert s.toTarget + [] == s.toTarget && [] + s.buffer == s.buffer;
    }
  }

  lemma {:induction false} Cancel(a: seq<u8>, b: seq<u8>, c: seq<u8>)
    ensures a + b == a + c ==> b == c
  {
    assert (a + b)[|a|..] == b && (a + c)[|a|..] == c;
  }

  // ---- The bytes of RFC 1928 ----

  /** The encoder that the parser inverts writes the bytes of sections 3 and 4. */
  lemma {:induction false} EncoderBytes(b: seq<u8>, name: seq<u8>, long: seq<u8>, port: u16, hi: u8, lo: u8)
    requires |b| == 4 && |name| < 256 && |long| == 16 && port == hi * 256 + lo
    ensures Greeting([0, 2]) == [5, 2, 0, 2]
    ensures ConnectRequest(V4(b), port) == [5, 1, 0, 1] + b + [hi, lo]
    ensures ConnectRequest(Domain(name), port) == [5, 1, 0, 3, |name|] + name + [hi, lo]
    ensures ConnectRequest(V6(long), port) == [5, 1, 0, 4] + long + [hi, lo]
  {}

  /** A request that is not a CONNECT is refused with reply 07; so is an unknown address
      type; and another version is dropped without a reply. No target is contacted. */
  lemma {:induction false} Refusals(dial: Dialer, s: Relay)
    requires s.phase == AwaitRequest && |s.buffer| >= 5
    ensures var d := Requests(dial, s);
            && (s.buffer[0] != 5 ==> d.phase == Closed && d.toPeer == s.toPeer)
            && (s.buffer[0] == 5 && s.buffer[3] !in {1, 3, 4} ==>
                  d.phase == Closed && d.toPeer == s.toPeer + [5, 7, 0, 1, 0, 0, 0, 0, 0, 0])
            && (s.buffer[0] == 5 && s.buffer[1] != 1 && ParseRequest(s.buffer).Request? ==>
                  d.phase == Closed && d.toPeer == s.toPeer + [5, 7, 0, 1, 0, 0, 0, 0, 0, 0])
            && (d.phase == Closed && s.buffer[1] != 1 ==> d.toTarget == s.toTarget && d.target == s.target)
  {
    hide Dotted, Colons, Text;
  }

  /** A request whose target cannot be dialed is refused with reply 04. */
  lemma {:induction false} Unreachable(dial: Dialer, s: Relay, host: string, port: u16)
    requires !dial(host, port) && s.phase == AwaitRequest
    ensures var d := Connect(dial, s, host, port);
            d.phase == Closed && d.toPeer == s.toPeer + [5, 4, 0, 1, 0, 0, 0, 0, 0, 0]
  {}

  const GRANTED: seq<u8> := [5, 0, 0, 1, 0, 0, 0, 0, 0, 0]

  /** The target's connection gives bytes only once it is up. */
  predicate AnswersAfterOpen(dial: Dialer, events: seq<Event>) {
    events == []
    || (AnswersAfterOpen(dial, events[..|events| - 1])
        && (events[|events| - 1].Answered? && After(dial, events[..|events| - 1]).Some? ==>
              After(dial, events[..|events| - 1]).value.phase != Connecting))
  }

  function Answers(events: seq<Event>): seq<u8> {
    if events == [] then []
    else Answers(events[..|events| - 1]) + (if events[|events| - 1].Answered? then events[|events| - 1].bytes else [])
  }

  ghost predicate Replied(s: Relay, answers: seq<u8>) {
    match s.phase
    case AwaitMethods => s.toPeer == [] && answers == [] && !s.remote
    case AwaitRequest => s.toPeer == [5, 0] && answers == [] && !s.remote
    case Connecting => s.toPeer == [5, 0] && answers == []
    case Relaying => s.toPeer == [5, 0] + GRANTED + answers
    case Closed => !s.remote
  }

  lemma {:induction false} DoReplies(dial: Dialer, s: Relay, e: Event, answers: seq<u8>)
    requires Replied(s, answers) && Possible(s, e) && (e.Answered? ==> s.phase != Connecting)
    ensures Replied(Do(dial, s, e), answers + if e.Answered? then e.bytes else [])
  {
    hide ParseRequest, Target;
    assert answers + [] == answers;
    match e
    case Opened => assert [5, 0] + GRANTED + [] == [5, 0] + GRANTED; hide Requests, Methods;
    case Answered(bytes) => hide Requests, Methods; Assoc([5, 0] + GRANTED, answers, bytes);
    case _ =>
  }

  /** What the client gets from a session that relays: the method, the grant, and then
      exactly the bytes of the target, in order. */
  lemma {:induction false} ClientGets(dial: Dialer, events: seq<Event>)
    requires After(dial, events).Some? && AnswersAfterOpen(dial, events)
    ensures Replied(After(dial, events).value, Answers(events))
  {
    if events != [] {
      var init, e := events[..|events| - 1], events[|events| - 1];
      ClientGets(dial, init);
      DoReplies(dial, After(dial, init).value, e, Answers(init));
      hide Do, Replied, Possible;
    }
  }

  // ---- What the text says ----

  function DigitOf(c: char): int { if '0' <= c <= '9' then c as int - '0' as int else c as int - 'a' as int + 10 }

  /** The number that a text of decimal digits stands for. */
  function ValueOf(s: string): int {
    if s == "" then 0 else ValueOf(s[..|s| - 1]) * 10 + DigitOf(s[|s| - 1])
  }

  lemma {:induction false} DigitReads(d: nat)
    requires d < 16
    ensures DigitOf(Digit(d)) == d && (d < 10 ==> '0' <= Digit(d) <= '9') && (d >= 10 ==> 'a' <= Digit(d) <= 'f')
  {}

  /** A number is written in decimal digits, without a leading zero. */
  lemma {:induction false} DecimalReads(n: nat)
    ensures AllDigits(Decimal(n)) && ValueOf(Decimal(n)) == n && Decimal(n) != "" && (n > 0 ==> Decimal(n)[0] != '0')
  {
    DecimalDigits(n);
    DecimalParts(n);
    DigitReads(n % 10);
    if n >= 10 {
      DecimalReads(n / 10);
      assert Decimal(n)[0] == Decimal(n)[..|Decimal(n)| - 1][0];
    } else {
      assert Decimal(n)[..0] == "";
    }
    hide Digit, DigitOf;
  }

  /** A name is written as it came, byte by byte. */
  lemma {:induction false} TextReads(p: seq<u8>)
    ensures |Text(p)| == |p| && forall i | 0 <= i < |p| :: Text(p)[i] as int == p[i]
  {}

  lemma {:induction false} HexReads(b: u8)
    ensures var h := HexByte(b); |h| == 2 && DigitOf(h[0]) * 16 + DigitOf(h[1]) == b
  {
    DigitReads(b / 16);
    DigitReads(b % 16);
    hide Digit;
  }

  /** s is the text of these bytes: pairs of two digits each, with colons in between. */
  ghost predicate PairAt(p: seq<u8>, s: string, k: nat)
    requires 2 * k + 1 < |p|
  {
    && 5 * k + 4 <= |s|
    && s[5 * k..5 * k + 2] == HexByte(p[2 * k]) && s[5 * k + 2..5 * k + 4] == HexByte(p[2 * k + 1])
    && (2 * k + 2 < |p| ==> 5 * k + 5 <= |s| && s[5 * k + 4] == ':')
  }

  lemma {:induction false} PairLater(p: seq<u8>, s: string, k: nat)
    requires |p| % 2 == 0 && 2 * k + 3 < |p| && |s| >= 5 && PairAt(p[2..], s[5..], k)
    ensures PairAt(p, s, k + 1)
  {
    var q, t, j := p[2..], s[5..], 5 * k;
    assert q[2 * k] == p[2 * (k + 1)] && q[2 * k + 1] == p[2 * (k + 1) + 1];
    assert t[j..j + 2] == s[j + 5..j + 7] && t[j + 2..j + 4] == s[j + 7..j + 9];
    hide HexByte;
  }

  lemma {:induction false} FirstPair(p: seq<u8>)
    requires |p| % 2 == 0 && p != []
    ensures PairAt(p, Colons(p), 0)
    ensures |p| > 2 ==> |Colons(p)| >= 5 && Colons(p)[5..] == Colons(p[2..])
  {
    ColonsParts(p);
    hide Colons, HexByte;
  }

  lemma {:induction false} ColonsAt(p: seq<u8>, k: nat)
    requires |p| % 2 == 0 && 2 * k + 1 < |p|
    ensures PairAt(p, Colons(p), k)
    decreases |p|
  {
    hide *;
    FirstPair(p);
    if k > 0 {
      ColonsAt(p[2..], k - 1);
      PairLater(p, Colons(p), k - 1);
    }
  }

  lemma {:induction false} LastPair(p: seq<u8>)
    requires |p| == 2
    ensures |Colons(p)| == 4
  {
    ColonsParts(p);
    hide Colons, HexByte;
  }

  lemma {:induction false} ColonsSize(p: seq<u8>)
    requires |p| % 2 == 0 && p != []
    ensures 2 * |Colons(p)| + 2 == 5 * |p|
    decreases |p|
  {
    hide *;
    if |p| > 2 {
      FirstPair(p);
      ColonsSize(p[2..]);
      assert |Colons(p)| == 5 + |Colons(p)[5..]|;
    } else {
      LastPair(p);
    }
  }

  /** The text of an IPv6 address: 39 characters, eight groups of four digits that are
      its bytes in order, and colons in between. */
  lemma {:induction false} ColonsText(p: seq<u8>)
    requires |p| == 16
    ensures |Colons(p)| == 39 && forall k: nat | k < 8 :: PairAt(p, Colons(p), k)
  {
    ColonsSize(p);
    hide Colons, PairAt;
    forall k: nat | k < 8 ensures PairAt(p, Colons(p), k) {
      ColonsAt(p, k);
    }
  }

  lemma {:induction false} SomeDecimals()
    ensures Decimal(0) == "0" && Decimal(10) == "10" && Decimal(192) == "192" && Decimal(168) == "168"
  {
    assert Decimal(1) == "1" && Decimal(19) == "19" && Decimal(16) == "16";
  }

  lemma {:induction false} PortDecimal()
    ensures Decimal(8080) == "8080"
  {
    assert Decimal(8) == "8" && Decimal(80) == "80" && Decimal(808) == "808";
  }

  /** The text of an IPv4 address and port. */
  lemma {:induction false} DottedExample()
    ensures Target(Dotted([192, 168, 0, 10]), 8080) == "192.168.0.10:8080"
  {
    SomeDecimals();
    PortDecimal();
    hide Decimal;
  }
}
