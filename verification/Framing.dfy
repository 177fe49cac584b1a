/** Cutting one link's byte stream into frames, however the bytes arrive. */
module Framing {
  import opened Words
  import opened Segment

  datatype Next = More | Bad | Whole(size: nat)

  /** What one round of the framing loop finds at the start of buf. */
  function FindFrame(buf: seq<u8>): Next {
    match Peek(buf)
    case NeedMore => More
    case BadSegment => Bad
    case Peeked(hdr, width) => if width + hdr.payloadLen > |buf| then More else Whole(width + hdr.payloadLen)
  }

  /** That round as the loops do it. */
  method NextFrame(buf: seq<u8>) returns (next: Next)
    ensures next == FindFrame(buf)
  {
    if |buf| < LEGACY_SIZE { return More; }
    var ok, consumed, hdr := PeekHeader(buf);
    if !ok { return Bad; }
    if consumed == 0 { return More; }
    var total := consumed + hdr.payloadLen;
    next := if total > |buf| then More else Whole(total);
  }

  lemma {:induction false} PeekPrefix(a: seq<u8>, n: nat)
    requires n <= |a| && Peek(a).Peeked? && Peek(a).width <= n
    ensures Peek(a[..n]) == Peek(a)
  {
    assert a[..n][1] == a[1] && a[..n][2..4] == a[2..4];
    assert Peek(a[..n]) != NeedMore;
    PeekExtends(a[..n], a[n..]);
    assert a[..n] + a[n..] == a;
  }

  /** Every round takes a whole frame, of at least the legacy header's size. */
  lemma {:induction false} FrameFound(buf: seq<u8>)
    requires FindFrame(buf).Whole?
    ensures LEGACY_SIZE <= FindFrame(buf).size <= |buf| && WellFormed(buf[..FindFrame(buf).size])
  {
    PeekPrefix(buf, FindFrame(buf).size);
  }

  lemma {:induction false} FindExtends(a: seq<u8>, b: seq<u8>)
    requires FindFrame(a) != More
    ensures FindFrame(a + b) == FindFrame(a)
  {
    PeekExtends(a, b);
  }

  lemma {:induction false} FindWellFormed(f: seq<u8>)
    requires WellFormed(f)
    ensures FindFrame(f) == Whole(|f|)
  {}

  /** A proper part of a frame never looks like a frame, nor like garbage. */
  lemma {:induction false} FindPartial(f: seq<u8>, n: nat)
    requires WellFormed(f) && n < |f|
    ensures FindFrame(f[..n]) == More
  {
    FindWellFormed(f);
    assert f[..n] + f[n..] == f;
    if FindFrame(f[..n]) != More {
      FindExtends(f[..n], f[n..]);
      if FindFrame(f[..n]).Whole? { FrameFound(f[..n]); }
    }
  }

  // ---- The whole loop over a buffer ----

  datatype Parsed = Parsed(frames: seq<seq<u8>>, rest: seq<u8>, bad: bool)

  /** What Parse finds after it has already taken the given frames. */
  function After(frames: seq<seq<u8>>, p: Parsed): Parsed {
    Parsed(frames + p.frames, p.rest, p.bad)
  }

  /** The frames that the loop takes from buf, the bytes it keeps, and whether
      it met a bad header, on which it drops the buffer. */
  function Parse(buf: seq<u8>): (p: Parsed)
    ensures p.bad ==> p.rest == []
    decreases |buf|
  {
    match FindFrame(buf)
    case More => Parsed([], buf, false)
    case Bad => Parsed([], [], true)
    case Whole(n) =>
      FrameFound(buf);
      After([buf[..n]], Parse(buf[n..]))
  }

  lemma {:induction false} AfterCons(f: seq<u8>, frames: seq<seq<u8>>, p: Parsed)
    ensures After([f], After(frames, p)) == After([f] + frames, p)
  {
    assert [f] + (frames + p.frames) == [f] + frames + p.frames;
  }

  lemma {:induction false} ParseWellFormed(buf: seq<u8>)
    ensures forall f | f in Parse(buf).frames :: WellFormed(f)
    decreases |buf|
  {
    hide FindFrame, WellFormed;
    match FindFrame(buf)
    case More =>
    case Bad =>
    case Whole(n) =>
      FrameFound(buf);
      ParseWellFormed(buf[n..]);
  }

  /** Bytes may be parsed as they come: what is left over is all that counts. */
  lemma {:induction false} ParseAppend(a: seq<u8>, b: seq<u8>)
    requires !Parse(a).bad
    ensures Parse(a + b) == After(Parse(a).frames, Parse(Parse(a).rest + b))
    decreases |a|
  {
    hide FindFrame, WellFormed;
    match FindFrame(a)
    case More =>
    case Bad =>
    case Whole(n) =>
      FrameFound(a);
      FindExtends(a, b);
      assert (a + b)[..n] == a[..n] && (a + b)[n..] == a[n..] + b;
      ParseAppend(a[n..], b);
      AfterCons(a[..n], Parse(a[n..]).frames, Parse(Parse(a[n..]).rest + b));
  }

  /** Once a header is bad, no later byte helps. */
  lemma {:induction false} ParseBad(a: seq<u8>, b: seq<u8>)
    requires Parse(a).bad
    ensures Parse(a + b) == Parse(a)
    decreases |a|
  {
    hide FindFrame, WellFormed;
    FindExtends(a, b);
    match FindFrame(a)
    case Bad =>
    case Whole(n) =>
      FrameFound(a);
      assert (a + b)[..n] == a[..n] && (a + b)[n..] == a[n..] + b;
      ParseBad(a[n..], b);
  }

  /** Parsing loses no byte. */
  lemma {:induction false} ParseKeeps(a: seq<u8>)
    requires !Parse(a).bad
    ensures Flat(Parse(a).frames) + Parse(a).rest == a
    decreases |a|
  {
    hide FindFrame, WellFormed;
    match FindFrame(a)
    case More =>
    case Bad =>
    case Whole(n) =>
      FrameFound(a);
      ParseKeeps(a[n..]);
      var p := Parse(a[n..]);
      FlatCons(a[..n], p.frames);
      assert Parse(a) == After([a[..n]], p);
      Assoc(a[..n], Flat(p.frames), p.rest);
      TakeDrop(a, n);
      hide Flat, Parse;
  }

  ghost predicate AllWellFormed(frames: seq<seq<u8>>) { forall f | f in frames :: WellFormed(f) }

  function Tail(buf: seq<u8>, pos: nat): seq<u8>
    requires pos <= |buf|
  {
    buf[pos..]
  }

  function Cut(buf: seq<u8>, pos: nat, size: nat): seq<u8>
    requires pos + size <= |buf|
  {
    buf[pos..][..size]
  }

  lemma {:induction false} CutSize(buf: seq<u8>, pos: nat, size: nat)
    requires pos + size <= |buf|
    ensures |Cut(buf, pos, size)| == size
  {}

  lemma {:induction false} FramingStart(buf: seq<u8>)
    ensures Tail(buf, 0) == buf && Parse(buf) == After([], Parse(Tail(buf, 0)))
  {}

  /** One round of a framing loop that has cut buf up to pos into the frames done. */
  lemma {:induction false} FramingRound(buf: seq<u8>, pos: nat, done: seq<seq<u8>>)
    requires pos <= |buf| && Parse(buf) == After(done, Parse(Tail(buf, pos))) && AllWellFormed(done)
    ensures match FindFrame(Tail(buf, pos))
            case More => Parse(buf) == Parsed(done, Tail(buf, pos), false)
            case Bad => Parse(buf) == Parsed(done, [], true)
            case Whole(n) =>
              LEGACY_SIZE <= n && pos + n <= |buf| && WellFormed(Cut(buf, pos, n))
              && AllWellFormed(done + [Cut(buf, pos, n)])
              && Parse(buf) == After(done + [Cut(buf, pos, n)], Parse(Tail(buf, pos + n)))
  {
    hide WellFormed, FindFrame;
    var rest := Tail(buf, pos);
    assert done + [] == done;
    match FindFrame(rest)
    case More =>
    case Bad =>
    case Whole(n) =>
      FrameFound(rest);
      SliceOfTail(buf, pos, n);
      Assoc(done, [rest[..n]], Parse(rest[n..]).frames);
      AllSnoc(done, rest[..n]);
  }

  lemma {:induction false} AllSnoc(frames: seq<seq<u8>>, frame: seq<u8>)
    requires AllWellFormed(frames) && WellFormed(frame)
    ensures AllWellFormed(frames + [frame])
  {
    hide WellFormed;
  }

  /** A partial frame: a proper prefix of some whole frame. */
  ghost predicate Partial(tail: seq<u8>) {
    exists f :: WellFormed(f) && |tail| < |f| && f[..|tail|] == tail
  }

  /** A well-formed stream gives back exactly its frames. */
  lemma {:induction false} ParseFlat(frames: seq<seq<u8>>, tail: seq<u8>)
    requires (forall f | f in frames :: WellFormed(f)) && Partial(tail)
    ensures Parse(Flat(frames) + tail) == Parsed(frames, tail, false)
  {
    var buf := Flat(frames) + tail;
    if frames == [] {
      assert buf == tail;
      var f :| WellFormed(f) && |tail| < |f| && f[..|tail|] == tail;
      FindPartial(f, |tail|);
    } else {
      var f := frames[0];
      assert f in frames;
      FindWellFormed(f);
      hide FindFrame, WellFormed;
      assert buf == f + (Flat(frames[1..]) + tail);
      FindExtends(f, Flat(frames[1..]) + tail);
      FrameFound(buf);
      ParseFlat(frames[1..], tail);
      assert buf[..|f|] == f && buf[|f|..] == Flat(frames[1..]) + tail;
      assert [f] + frames[1..] == frames;
    }
  }

  // ---- Many links, arbitrary cuts ----

  datatype Arrival<L> = Arrival(link: L, bytes: seq<u8>)

  /** The per-link reassembly buffers. */
  function Held<L>(scratch: map<L, seq<u8>>, link: L): seq<u8> {
    if link in scratch then scratch[link] else []
  }

  /** The frames that a run of arrivals yields, in the order they complete. */
  function Yield<L>(scratch: map<L, seq<u8>>, run: seq<Arrival<L>>): seq<(L, seq<u8>)>
    decreases |run|
  {
    if run == [] then []
    else
      var p := Parse(Held(scratch, run[0].link) + run[0].bytes);
      Tagged(run[0].link, p.frames) + Yield(scratch[run[0].link := p.rest], run[1..])
  }

  function Buffers<L>(scratch: map<L, seq<u8>>, run: seq<Arrival<L>>): map<L, seq<u8>>
    decreases |run|
  {
    if run == [] then scratch
    else Buffers(scratch[run[0].link := Parse(Held(scratch, run[0].link) + run[0].bytes).rest], run[1..])
  }

  function Tagged<L>(link: L, frames: seq<seq<u8>>): (t: seq<(L, seq<u8>)>)
    ensures |t| == |frames| && forall i | 0 <= i < |t| :: t[i] == (link, frames[i])
  {
    if frames == [] then [] else [(link, frames[0])] + Tagged(link, frames[1..])
  }

  /** The part of a yield that came from one link. */
  function From<L(==)>(yield_: seq<(L, seq<u8>)>, link: L): seq<seq<u8>> {
    if yield_ == [] then []
    else (if yield_[0].0 == link then [yield_[0].1] else []) + From(yield_[1..], link)
  }

  /** All bytes that a run brings on one link. */
  function Stream<L(==)>(run: seq<Arrival<L>>, link: L): seq<u8> {
    if run == [] then []
    else (if run[0].link == link then run[0].bytes else []) + Stream(run[1..], link)
  }

  lemma {:induction false} FromAppend<L>(a: seq<(L, seq<u8>)>, b: seq<(L, seq<u8>)>, link: L)
    ensures From(a + b, link) == From(a, link) + From(b, link)
  {
    if a == [] {
      assert a + b == b;
    } else {
      assert (a + b)[1..] == a[1..] + b;
      FromAppend(a[1..], b, link);
    }
  }

  lemma {:induction false} FromTagged<L>(l: L, frames: seq<seq<u8>>, link: L)
    ensures From(Tagged(l, frames), link) == if l == link then frames else []
  {
    if frames != [] {
      assert Tagged(l, frames)[1..] == Tagged(l, frames[1..]);
      FromTagged(l, frames[1..], link);
    }
  }

  /** One arrival: its link goes on from its own remainder, the others wait. */
  lemma {:induction false} ArrivalStep<L>(scratch: map<L, seq<u8>>, run: seq<Arrival<L>>, link: L)
    requires run != [] && run[0].link == link
    requires !Parse(Held(scratch, link) + Stream(run, link)).bad
    ensures var p := Parse(Held(scratch, link) + run[0].bytes);
            !p.bad && Parse(p.rest) == Parsed([], p.rest, false)
            && Parse(Held(scratch, link) + Stream(run, link)) == After(p.frames, Parse(p.rest + Stream(run[1..], link)))
  {
    var a, b := Held(scratch, link) + run[0].bytes, Stream(run[1..], link);
    assert Stream(run, link) == run[0].bytes + b;
    hide *;
    Assoc(Held(scratch, link), run[0].bytes, b);
    if Parse(a).bad {
      ParseBad(a, b);
    } else {
      ParseAppend(a, b);
      RestIsQuiet(a);
    }
  }

  /** Whatever the cuts and the interleaving, each link yields the frames of its
      own byte stream and keeps the same remainder. */
  lemma {:induction false} YieldPerLink<L>(scratch: map<L, seq<u8>>, run: seq<Arrival<L>>, link: L)
    requires !Parse(Held(scratch, link) + Stream(run, link)).bad
    requires Parse(Held(scratch, link)) == Parsed([], Held(scratch, link), false)
    ensures From(Yield(scratch, run), link) == Parse(Held(scratch, link) + Stream(run, link)).frames
    ensures Held(Buffers(scratch, run), link) == Parse(Held(scratch, link) + Stream(run, link)).rest
    decreases |run|
  {
    hide Parse;
    if run == [] {
      assert Held(scratch, link) + [] == Held(scratch, link);
    } else {
      var l := run[0].link;
      var p := Parse(Held(scratch, l) + run[0].bytes);
      FromAppend(Tagged(l, p.frames), Yield(scratch[l := p.rest], run[1..]), link);
      FromTagged(l, p.frames, link);
      if l == link {
        ArrivalStep(scratch, run, link);
      } else {
        assert [] + Stream(run[1..], link) == Stream(run[1..], link);
      }
      YieldPerLink(scratch[l := p.rest], run[1..], link);
    }
  }

  /** What Parse keeps holds no whole frame. */
  lemma {:induction false} RestIsQuiet(a: seq<u8>)
    requires !Parse(a).bad
    ensures Parse(Parse(a).rest) == Parsed([], Parse(a).rest, false)
    decreases |a|
  {
    hide FindFrame, WellFormed;
    match FindFrame(a)
    case More =>
    case Bad =>
    case Whole(n) =>
      FrameFound(a);
      RestIsQuiet(a[n..]);
  }

  /** Fragmentation independence: if the bytes of a link are whole frames and a
      partial one, any run that carries them yields exactly those frames on that
      link and holds back the partial one. */
  lemma {:induction false} FragmentationIndependence<L>(run: seq<Arrival<L>>, link: L, frames: seq<seq<u8>>,
        tail: seq<u8>)
    requires (forall f | f in frames :: WellFormed(f)) && Partial(tail)
    requires Stream(run, link) == Flat(frames) + tail
    ensures From(Yield(map[], run), link) == frames
    ensures Held(Buffers(map[], run), link) == tail
  {
    ParseFlat(frames, tail);
    assert [] + Stream(run, link) == Stream(run, link);
    YieldPerLink(map[], run, link);
  }
}
