/** Exact reassembly joined to the end-to-end run: when everything that was written is
    delivered. */
module Delivery {
  import opened Words
  import opened Framing
  import opened Reassembly
  import opened StreamSpec
  import opened Runs
  import opened Isolation
  import opened EndToEnd

  /** The events of the receiver in one act. */
  ghost function EventsOf(x: Setting, w: World, a: Act): seq<Op>
    requires Possible(x, w, a)
  {
    match a
    case Reads(p, size) =>
      var bytes := Held(w.scratch, PortOf(p)) + NextBytes(PipeAt(w.pipes, p), size);
      ParseWellFormed(bytes);
      OpsOf(x.far, PortOf(p), Parse(bytes).frames)
    case Does(op) => [op]
    case _ => []
  }

  /** The run of the receiver within the run of the whole. */
  ghost function ReceiverRun(x: Setting, acts: seq<Act>): seq<Op>
    requires ValidConfig(x.near) && WorldAfter(x, acts).Some?
  {
    if acts == [] then []
    else
      var init, a := acts[..|acts| - 1], acts[|acts| - 1];
      ReceiverRun(x, init) + EventsOf(x, WorldAfter(x, init).value, a)
  }

  lemma {:induction false} ActRuns(x: Setting, w: World, a: Act, ops: seq<Op>)
    requires ValidConfig(x.near) && Possible(x, w, a) && w.receiver == Run(x.far, ops)
    ensures DoAct(x, w, a).receiver == Run(x.far, ops + EventsOf(x, w, a))
  {
    assert ops + [] == ops;
    match a
    case Reads(p, size) =>
      var bytes := Held(w.scratch, PortOf(p)) + NextBytes(PipeAt(w.pipes, p), size);
      ParseWellFormed(bytes);
      RunExtends(x.far, ops, PortOf(p), Parse(bytes).frames);
      hide Run, OnFrames, Parse, OpsOf, NextBytes;
    case Does(op) =>
      RunSnoc(x.far, ops, op);
      hide Run, Step;
    case _ => hide Run, Step;
  }

  /** The receiver's state is that of its run. */
  lemma {:induction false} ReceiverRuns(x: Setting, acts: seq<Act>)
    requires ValidConfig(x.near) && WorldAfter(x, acts).Some?
    ensures WorldAfter(x, acts).value.receiver == Run(x.far, ReceiverRun(x, acts))
  {
    if acts != [] {
      var init, a := acts[..|acts| - 1], acts[|acts| - 1];
      ReceiverRuns(x, init);
      ActRuns(x, WorldAfter(x, init).value, a, ReceiverRun(x, init));
      hide Run, DoAct, Possible, EventsOf;
    }
  }

  /** What the incarnation that began after n events of the receiver has accepted. */
  ghost function AcceptedSince(x: Setting, ops: seq<Op>, n: nat): map<u32, seq<u8>>
    requires n <= |ops|
  {
    Accepted(x.far.window, NewSession(true), OffersOf(ops[n..], x.key))
  }

  /** The watched session at the receiver, open with a handler since n events. */
  ghost predicate Listening(x: Setting, ops: seq<Op>, n: nat)
    requires n <= |ops|
  {
    && Fresh(Run(x.far, ops[..n]), x.key) && AllProper(x.far, ops[n..], x.key)
    && StaysOpenFrom(x.far, Run(x.far, ops[..n]), ops[n..], x.key)
    && x.key in Run(x.far, ops).sessions && Run(x.far, ops).sessions[x.key].handler
  }

  lemma {:induction false} ListenerReassembles(x: Setting, ops: seq<Op>, n: nat)
    requires ValidConfig(x.far) && n <= |ops| && Listening(x, ops, n)
    ensures x.key in Run(x.far, ops).sessions
    ensures Reassembled(Run(x.far, ops).sessions[x.key], AcceptedSince(x, ops, n))
  {
    assert ops == ops[..n] + ops[n..];
    RunAppend(x.far, ops[..n], ops[n..]);
    hide Run, Continue, StaysOpenFrom, OffersOf, Accepted, Reassembled, Fresh, AllProper;
    IncarnationReassembles(x.far, Run(x.far, ops[..n]), ops[n..], x.key);
  }

  lemma {:induction false} Caught(key: Key, w: World, acc: map<u32, seq<u8>>)
    requires SenderOk(key, w) && ReceiverOk(key, w.slots, w.receiver) && |w.slots| < TWO32
    requires key in w.receiver.sessions && Reassembled(w.receiver.sessions[key], acc)
    ensures var s := w.receiver.sessions[key];
            && s.expected <= |w.slots| && s.delivered == Reach(w.slots[..s.expected])
            && (s.expected == |w.slots| <==> forall k: u32 | k < |w.slots| :: k in acc)
            && (s.expected == |w.slots| ==> s.delivered == w.written)
  {
    var s := w.receiver.sessions[key];
    if s.expected == |w.slots| {
      assert w.slots[..s.expected] == w.slots;
    }
    hide Reach, AllSent;
  }

  /** End to end, on every run, an open session with a handler waits for the least number
      that it has not accepted, and its handler has been given exactly what the sender
      wrote under the numbers below. So it has been given all that was passed to
      sendSessionData if, and it stands at the sender's next number exactly if, every
      number used has been accepted. */
  lemma {:induction false} EverythingArrives(x: Setting, acts: seq<Act>, n: nat)
    requires ValidConfig(x.near) && ValidConfig(x.far)
    requires WorldAfter(x, acts).Some? && |WorldAfter(x, acts).value.slots| < TWO32
    requires n <= |ReceiverRun(x, acts)| && Listening(x, ReceiverRun(x, acts), n)
    ensures var w, acc := WorldAfter(x, acts).value, AcceptedSince(x, ReceiverRun(x, acts), n);
            && x.key in w.receiver.sessions
            && var s := w.receiver.sessions[x.key];
               && Reassembled(s, acc) && s.expected <= |w.slots| && s.delivered == Reach(w.slots[..s.expected])
               && (s.expected == |w.slots| <==> forall k: u32 | k < |w.slots| :: k in acc)
               && (s.expected == |w.slots| ==> s.delivered == w.written)
  {
    var ops, w := ReceiverRun(x, acts), WorldAfter(x, acts).value;
    ReceiverRuns(x, acts);
    hide WorldAfter, ReceiverRun, Inv, Listening, AcceptedSince, Reassembled, SenderOk, ReceiverOk, Reach;
    ListenerReassembles(x, ops, n);
    RunOk(x, acts);
    InvIs(x.key, w);
    Caught(x.key, w, AcceptedSince(x, ops, n));
  }
}
