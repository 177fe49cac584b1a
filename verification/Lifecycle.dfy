/** When a session's handler is called: at the open, for the data, at the close, and
    at no other time. */
module Lifecycle {
  import opened Words
  import opened Reassembly
  import opened StreamSpec
  import opened Isolation

  /** The calls of the session's handler among these events. */
  function Calls(events: seq<Event>, key: Key): seq<Callback> {
    if events == [] then []
    else
      (match events[0] case Called(k, callback) => if k == key then [callback] else [] case FinSent(_, _) => [])
      + Calls(events[1..], key)
  }

  lemma {:induction false} CallsAppend(a: seq<Event>, b: seq<Event>, key: Key)
    ensures Calls(a + b, key) == Calls(a, key) + Calls(b, key)
  {
    if a == [] {
      assert a + b == b;
    } else {
      assert (a + b)[0] == a[0] && (a + b)[1..] == a[1..] + b;
      CallsAppend(a[1..], b, key);
    }
  }

  /** The segment is neither a duplicate nor data outside the window. */
  predicate Taken(cfg: Config, c: Core, seg: Seg) {
    var kind := if seg.syn then SynKind else if seg.fin then FinKind else DataKind;
    var expected: int := if seg.key in c.sessions then c.sessions[seg.key].expected else 0;
    && DedupKey(seg.key, seg.seqNum, kind) !in c.memory.seen
    && (seg.data && seg.payload != [] ==> (seg.seqNum - expected) % TWO32 < cfg.window)
  }

  lemma {:induction false} TakenIs(cfg: Config, c: Core, link: Link, seg: Seg)
    ensures Taken(cfg, c, seg) ==> Receive(cfg, c, link, seg) == Process(cfg, Noted(cfg, c, link, seg), seg)
    ensures !Taken(cfg, c, seg) ==> Receive(cfg, c, link, seg).1 == []
                                    && Receive(cfg, c, link, seg).0.sessions == c.sessions
  {
    hide Process;
  }

  /** Whether the session's handler is there to be called: that of the session, or the
      one that the unknown-session hook supplies. */
  predicate Listens(cfg: Config, c: Core, key: Key) {
    if key in c.sessions then c.sessions[key].handler else cfg.hasHandler(key)
  }

  lemma {:induction false} CallCalls(cfg: Config, c: Core, key: Key, callback: Callback, before: seq<u8>)
    ensures Calls(Call(cfg, c, key, callback, before).1, key) == [callback]
  {
    var rest := if cfg.reacts(key, callback, before) then Close(c, key).1 else [];
    assert Call(cfg, c, key, callback, before).1 == [Called(key, callback)] + rest;
    assert Calls(rest, key) == [];
    assert ([Called(key, callback)] + rest)[1..] == rest;
  }

  /** The first FIN of an open session with a handler calls onSessionClose, once, and
      calls nothing else; a session without one is closed silently. */
  lemma {:induction false} FinCallsClose(cfg: Config, c: Core, link: Link, seg: Seg)
    requires seg.fin && !seg.syn && Taken(cfg, c, seg)
    ensures var (d, e) := Receive(cfg, c, link, seg);
            && seg.key !in d.sessions
            && Calls(e, seg.key) == if seg.key in c.sessions && c.sessions[seg.key].handler then [OnClose] else []
  {
    var c' := Noted(cfg, c, link, seg);
    TakenIs(cfg, c, link, seg);
    assert Process(cfg, c', seg) == OnFin(cfg, c', seg.key);
    if seg.key in c.sessions {
      CallCalls(cfg, c', seg.key, OnClose, c.sessions[seg.key].delivered);
    }
    hide Receive, Call;
  }

  /** An accepted SYN makes the session known and calls onSessionOpen, once, and nothing
      else; unless that closes the session, it is open afterwards. */
  lemma {:induction false} SynCallsOpen(cfg: Config, c: Core, link: Link, seg: Seg)
    requires seg.syn && !seg.fin && !Carries(seg) && Taken(cfg, c, seg)
    ensures var (d, e) := Receive(cfg, c, link, seg);
            && Calls(e, seg.key) == (if Listens(cfg, c, seg.key) then [OnOpen] else [])
            && (seg.key !in d.sessions ==> Listens(cfg, c, seg.key) && exists b :: cfg.reacts(seg.key, OnOpen, b))
  {
    var c' := Noted(cfg, c, link, seg);
    var d := Ensure(cfg, c', seg.key);
    TakenIs(cfg, c, link, seg);
    var (t, e) := OnSyn(cfg, c', seg.key);
    assert e + [] == e && Body(cfg, t, seg) == (t, []);
    assert Process(cfg, c', seg) == (t, e);
    CallCalls(cfg, d, seg.key, OnOpen, d.sessions[seg.key].delivered);
    hide Receive;
  }

  predicate AllData(calls: seq<Callback>) { forall x | x in calls :: x.OnData? && x.bytes != [] }

  lemma {:induction false} CallDataCalls(cfg: Config, c: Core, key: Key, blocks: seq<seq<u8>>, before: seq<u8>)
    ensures AllData(Calls(CallData(cfg, c, key, blocks, before).1, key))
    decreases |blocks|
  {
    if blocks != [] {
      if blocks[0] == [] {
        CallDataCalls(cfg, c, key, blocks[1..], before);
      } else {
        var (d, e) := Call(cfg, c, key, OnData(blocks[0]), before);
        var rest := CallData(cfg, d, key, blocks[1..], before + blocks[0]).1;
        CallCalls(cfg, c, key, OnData(blocks[0]), before);
        CallDataCalls(cfg, d, key, blocks[1..], before + blocks[0]);
        CallsAppend(e, rest, key);
        assert CallData(cfg, c, key, blocks, before).1 == e + rest;
        hide Call, CallData, Calls;
      }
    }
  }

  lemma {:induction false} PayloadCalls(cfg: Config, c: Core, seg: Seg)
    ensures AllData(Calls(OnPayload(cfg, c, seg).1, seg.key))
  {
    var d := Ensure(cfg, c, seg.key);
    var s := Insert(d.sessions[seg.key], seg.seqNum, seg.payload);
    CallDataCalls(cfg, d.(sessions := d.sessions[seg.key := Deliver(s)]), seg.key, Blocks(s), s.delivered);
    hide CallData;
  }

  lemma {:induction false} BodyCalls(cfg: Config, c: Core, seg: Seg)
    ensures var calls := Calls(Body(cfg, c, seg).1, seg.key);
            if seg.fin then calls == [] || calls == [OnClose] else AllData(calls)
  {
    PayloadCalls(cfg, c, seg);
    if seg.fin && seg.key in c.sessions {
      CallCalls(cfg, c, seg.key, OnClose, c.sessions[seg.key].delivered);
    }
    hide OnPayload, Call;
  }

  /** What any segment may call, in this order: onSessionOpen if it is a SYN, and then
      onSessionClose if it is a FIN, and otherwise nothing but data, no piece of it empty. */
  lemma {:induction false} WhatIsCalled(cfg: Config, c: Core, link: Link, seg: Seg)
      returns (opens: seq<Callback>, rest: seq<Callback>)
    ensures Calls(Receive(cfg, c, link, seg).1, seg.key) == opens + rest
    ensures opens == [] || (seg.syn && opens == [OnOpen])
    ensures if seg.fin then rest == [] || rest == [OnClose] else AllData(rest)
  {
    TakenIs(cfg, c, link, seg);
    opens, rest := [], [];
    if Taken(cfg, c, seg) {
      var c' := Noted(cfg, c, link, seg);
      if seg.syn {
        var (d, e) := OnSyn(cfg, c', seg.key);
        var b := Body(cfg, d, seg).1;
        opens := Calls(e, seg.key);
        var m := Ensure(cfg, c', seg.key);
        CallCalls(cfg, m, seg.key, OnOpen, m.sessions[seg.key].delivered);
        if seg.key in d.sessions {
          BodyCalls(cfg, d, seg);
          CallsAppend(e, b, seg.key);
          rest := Calls(b, seg.key);
        }
      } else {
        BodyCalls(cfg, c', seg);
        rest := Calls(Body(cfg, c', seg).1, seg.key);
      }
    }
    hide Receive, Call, Body;
    assert opens + [] == opens && [] + rest == rest;
  }

  lemma {:induction false} NoneOfOther(events: seq<Event>, key: Key)
    requires forall e | e in events :: e.key != key
    ensures Calls(events, key) == []
  {
    if events != [] {
      assert events[0] in events;
      assert forall e | e in events[1..] :: e in events;
      NoneOfOther(events[1..], key);
    }
  }

  /** No segment calls the handler of another session; one that is not taken calls nobody. */
  lemma {:induction false} OthersAreNotCalled(cfg: Config, c: Core, link: Link, seg: Seg, key: Key)
    requires key != seg.key || !Taken(cfg, c, seg)
    ensures Calls(Receive(cfg, c, link, seg).1, key) == []
  {
    TakenIs(cfg, c, link, seg);
    hide Receive;
    if Taken(cfg, c, seg) {
      ProcessOwn(cfg, Noted(cfg, c, link, seg), seg);
      NoneOfOther(Receive(cfg, c, link, seg).1, key);
    }
  }
}
