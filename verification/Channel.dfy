/** The liveness of one link, which selection reads: a receive clock of 32 bits, and
    the heartbeat check that marks a silent link as stalled. */
module Channel {
  import opened Words

  datatype Liveness = Liveness(connected: bool, stalled: bool, lastRx: u32)

  /** Milliseconds as zce_tick() reports them, from an unbounded clock. */
  function Tick(time: nat): u32 { time % TWO32 }

  predicate Stalled(now: u32, lastRx: u32, timeout: u32) { Sub32(now, lastRx) > timeout }

  datatype Event = Connected(time: nat) | Dropped(time: nat) | Received(time: nat) | Checked(time: nat, timeout: u32)

  function Do(c: Liveness, e: Event): Liveness {
    match e
    case Connected(t) => c.(connected := true, lastRx := Tick(t))
    case Dropped(_) => c.(connected := false)
    case Received(t) => c.(stalled := false, lastRx := Tick(t))
    case Checked(t, timeout) => c.(stalled := Stalled(Tick(t), c.lastRx, timeout))
  }

  const DOWN := Liveness(false, false, 0)

  function After(events: seq<Event>): Liveness {
    if events == [] then DOWN else Do(After(events[..|events| - 1]), events[|events| - 1])
  }

  /** The events come in the order of their times, as the quality lock makes sure. */
  predicate InOrder(events: seq<Event>) { forall i, j | 0 <= i < j < |events| :: events[i].time <= events[j].time }

  /** When the link last connected or received; 0 if never. */
  function LastActivity(events: seq<Event>): nat {
    if events == [] then 0
    else
      match events[|events| - 1]
      case Connected(t) => t
      case Received(t) => t
      case _ => LastActivity(events[..|events| - 1])
  }

  lemma {:induction false} ClockFollows(events: seq<Event>)
    requires InOrder(events)
    ensures After(events).lastRx == Tick(LastActivity(events))
    ensures events != [] ==> LastActivity(events) <= events[|events| - 1].time
  {
    if events != [] {
      ClockFollows(events[..|events| - 1]);
    }
  }

  lemma {:induction false} TickDifference(a: nat, b: nat)
    requires a <= b
    ensures Sub32(Tick(b), Tick(a)) == (b - a) % TWO32
  {}

  /** A check finds the link stalled exactly if its silence, modulo the clock's
      wrap-around, exceeds the timeout: in particular the tick's own wrap never
      stalls a link that has just received. */
  lemma {:induction false} CheckedIff(events: seq<Event>, time: nat, timeout: u32)
    requires InOrder(events + [Checked(time, timeout)])
    ensures var silence := time - LastActivity(events);
            && silence >= 0
            && (After(events + [Checked(time, timeout)]).stalled <==> silence % TWO32 > timeout)
            && (silence < TWO32 ==> (After(events + [Checked(time, timeout)]).stalled <==> silence > timeout))
  {
    var all := events + [Checked(time, timeout)];
    assert all[..|events|] == events;
    assert forall i | 0 <= i < |events| :: events[i] == all[i];
    ClockFollows(events);
    if events != [] {
      assert all[|events| - 1].time <= all[|events|].time;
    }
    TickDifference(LastActivity(events), time);
  }

  /** The verdict is right exactly if the silence is within the timeout, or still
      exceeds it after the wrap: a link silent for 2^32 ticks looks fresh again. */
  lemma {:induction false} VerdictRightIff(events: seq<Event>, time: nat, timeout: u32)
    requires InOrder(events + [Checked(time, timeout)])
    ensures var silence := time - LastActivity(events);
            (After(events + [Checked(time, timeout)]).stalled <==> silence > timeout)
            <==> (silence <= timeout || silence % TWO32 > timeout)
  {
    CheckedIff(events, time, timeout);
  }

  lemma {:induction false} WrapLooksFresh(timeout: u32)
    ensures !After([Connected(0), Checked(TWO32, timeout)]).stalled
  {
    var all := [Connected(0), Checked(TWO32, timeout)];
    assert all[..1] == [Connected(0)] && all[..1][..0] == [];
  }

  /** Reconnecting alone does not bring a stalled link back; traffic does. */
  lemma {:induction false} RecoversOnTraffic(events: seq<Event>, time: nat)
    ensures After(events + [Received(time)]).stalled == false
    ensures After(events + [Connected(time)]).stalled == After(events).stalled
  {
    assert (events + [Received(time)])[..|events|] == events;
    assert (events + [Connected(time)])[..|events|] == events;
  }

  /** Whether the last of the connects and drops was a connect. */
  ghost predicate LastIsConnect(events: seq<Event>) {
    exists i :: 0 <= i < |events| && events[i].Connected? && forall j | i < j < |events| :: !events[j].Dropped?
  }

  lemma {:induction false} ConnectedIff(events: seq<Event>)
    ensures After(events).connected <==> LastIsConnect(events)
  {
    if events != [] {
      var n := |events| - 1;
      var init := events[..n];
      ConnectedIff(init);
      match events[n]
      case Connected(_) => assert events[n].Connected?;
      case Dropped(_) =>
        assert !LastIsConnect(events) by { assert events[n].Dropped?; }
      case _ => OtherEvent(init, events[n]); assert events == init + [events[n]];
    }
  }

  lemma {:induction false} OtherEvent(events: seq<Event>, e: Event)
    requires !e.Connected? && !e.Dropped?
    ensures LastIsConnect(events + [e]) <==> LastIsConnect(events)
  {
    var all := events + [e];
    if LastIsConnect(events) {
      var i :| 0 <= i < |events| && events[i].Connected? && forall j | i < j < |events| :: !events[j].Dropped?;
      assert all[i].Connected? && forall j | i < j < |events| :: all[j] == events[j];
    }
    if LastIsConnect(all) {
      var i :| 0 <= i < |all| && all[i].Connected? && forall j | i < j < |all| :: !all[j].Dropped?;
      assert events[i].Connected? && forall j | i < j < |events| :: events[j] == all[j];
    }
  }

  /** A link is used if it is connected and not stalled: right after a check, exactly if
      its last connect was not followed by a drop, and its silence modulo 2^32 is within
      the timeout. */
  lemma {:induction false} LiveIff(events: seq<Event>, time: nat, timeout: u32)
    requires InOrder(events + [Checked(time, timeout)])
    ensures var c := After(events + [Checked(time, timeout)]);
            c.connected && !c.stalled
            <==> LastIsConnect(events) && (time - LastActivity(events)) % TWO32 <= timeout
  {
    CheckedIff(events, time, timeout);
    ConnectedIff(events);
    assert (events + [Checked(time, timeout)])[..|events|] == events;
  }

  class IFgwChannel {
    var connected: bool
    var stalled: bool
    var lastRxTick: u32

    ghost function State(): Liveness
      reads this
    {
      Liveness(connected, stalled, lastRxTick)
    }

    constructor ()
      ensures State() == DOWN
    {
      connected, stalled, lastRxTick := false, false, 0;
    }

    /** Selection uses a link that is connected and not stalled. */
    method IsLive() returns (live: bool)
      ensures live == (State().connected && !State().stalled)
    {
      live := connected && !stalled;
    }

    method MarkConnected(up: bool, time: nat)
      modifies this
      ensures State() == Do(old(State()), if up then Connected(time) else Dropped(time))
    {
      connected := up;
      if up { lastRxTick := Tick(time); }
    }

    method AddRecvBytes(time: nat)
      modifies this
      ensures State() == Do(old(State()), Received(time))
    {
      lastRxTick := Tick(time);
      stalled := false;
    }

    method EvaluateStall(time: nat, timeout: u32)
      modifies this
      ensures State() == Do(old(State()), Checked(time, timeout))
    {
      stalled := Sub32(Tick(time), lastRxTick) > timeout;
    }
  }
}
