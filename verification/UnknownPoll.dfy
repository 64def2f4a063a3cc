/**
 src/linux/up-device-supply.c: a battery in an unknown state is refreshed again a second later, a
 bounded number of times.
 */
module UnknownPoll {
  import opened UpTypes
  import opened Wrappers

  const UNKNOWN_RETRIES: nat := 5

  /** A second of the monotonic clock, in microseconds. */
  const SECOND: int := 1_000_000

  /** The known timer, 0 for none, and the live ones. */
  datatype Poll = Poll(timerId: nat, retries: nat, last: int, live: set<nat>)

  const NoPoll: Poll := Poll(0, 0, 0, {})

  /** Whether polling is configured, and whether the machine is one that always needs it. */
  datatype Host = Host(disabled: bool, alwaysPolls: bool)

  function Setup(h: Host, p: Poll, state: DeviceState, now: int, timer: nat): Poll {
    if h.disabled then p
    else if p.retries < UNKNOWN_RETRIES && (state == Unknown || h.alwaysPolls) then
      Poll(timer, p.retries + if now - p.last > SECOND then 1 else 0, now, p.live + {timer})
    else p.(retries := 0)
  }

  function Disabled(p: Poll): Poll {
    if p.timerId > 0 then p.(timerId := 0, live := p.live - {p.timerId}) else p
  }

  /** A refresh of a battery, which is in a state if it is present. */
  function Refreshed(h: Host, p: Poll, state: Option<DeviceState>, now: int, timer: nat): Poll {
    if state.None? then Disabled(p) else Setup(h, Disabled(p), state.value, now, timer)
  }

  /** A timer fires. The callback forgets it and refreshes, and the main loop drops it. */
  function Fired(h: Host, p: Poll, id: nat, state: Option<DeviceState>, now: int, timer: nat): Poll {
    var r := Refreshed(h, p.(timerId := 0), state, now, timer);
    r.(live := r.live - {id})
  }

  datatype Event =
    | EvRefresh(state: Option<DeviceState>, now: int, timer: nat)
    | EvTimer(id: nat, state: Option<DeviceState>, now: int, timer: nat)

  predicate Enabled(p: Poll, e: Event) {
    e.timer > 0 && e.timer !in p.live && (e.EvTimer? ==> e.id in p.live)
  }

  function Step(h: Host, p: Poll, e: Event): Poll {
    match e
    case EvRefresh(state, now, timer) => Refreshed(h, p, state, now, timer)
    case EvTimer(id, state, now, timer) => Fired(h, p, id, state, now, timer)
  }

  class UnknownPoller {
    const host: Host
    var pollTimerId: nat
    var unknownRetries: nat
    var lastUnknownRetry: int

    // The environment: the live timers.
    var live: set<nat>

    ghost function View(): Poll
      reads this
    {
      Poll(pollTimerId, unknownRetries, lastUnknownRetry, live)
    }

    constructor (host: Host)
      ensures this.host == host && View() == NoPoll
    {
      this.host := host;
      pollTimerId, unknownRetries, lastUnknownRetry, live := 0, 0, 0, {};
    }

    method SetupUnknownPoll(state: DeviceState, now: int, timer: nat)
      modifies this
      ensures View() == Setup(host, old(View()), state, now, timer)
    {
      if host.disabled {
        return;
      }
      if unknownRetries < UNKNOWN_RETRIES && (state == Unknown || host.alwaysPolls) {
        pollTimerId := timer;
        live := live + {timer};
        if now - lastUnknownRetry > SECOND {
          unknownRetries := unknownRetries + 1;
        }
        lastUnknownRetry := now;
      } else {
        unknownRetries := 0;
      }
    }

    method DisableUnknownPoll()
      modifies this
      ensures View() == Disabled(old(View()))
    {
      if pollTimerId > 0 {
        live := live - {pollTimerId};
        pollTimerId := 0;
      }
    }

    method Refresh(state: Option<DeviceState>, now: int, timer: nat)
      modifies this
      ensures View() == Refreshed(host, old(View()), state, now, timer)
    {
      DisableUnknownPoll();
      if state.Some? {
        SetupUnknownPoll(state.value, now, timer);
      }
    }

    method PollUnknownBattery(id: nat, state: Option<DeviceState>, now: int, timer: nat)
      requires id in live
      modifies this
      ensures View() == Fired(host, old(View()), id, state, now, timer)
    {
      pollTimerId := 0;
      Refresh(state, now, timer);
      live := live - {id};
    }

    /** The device goes away and leaves no timer behind. */
    method Finalize()
      requires Linked(View())
      modifies this
      ensures live == {}
    {
      if pollTimerId > 0 {
        live := live - {pollTimerId};
      }
    }
  }

  // ----- Whole runs

  function Run(h: Host, events: seq<Event>): Poll {
    if events == [] then NoPoll else Step(h, Run(h, events[..|events| - 1]), events[|events| - 1])
  }

  predicate CanRun(h: Host, events: seq<Event>) {
    events == [] ||
    (CanRun(h, events[..|events| - 1]) && Enabled(Run(h, events[..|events| - 1]), events[|events| - 1]))
  }

  /** At most one timer lives, and it is the one that the device knows. */
  predicate Linked(p: Poll) {
    p.live == (if p.timerId == 0 then {} else {p.timerId}) && p.retries <= UNKNOWN_RETRIES
  }

  lemma {:induction false} RunIsLinked(h: Host, events: seq<Event>)
    requires CanRun(h, events)
    ensures Linked(Run(h, events))
  {
    if events != [] {
      RunIsLinked(h, events[..|events| - 1]);
    }
  }

  /** Every refresh of a present battery that asks for polling, and comes before five were slow, sets the timer
      that it is given, and counts if more than a second went by. Others leave none and start the count
      again, and a refresh of an absent battery only removes the timer. */
  lemma RefreshSetsTimerExactly(h: Host, p: Poll, state: Option<DeviceState>, now: int, timer: nat)
    requires Linked(p) && timer > 0 && timer !in p.live
    ensures var q := Step(h, p, EvRefresh(state, now, timer));
            && (q.timerId == timer <==>
                  state.Some? && !h.disabled && (state.value == Unknown || h.alwaysPolls) && p.retries < 5)
            && (q.live == if q.timerId == timer then {timer} else {})
            && (q.timerId != timer ==> q.timerId == 0 && q.last == p.last)
            && (q.timerId == timer ==> q.last == now && q.retries == p.retries + if now > p.last + 1000000 then 1 else 0)
            && (q.timerId != timer ==> q.retries == if state.None? || h.disabled then p.retries else 0)
  {
  }

  /** A timer that fires has the effect of any other refresh. */
  lemma TimerIsRefresh(h: Host, p: Poll, id: nat, state: Option<DeviceState>, now: int, timer: nat)
    requires Linked(p) && Enabled(p, EvTimer(id, state, now, timer))
    ensures Step(h, p, EvTimer(id, state, now, timer)) == Step(h, p, EvRefresh(state, now, timer))
  {
    assert p.live == {id} && p.timerId == id;
    assert p.live - {p.timerId} == {};
    assert p.live - {id} == {} && p.live + {timer} - {id} == {} + {timer};
  }

  // ----- How long the polling goes on

  /** Refreshes that find an unknown state, each with a timer of its own. */
  function Polled(h: Host, p: Poll, times: seq<int>): Poll {
    if times == [] then p
    else
      var n := |times| - 1;
      Setup(h, Disabled(Polled(h, p, times[..n])), Unknown, times[n], n + 1)
  }

  /** How many of the refreshes come more than a second after the one before them. */
  function Slow(last: int, times: seq<int>): nat {
    if times == [] then 0
    else
      var n := |times| - 1;
      var before := if n == 0 then last else times[n - 1];
      Slow(last, times[..n]) + if times[n] - before > SECOND then 1 else 0
  }

  lemma {:induction false} ChainOfRetries(h: Host, p: Poll, times: seq<int>)
    requires !h.disabled && times != []
    requires p.retries + Slow(p.last, times[..|times| - 1]) < UNKNOWN_RETRIES
    ensures var q := Polled(h, p, times);
            q.timerId == |times| && q.retries == p.retries + Slow(p.last, times) && q.last == times[|times| - 1]
  {
    var n := |times| - 1;
    if n > 0 {
      ChainOfRetries(h, p, times[..n]);
    }
  }

  /** As long as every refresh set a timer, the next one sets one exactly when fewer than five were
      slow. */
  lemma PollsExactlyWhileFew(h: Host, p: Poll, times: seq<int>)
    requires !h.disabled && |times| >= 2
    requires var n := |times| - 1; p.retries + Slow(p.last, times[..n - 1]) < UNKNOWN_RETRIES
    ensures Polled(h, p, times).timerId > 0 <==> p.retries + Slow(p.last, times[..|times| - 1]) < UNKNOWN_RETRIES
  {
    var n := |times| - 1;
    assert times[..n][..n - 1] == times[..n - 1];
    ChainOfRetries(h, p, times[..n]);
  }

  lemma {:induction false} AllSlow(last: int, times: seq<int>)
    requires times != [] ==> times[0] - last > SECOND
    requires forall i :: 0 < i < |times| ==> times[i] - times[i - 1] > SECOND
    ensures Slow(last, times) == |times|
  {
    if times != [] {
      AllSlow(last, times[..|times| - 1]);
    }
  }

  /** Five refreshes, each more than a second after the last one, set a timer, and the sixth does not:
      it starts the count again. */
  lemma PollingEnds(h: Host, p: Poll, times: seq<int>)
    requires !h.disabled && p.retries == 0 && 1 <= |times| <= UNKNOWN_RETRIES + 1
    requires times[0] - p.last > SECOND
    requires forall i :: 0 < i < |times| ==> times[i] - times[i - 1] > SECOND
    ensures var q := Polled(h, p, times);
            if |times| <= UNKNOWN_RETRIES then q.timerId > 0 && q.retries == |times|
            else q.timerId == 0 && q.retries == 0
  {
    var n := |times| - 1;
    AllSlow(p.last, times);
    AllSlow(p.last, times[..n]);
    if n < UNKNOWN_RETRIES {
      ChainOfRetries(h, p, times);
    } else {
      AllSlow(p.last, times[..n][..n - 1]);
      ChainOfRetries(h, p, times[..n]);
    }
  }

  lemma {:induction false} NoneSlow(last: int, times: seq<int>)
    requires times != [] ==> times[0] - last <= SECOND
    requires forall i :: 0 < i < |times| ==> times[i] - times[i - 1] <= SECOND
    ensures Slow(last, times) == 0
  {
    if times != [] {
      NoneSlow(last, times[..|times| - 1]);
    }
  }

  /** Refreshes that are no more than a second apart are not counted: they go on for ever. */
  lemma QuickPollingNeverEnds(h: Host, p: Poll, times: seq<int>)
    requires !h.disabled && p.retries < UNKNOWN_RETRIES && times != []
    requires times[0] - p.last <= SECOND
    requires forall i :: 0 < i < |times| ==> times[i] - times[i - 1] <= SECOND
    ensures Polled(h, p, times).timerId > 0
  {
    NoneSlow(p.last, times[..|times| - 1]);
    ChainOfRetries(h, p, times);
  }
}
