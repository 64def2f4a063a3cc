/**
 src/up-daemon.c: the registry of polled devices. A registered device has a timer whose interval
 follows its warning level; suspending pauses all timers and resuming brings them back.

 PollDaemon has the daemon's hash tables. Registry is the value it stands for.
 */
module PollRegistry {
  import opened UpTypes
  import opened Wrappers

  type Device = nat
  type Callback = nat

  const SHORT_TIMEOUT: nat := 30
  const LONG_TIMEOUT: nat := 120

  function Interval(level: DeviceLevel): nat {
    if level.Rank() >= LevelDischarging.Rank() then SHORT_TIMEOUT else LONG_TIMEOUT
  }

  function LevelOf(levels: map<Device, DeviceLevel>, d: Device): DeviceLevel {
    if d in levels then levels[d] else LevelUnknown
  }

  /** The registered callbacks, the live timers with their intervals, and the devices whose warning
      level is watched. */
  datatype Registry = Registry(
    callbacks: map<Device, Callback>,
    paused: bool,
    timers: map<Device, nat>,
    handlers: set<Device>,
    levels: map<Device, DeviceLevel>)
  {
    function IntervalOf(d: Device): nat { Interval(LevelOf(levels, d)) }

    function Start(d: Device, callback: Callback): Registry {
      if d in callbacks then this
      else if paused then this.(callbacks := callbacks[d := callback])
      else this.(callbacks := callbacks[d := callback], timers := timers[d := IntervalOf(d)], handlers := handlers + {d})
    }

    function Stop(d: Device): Registry {
      this.(callbacks := callbacks - {d}, timers := timers - {d}, handlers := handlers - {d})
    }

    function Pause(): Registry {
      this.(paused := true, timers := map[], handlers := {})
    }

    function Resume(): Registry {
      this.(paused := false, timers := map d | d in callbacks :: IntervalOf(d), handlers := callbacks.Keys)
    }

    /** A device changes its level; a watched one is stopped and started again. */
    function SetLevel(d: Device, level: DeviceLevel): Registry {
      if LevelOf(levels, d) == level then this
      else
        var changed := this.(levels := levels[d := level]);
        if d in handlers && d in callbacks then changed.Stop(d).Start(d, callbacks[d]) else changed
    }
  }

  const NoDevices: Registry := Registry(map[], false, map[], {}, map[])

  /** What holds between any two operations. */
  predicate Consistent(r: Registry) {
    if r.paused then r.timers == map[] && r.handlers == {}
    else
      && r.timers.Keys == r.callbacks.Keys == r.handlers
      && forall d :: d in r.timers ==> r.timers[d] == r.IntervalOf(d)
  }

  /** A paused registry in which all devices but some have been resumed. */
  ghost function PartlyResumed(r: Registry, rest: set<Device>): Registry {
    r.(timers := map d | d in r.callbacks.Keys - rest :: r.IntervalOf(d), handlers := r.callbacks.Keys - rest)
  }

  lemma PartlyResumedStep(r: Registry, rest: set<Device>, d: Device)
    requires d in rest && rest <= r.callbacks.Keys
    ensures var before := PartlyResumed(r, rest);
            PartlyResumed(r, rest - {d}) ==
            before.(timers := before.timers[d := r.IntervalOf(d)], handlers := before.handlers + {d})
  {
    assert PartlyResumed(r, rest - {d}).timers == PartlyResumed(r, rest).timers[d := r.IntervalOf(d)];
  }

  lemma PartlyResumedEnds(r: Registry)
    ensures r.timers == map[] && r.handlers == {} ==> PartlyResumed(r, r.callbacks.Keys) == r
    ensures PartlyResumed(r, {}).(paused := false) == r.Resume()
  {
    assert PartlyResumed(r, {}).timers == r.Resume().timers;
    assert PartlyResumed(r, r.callbacks.Keys).timers == map[];
  }

  datatype TimeoutData = TimeoutData(id: nat, timeout: nat, callback: Callback)

  /** A live timer of the main loop. */
  datatype Source = Source(device: Device, interval: nat)

  /** Each live timer is the one that its device's record names, and no record names another. */
  predicate TimersAgree(sources: map<nat, Source>, records: map<Device, TimeoutData>, timers: map<Device, nat>, next: nat) {
    && next > 0
    && (forall id :: id in sources ==>
          0 < id < next && sources[id].device in records && records[sources[id].device].id == id)
    && (forall d :: d in records ==>
          if records[d].id == 0 then d !in timers
          else
            && records[d].id in sources && sources[records[d].id] == Source(d, records[d].timeout)
            && d in timers && timers[d] == records[d].timeout)
    && timers.Keys <= records.Keys
  }

  lemma AddKeepsTimers(sources: map<nat, Source>, records: map<Device, TimeoutData>, timers: map<Device, nat>, next: nat,
                       d: Device, timeout: nat)
    requires TimersAgree(sources, records, timers, next) && d in records && d !in timers
    ensures TimersAgree(sources[next := Source(d, timeout)],
                        records[d := TimeoutData(next, timeout, records[d].callback)], timers[d := timeout], next + 1)
  {
  }

  lemma DropKeepsTimers(sources: map<nat, Source>, records: map<Device, TimeoutData>, timers: map<Device, nat>, next: nat,
                        d: Device)
    requires TimersAgree(sources, records, timers, next) && d in records
    ensures records[d].id == 0 ==> timers - {d} == timers
    ensures records[d].id != 0 ==>
              TimersAgree(sources - {records[d].id}, records[d := records[d].(id := 0)], timers - {d}, next)
  {
  }

  /** Each timer of the registry is one live timer of the main loop, for its device and with its interval, and
      the main loop has no other; the next id is free. */
  lemma TimersAreSources(sources: map<nat, Source>, records: map<Device, TimeoutData>, timers: map<Device, nat>, next: nat)
    requires TimersAgree(sources, records, timers, next)
    ensures forall d :: d in timers ==> exists id :: id in sources && sources[id] == Source(d, timers[d])
    ensures forall id :: id in sources ==> sources[id].device in timers && 0 < id < next
    ensures forall i, j :: i in sources && j in sources && sources[i].device == sources[j].device ==> i == j
  {
    forall d | d in timers ensures exists id :: id in sources && sources[id] == Source(d, timers[d]) {
      assert records[d].id in sources;
    }
  }

  predicate RecordsAgree(records: map<Device, TimeoutData>, callbacks: map<Device, Callback>) {
    callbacks.Keys == records.Keys && forall d :: d in records ==> callbacks[d] == records[d].callback
  }

  /** A device in the table of handlers has one handler, and any other has none. */
  predicate SignalsAgree(connected: map<nat, Device>, signals: map<Device, nat>, handlers: set<Device>, next: nat) {
    && handlers == signals.Keys
    && (forall h :: h in connected ==> 0 < h < next && connected[h] in signals && signals[connected[h]] == h)
    && (forall d :: d in signals ==> signals[d] in connected && connected[signals[d]] == d)
  }

  /** Each watched device has exactly one connected handler, and no other device has one. */
  lemma HandlersAreConnected(connected: map<nat, Device>, signals: map<Device, nat>, handlers: set<Device>, next: nat)
    requires SignalsAgree(connected, signals, handlers, next)
    ensures forall d :: d in handlers <==> exists h :: h in connected && connected[h] == d
    ensures forall i, j :: i in connected && j in connected && connected[i] == connected[j] ==> i == j
    ensures forall h :: h in connected ==> 0 < h < next
  {
    forall d | d in handlers ensures exists h :: h in connected && connected[h] == d {
      assert signals[d] in connected;
    }
  }

  class PollDaemon {
    var pollTimeouts: map<Device, TimeoutData>
    var pollPaused: bool
    var idleSignals: map<Device, nat>

    // The environment: live timers and connected handlers by id, and the devices' levels.
    var sources: map<nat, Source>
    var connected: map<nat, Device>
    var levels: map<Device, DeviceLevel>
    var nextId: nat

    ghost var view: Registry

    ghost predicate TimersLinked()
      reads this
    {
      TimersAgree(sources, pollTimeouts, view.timers, nextId)
    }

    ghost predicate RecordsLinked()
      reads this
    {
      RecordsAgree(pollTimeouts, view.callbacks) && view.paused == pollPaused && view.levels == levels
    }

    ghost predicate SignalsLinked()
      reads this
    {
      SignalsAgree(connected, idleSignals, view.handlers, nextId)
    }

    /** The tables agree with each other and with the abstract registry. */
    ghost predicate Linked()
      reads this
    {
      TimersLinked() && RecordsLinked() && SignalsLinked()
    }

    ghost predicate Valid()
      reads this
    {
      Linked() && Consistent(view)
    }

    constructor ()
      ensures Valid() && view == NoDevices
    {
      pollTimeouts, pollPaused, idleSignals := map[], false, map[];
      sources, connected, levels, nextId := map[], map[], map[], 1;
      view := NoDevices;
    }

    method EnablePoll(d: Device)
      requires Linked() && d in pollTimeouts && d !in view.timers
      modifies this`pollTimeouts, this`sources, this`nextId, this`view
      ensures Linked() && view == old(view).(timers := old(view).timers[d := old(view).IntervalOf(d)])
    {
      var timeout := Interval(LevelOf(levels, d));
      var id := nextId;
      AddKeepsTimers(sources, pollTimeouts, view.timers, id, d, timeout);
      nextId := nextId + 1;
      sources := sources[id := Source(d, timeout)];
      pollTimeouts := pollTimeouts[d := TimeoutData(id, timeout, pollTimeouts[d].callback)];
      view := view.(timers := view.timers[d := timeout]);
    }

    method DisablePoll(d: Device)
      requires Linked() && d in pollTimeouts
      modifies this`pollTimeouts, this`sources, this`view
      ensures Linked() && view == old(view).(timers := old(view).timers - {d})
    {
      var data := pollTimeouts[d];
      DropKeepsTimers(sources, pollTimeouts, view.timers, nextId, d);
      if data.id != 0 {
        sources := sources - {data.id};
        pollTimeouts := pollTimeouts[d := data.(id := 0)];
      }
      view := view.(timers := view.timers - {d});
    }

    method EnableNotifications(d: Device)
      requires Linked() && d !in view.handlers
      modifies this`connected, this`idleSignals, this`nextId, this`view
      ensures Linked() && view == old(view).(handlers := old(view).handlers + {d})
    {
      var id := nextId;
      nextId := nextId + 1;
      connected := connected[id := d];
      idleSignals := idleSignals[d := id];
      view := view.(handlers := view.handlers + {d});
    }

    method DisableNotifications(d: Device)
      requires Linked()
      modifies this`connected, this`idleSignals, this`view
      ensures Linked() && view == old(view).(handlers := old(view).handlers - {d})
    {
      if d !in idleSignals {
        return;
      }
      var id := idleSignals[d];
      if id in connected {
        connected := connected - {id};
      }
      idleSignals := idleSignals - {d};
      view := view.(handlers := view.handlers - {d});
    }

    /** A new record has no timer yet. */
    method InsertRecord(d: Device, callback: Callback)
      requires Linked() && d !in view.callbacks
      modifies this`pollTimeouts, this`view
      ensures Linked() && view == old(view).(callbacks := old(view).callbacks[d := callback])
    {
      pollTimeouts := pollTimeouts[d := TimeoutData(0, 0, callback)];
      view := view.(callbacks := view.callbacks[d := callback]);
    }

    method RemoveRecord(d: Device)
      requires Linked() && d !in view.timers
      modifies this`pollTimeouts, this`view
      ensures Linked() && view == old(view).(callbacks := old(view).callbacks - {d})
    {
      pollTimeouts := pollTimeouts - {d};
      view := view.(callbacks := view.callbacks - {d});
    }

    method StartPoll(d: Device, callback: Callback)
      requires Linked() && (d in view.handlers ==> d in view.callbacks)
      requires d in view.timers ==> d in view.callbacks
      modifies this
      ensures Linked() && view == old(view).Start(d, callback)
    {
      if d in pollTimeouts {
        return;
      }
      InsertRecord(d, callback);
      if pollPaused {
        return;
      }
      EnableNotifications(d);
      EnablePoll(d);
    }

    method StopPoll(d: Device)
      requires Linked()
      modifies this
      ensures Linked() && view == old(view).Stop(d)
    {
      DisableNotifications(d);
      if d in pollTimeouts {
        DisablePoll(d);
        RemoveRecord(d);
      } else {
        assert view.timers - {d} == view.timers && view.callbacks - {d} == view.callbacks;
      }
    }

    method PausePoll()
      requires Linked() && view.handlers <= view.callbacks.Keys
      modifies this
      ensures Linked() && view == old(view).Pause()
    {
      pollPaused := true;
      view := view.(paused := true);
      var rest := pollTimeouts.Keys;
      while rest != {}
        invariant Linked() && rest <= pollTimeouts.Keys
        invariant view == old(view).(paused := true, timers := view.timers, handlers := view.handlers)
        invariant view.timers.Keys <= rest && view.handlers <= rest
      {
        var d :| d in rest;
        DisablePoll(d);
        DisableNotifications(d);
        rest := rest - {d};
      }
    }

    /** A resume belongs to a pause: without one each device would get a second timer. */
    method ResumePoll()
      requires Linked() && view.timers == map[] && view.handlers == {}
      modifies this
      ensures Linked() && view == old(view).Resume()
    {
      var rest := pollTimeouts.Keys;
      ghost var r := view;
      PartlyResumedEnds(r);
      while rest != {}
        invariant Linked() && rest <= r.callbacks.Keys
        invariant view == PartlyResumed(r, rest)
      {
        var d :| d in rest;
        EnableBoth(d);
        PartlyResumedStep(r, rest, d);
        rest := rest - {d};
      }
      Unpause();
    }

    method EnableBoth(d: Device)
      requires Linked() && d in pollTimeouts && d !in view.timers && d !in view.handlers
      modifies this`pollTimeouts, this`sources, this`connected, this`idleSignals, this`nextId, this`view
      ensures Linked()
      ensures view == old(view).(timers := old(view).timers[d := old(view).IntervalOf(d)],
                                 handlers := old(view).handlers + {d})
    {
      EnablePoll(d);
      EnableNotifications(d);
    }

    method Unpause()
      requires Linked()
      modifies this`pollPaused, this`view
      ensures Linked() && view == old(view).(paused := false)
    {
      pollPaused := false;
      view := view.(paused := false);
    }

    /** The handler of a change of the warning level. */
    method ChangeIdleTimeout(d: Device)
      requires Linked() && d in view.callbacks
      modifies this
      ensures Linked() && view == old(view).Stop(d).Start(d, old(view).callbacks[d])
    {
      var callback := pollTimeouts[d].callback;
      StopPoll(d);
      StartPoll(d, callback);
    }

    /** The property changes, which calls the handler if one is connected. */
    method SetWarningLevel(d: Device, level: DeviceLevel)
      requires Linked() && view.handlers <= view.callbacks.Keys
      modifies this
      ensures Linked() && view == old(view).SetLevel(d, level)
    {
      if LevelOf(levels, d) == level {
        return;
      }
      levels := levels[d := level];
      view := view.(levels := levels);
      if d in idleSignals {
        ChangeIdleTimeout(d);
      }
    }

    /** A timer fires. The assertion of the C code, that its device has a record, is proved. */
    method FireTimeout(id: nat) returns (callback: Callback)
      requires Linked() && id in sources
      ensures sources[id].device in view.callbacks && callback == view.callbacks[sources[id].device]
    {
      var device := sources[id].device;
      assert device in pollTimeouts;
      callback := pollTimeouts[device].callback;
    }

    /** The weak reference to a device that goes away. */
    method DeviceDestroyed(d: Device)
      requires Linked()
      modifies this
      ensures Linked()
      ensures view == old(view).(callbacks := old(view).callbacks - {d}, timers := old(view).timers - {d})
    {
      if d in pollTimeouts {
        DisablePoll(d);
        RemoveRecord(d);
      } else {
        assert view.timers - {d} == view.timers && view.callbacks - {d} == view.callbacks;
      }
    }

    /** A device goes away: the weak reference drops its timer and record, and the finalizer stops the
        poll, which drops its handler. */
    method DestroyDevice(d: Device)
      requires Linked()
      modifies this
      ensures Linked() && view == old(view).Stop(d)
    {
      DeviceDestroyed(d);
      StopPoll(d);
    }

    /** The operations keep the tables valid between them. */
    method Perform(e: Event)
      requires Valid() && Enabled(view, e)
      modifies this
      ensures Valid() && view == Step(old(view), e)
    {
      ghost var before := view;
      match e {
        case EvStart(d, callback) => StartPoll(d, callback);
        case EvStop(d) => StopPoll(d);
        case EvDestroy(d) => DestroyDevice(d);
        case EvLevel(d, level) => SetWarningLevel(d, level);
        case EvPause => PausePoll();
        case EvResume => ResumePoll();
      }
      StepKeepsConsistent(before, e);
    }
  }

  // ----- Whole runs

  datatype Event =
    | EvStart(device: Device, callback: Callback)
    | EvStop(device: Device)
    | EvDestroy(device: Device)
    | EvLevel(device: Device, level: DeviceLevel)
    | EvPause
    | EvResume

  /** A resume comes after a pause. */
  predicate Enabled(r: Registry, e: Event) { e.EvResume? ==> r.paused }

  function Step(r: Registry, e: Event): Registry {
    match e
    case EvStart(d, callback) => r.Start(d, callback)
    case EvStop(d) => r.Stop(d)
    case EvDestroy(d) => r.Stop(d)
    case EvLevel(d, level) => r.SetLevel(d, level)
    case EvPause => r.Pause()
    case EvResume => r.Resume()
  }

  function Run(r: Registry, events: seq<Event>): Registry {
    if events == [] then r else Step(Run(r, events[..|events| - 1]), events[|events| - 1])
  }

  lemma StepKeepsConsistent(r: Registry, e: Event)
    requires Consistent(r) && Enabled(r, e)
    ensures Consistent(Step(r, e))
  {
  }

  /** After any operations a registered device of a running daemon has one timer and one handler, and
      the interval is the one for its present level; a paused daemon has none. */
  lemma {:induction false} RunIsConsistent(events: seq<Event>)
    requires forall i :: 0 <= i < |events| ==> Enabled(Run(NoDevices, events[..i]), events[i])
    ensures Consistent(Run(NoDevices, events))
  {
    if events != [] {
      var n := |events| - 1;
      forall i | 0 <= i < n ensures Enabled(Run(NoDevices, events[..n][..i]), events[..n][i]) {
        assert events[..n][..i] == events[..i];
      }
      RunIsConsistent(events[..n]);
      StepKeepsConsistent(Run(NoDevices, events[..n]), events[n]);
    }
  }

  /** A pause followed by a resume brings back the same devices with the same callbacks, timers and
      handlers. */
  lemma PauseThenResume(r: Registry)
    requires Consistent(r) && !r.paused
    ensures r.Pause().Resume() == r
  {
    ConsistentIsDetermined(r.Pause().Resume(), r);
  }

  predicate Ordinary(e: Event) { !e.EvPause? && !e.EvResume? }

  lemma StepCommutesWithResume(r: Registry, e: Event)
    requires Consistent(r) && r.paused && Ordinary(e)
    ensures Step(r, e).paused && Step(r, e).Resume() == Step(r.Resume(), e)
  {
    StepKeepsConsistent(r, e);
    ResumeIsConsistent(r);
    StepKeepsConsistent(r.Resume(), e);
    ResumeIsConsistent(Step(r, e));
    SameRegistrations(r, r.Resume(), e);
    ConsistentIsDetermined(Step(r, e).Resume(), Step(r.Resume(), e));
  }

  lemma ResumeIsConsistent(r: Registry)
    ensures Consistent(r.Resume())
  {
  }

  /** Which devices are registered, and their levels, do not depend on the pause. */
  lemma SameRegistrations(r: Registry, s: Registry, e: Event)
    requires Ordinary(e) && r.callbacks == s.callbacks && r.levels == s.levels
    ensures Step(r, e).callbacks == Step(s, e).callbacks && Step(r, e).levels == Step(s, e).levels
    ensures Step(r, e).paused == r.paused
  {
    match e {
      case EvLevel(d, level) =>
        SetLevelKeepsCallbacks(r, d, level);
        SetLevelKeepsCallbacks(s, d, level);
      case _ =>
    }
  }

  lemma SetLevelKeepsCallbacks(r: Registry, d: Device, level: DeviceLevel)
    ensures r.SetLevel(d, level).callbacks == r.callbacks && r.SetLevel(d, level).paused == r.paused
  {
    if d in r.callbacks {
      assert (r.callbacks - {d})[d := r.callbacks[d]] == r.callbacks;
    }
  }

  /** The devices and their levels determine the timers and handlers. */
  lemma ConsistentIsDetermined(a: Registry, b: Registry)
    requires Consistent(a) && Consistent(b)
    requires a.callbacks == b.callbacks && a.levels == b.levels && a.paused == b.paused
    ensures a == b
  {
    assert a.timers == b.timers;
  }

  lemma {:induction false} RunWhilePaused(r: Registry, events: seq<Event>)
    requires Consistent(r) && r.paused
    requires forall i :: 0 <= i < |events| ==> Ordinary(events[i])
    ensures var s := Run(r, events); Consistent(s) && s.paused && s.Resume() == Run(r.Resume(), events)
  {
    if events != [] {
      var n := |events| - 1;
      RunWhilePaused(r, events[..n]);
      StepKeepsConsistent(Run(r, events[..n]), events[n]);
      StepCommutesWithResume(Run(r, events[..n]), events[n]);
    }
  }

  /** What happens while paused takes effect on resuming as if there had been no pause. */
  lemma PauseIsTransparent(r: Registry, events: seq<Event>)
    requires Consistent(r) && !r.paused
    requires forall i :: 0 <= i < |events| ==> Ordinary(events[i])
    ensures Run(r.Pause(), events).Resume() == Run(r, events)
  {
    PauseThenResume(r);
    RunWhilePaused(r.Pause(), events);
  }

  // ----- The registry by its past

  /** The callback of a device: that of the first start since it was last stopped. */
  function Started(events: seq<Event>, d: Device): Option<Callback> {
    if events == [] then None
    else
      var before := Started(events[..|events| - 1], d);
      match events[|events| - 1]
      case EvStart(e, callback) => if e == d && before.None? then Some(callback) else before
      case EvStop(e) => if e == d then None else before
      case EvDestroy(e) => if e == d then None else before
      case _ => before
  }

  /** The level that a device was given last. */
  function Given(events: seq<Event>, d: Device): DeviceLevel {
    if events == [] then LevelUnknown
    else
      match events[|events| - 1]
      case EvLevel(e, level) => if e == d then level else Given(events[..|events| - 1], d)
      case _ => Given(events[..|events| - 1], d)
  }

  /** Whether the last pause was not followed by a resume. */
  predicate Paused(events: seq<Event>) {
    events != [] &&
    (events[|events| - 1].EvPause? || (!events[|events| - 1].EvResume? && Paused(events[..|events| - 1])))
  }

  lemma StepRegisters(r: Registry, e: Event, d: Device)
    ensures var s := Step(r, e);
            && (if e.EvStart? && e.device == d && d !in r.callbacks then d in s.callbacks && s.callbacks[d] == e.callback
                else if (e.EvStop? || e.EvDestroy?) && e.device == d then d !in s.callbacks
                else SameOf(r, s, d))
            && LevelOf(s.levels, d) == (if e.EvLevel? && e.device == d then e.level else LevelOf(r.levels, d))
            && s.paused == (e.EvPause? || (!e.EvResume? && r.paused))
  {
    if e.EvLevel? {
      SetLevelKeepsCallbacks(r, e.device, e.level);
    }
  }

  predicate SameOf(r: Registry, s: Registry, d: Device) {
    (d in r.callbacks <==> d in s.callbacks) && (d in r.callbacks ==> r.callbacks[d] == s.callbacks[d])
  }

  lemma {:induction false} RegisteredByPast(events: seq<Event>, d: Device)
    ensures var r := Run(NoDevices, events);
            && (d in r.callbacks <==> Started(events, d).Some?)
            && (d in r.callbacks ==> Started(events, d) == Some(r.callbacks[d]))
            && LevelOf(r.levels, d) == Given(events, d) && r.paused == Paused(events)
  {
    if events != [] {
      var n := |events| - 1;
      RegisteredByPast(events[..n], d);
      StepRegisters(Run(NoDevices, events[..n]), events[n], d);
    }
  }

  lemma TimerOfConsistent(r: Registry, d: Device)
    requires Consistent(r)
    ensures d in r.timers <==> d in r.callbacks && !r.paused
    ensures d in r.handlers <==> d in r.timers
    ensures d in r.timers ==> r.timers[d] == if LevelOf(r.levels, d) in {LevelUnknown, LevelNone} then 120 else 30
  {
  }

  /** After any operations a device has a timer and a handler if and only if it was started and not stopped
      since, and the daemon is not paused. It is polled every two minutes as long as it was given no level
      above NONE, and else every thirty seconds. */
  lemma TimersByPast(events: seq<Event>, d: Device)
    requires forall i :: 0 <= i < |events| ==> Enabled(Run(NoDevices, events[..i]), events[i])
    ensures var r := Run(NoDevices, events);
            && (d in r.timers <==> Started(events, d).Some? && !Paused(events))
            && (d in r.handlers <==> d in r.timers)
            && (d in r.timers ==> r.timers[d] == if Given(events, d) in {LevelUnknown, LevelNone} then 120 else 30)
  {
    RunIsConsistent(events);
    RegisteredByPast(events, d);
    TimerOfConsistent(Run(NoDevices, events), d);
  }
}
