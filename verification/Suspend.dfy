/**
 src/linux/up-backend.c: the handshake with logind around a suspend. A delay lock keeps the system
 awake until polling is paused; on waking up the lock is taken again before polling resumes.
 */
module Suspend {
  import opened PollRegistry
  import opened UpTypes
  import opened Wrappers

  const NO_FD: int := -1

  // ----- What can be seen from outside

  /** Whether the lock is held, whether the latest attempt to get it left it held, and the polls. */
  datatype State = State(held: bool, granted: bool, registry: Registry)

  /** The single actions that change it. Any of them could come at any time. */
  datatype Action =
    | Perform(event: Event)
    | TakeLock(given: bool)
    | ReleaseLock

  function Act(s: State, a: Action): State {
    match a
    case Perform(e) => s.(registry := Step(s.registry, e))
    case TakeLock(given) => s.(held := s.held || given, granted := s.held || given)
    case ReleaseLock => s.(held := false)
  }

  /** What happened so far, the latest action last. */
  datatype History = Nothing | Then(before: History, last: Action)

  function After(s: State, h: History): State {
    match h
    case Nothing => s
    case Then(before, last) => Act(After(s, before), last)
  }

  /** Without the lock the system may sleep at once, so nothing must be polled. */
  predicate Quiet(s: State) { s.held || (s.registry.paused && s.registry.timers == map[]) }

  /** Nothing is polled without the lock, unless polling is not paused and the lock was refused. */
  predicate Sound(s: State) {
    Consistent(s.registry) && (Quiet(s) <==> s.registry.paused || s.granted)
  }

  /** Every state on the way, the first and the last included. */
  predicate AllSound(s: State, h: History) {
    Sound(After(s, h)) && (h.Then? ==> AllSound(s, h.before))
  }

  /** What holds between two signals of logind: asleep without the lock, or awake with it if it was
      granted. */
  predicate Settled(s: State) {
    Consistent(s.registry) && s.held == (!s.registry.paused && s.granted)
  }

  /** A signal of logind, or another operation on the daemon. Signals announce a sleep and the end of it
      by turns; the end comes with what logind answers and the levels that the refreshes find. */
  datatype Call =
    | Sleeps
    | Wakes(given: bool, refreshed: seq<(Device, DeviceLevel)>)
    | Between(event: Event)

  predicate CanCall(s: State, c: Call) {
    match c
    case Sleeps => !s.registry.paused
    case Wakes(_, _) => s.registry.paused
    case Between(e) => Ordinary(e)
  }

  function LevelChanges(h: History, refreshed: seq<(Device, DeviceLevel)>): History {
    if refreshed == [] then h
    else
      var last := refreshed[|refreshed| - 1];
      Then(LevelChanges(h, refreshed[..|refreshed| - 1]), Perform(EvLevel(last.0, last.1)))
  }

  /** The actions of a call, in their order. */
  function Called(h: History, c: Call): History {
    match c
    case Sleeps => Then(Then(h, Perform(EvPause)), ReleaseLock)
    case Wakes(given, refreshed) => Then(LevelChanges(Then(h, TakeLock(given)), refreshed), Perform(EvResume))
    case Between(e) => Then(h, Perform(e))
  }

  class UpBackend {
    const daemon: PollDaemon
    var inhibitorFd: int

    // Everything that happened to the lock and the polls since the beginning.
    ghost const first: State
    ghost var granted: bool
    ghost var trace: History

    ghost function Now(): State
      reads this, daemon
    {
      State(inhibitorFd > NO_FD, granted, daemon.view)
    }

    ghost predicate Linked()
      reads this, daemon
    {
      daemon.Valid() && inhibitorFd >= NO_FD && Now() == After(first, trace)
    }

    /** At no point of its life was the object in a state that is not sound. */
    ghost predicate Valid()
      reads this, daemon
    {
      Linked() && AllSound(first, trace) && Settled(Now())
    }

    constructor (daemon: PollDaemon, lock: Option<nat>)
      requires daemon.Valid() && !daemon.view.paused
      ensures Valid() && this.daemon == daemon
      ensures inhibitorFd == if lock.Some? then lock.value else NO_FD
    {
      this.daemon := daemon;
      inhibitorFd := NO_FD;
      first, granted, trace := State(false, false, daemon.view), false, Nothing;
      new;
      LockTake(lock);
    }

    /** `lock` is the descriptor that logind gives out, if it does. */
    method LockTake(lock: Option<nat>)
      requires Linked()
      modifies this`inhibitorFd, this`granted, this`trace
      ensures Linked() && trace == Then(old(trace), TakeLock(lock.Some?))
      ensures inhibitorFd == if old(inhibitorFd) > NO_FD || lock.None? then old(inhibitorFd) else lock.value
    {
      Record(TakeLock(lock.Some?));
      granted := inhibitorFd > NO_FD || lock.Some?;
      if inhibitorFd > -1 {
        return;
      }
      if lock == None {
        return;
      }
      inhibitorFd := lock.value;
    }

    method LockRelease()
      requires Linked()
      modifies this`inhibitorFd, this`trace
      ensures Linked() && trace == Then(old(trace), ReleaseLock)
      ensures inhibitorFd == NO_FD
    {
      Record(ReleaseLock);
      if inhibitorFd == -1 {
        return;
      }
      inhibitorFd := NO_FD;
    }

    method PerformOnDaemon(e: Event)
      requires Linked() && Enabled(daemon.view, e)
      modifies this`trace, daemon
      ensures Linked() && trace == Then(old(trace), Perform(e))
      ensures daemon.view == Step(old(daemon.view), e)
    {
      Record(Perform(e));
      daemon.Perform(e);
    }

    ghost method Record(a: Action)
      modifies this`trace
      ensures trace == Then(old(trace), a)
    {
      trace := Then(trace, a);
    }

    /** The handler does its actions in the order in which every state on the way is sound. */
    method PrepareForSleep(willSleep: bool, lock: Option<nat>, refreshed: seq<(Device, DeviceLevel)>)
      requires Valid() && (willSleep <==> !daemon.view.paused)
      modifies this`inhibitorFd, this`granted, this`trace, daemon
      ensures Valid()
      ensures trace == Called(old(trace), if willSleep then Sleeps else Wakes(lock.Some?, refreshed))
      ensures willSleep ==> daemon.view == old(daemon.view).Pause()
      ensures !willSleep ==> daemon.view == WithLevels(old(daemon.view), refreshed).Resume()
    {
      ghost var before := trace;
      if willSleep {
        GoToSleep();
        CallIsSound(first, before, Sleeps);
        return;
      }
      WakeUp(lock, refreshed);
      CallIsSound(first, before, Wakes(lock.Some?, refreshed));
    }

    method GoToSleep()
      requires Linked() && !daemon.view.paused
      modifies this`inhibitorFd, this`trace, daemon
      ensures Linked() && trace == Called(old(trace), Sleeps)
      ensures daemon.view == old(daemon.view).Pause()
    {
      PerformOnDaemon(EvPause);
      LockRelease();
    }

    method WakeUp(lock: Option<nat>, refreshed: seq<(Device, DeviceLevel)>)
      requires Linked() && daemon.view.paused
      modifies this`inhibitorFd, this`granted, this`trace, daemon
      ensures Linked() && trace == Called(old(trace), Wakes(lock.Some?, refreshed))
      ensures daemon.view == WithLevels(old(daemon.view), refreshed).Resume()
    {
      LockTake(lock);
      RefreshDevices(refreshed);
      PerformOnDaemon(EvResume);
    }

    /** `refreshed` has the levels that the refreshes give the devices. */
    method RefreshDevices(refreshed: seq<(Device, DeviceLevel)>)
      requires Linked()
      modifies this`trace, daemon
      ensures Linked() && trace == LevelChanges(old(trace), refreshed)
      ensures daemon.view.paused == old(daemon.view.paused) && daemon.view == WithLevels(old(daemon.view), refreshed)
    {
      for i := 0 to |refreshed|
        invariant Linked() && trace == LevelChanges(old(trace), refreshed[..i])
      {
        assert refreshed[..i + 1][..i] == refreshed[..i];
        PerformOnDaemon(EvLevel(refreshed[i].0, refreshed[i].1));
      }
      assert refreshed[..|refreshed|] == refreshed;
      AfterLevelChanges(first, old(trace), refreshed);
    }

    /** Any other operation on the daemon. */
    method Other(e: Event)
      requires Valid() && Ordinary(e)
      modifies this`trace, daemon
      ensures Valid() && trace == Called(old(trace), Between(e))
    {
      ghost var before := trace;
      PerformOnDaemon(e);
      CallIsSound(first, before, Between(e));
    }
  }

  function WithLevels(r: Registry, refreshed: seq<(Device, DeviceLevel)>): Registry {
    if refreshed == [] then r
    else
      var last := refreshed[|refreshed| - 1];
      WithLevels(r, refreshed[..|refreshed| - 1]).SetLevel(last.0, last.1)
  }

  // ----- Every state on the way

  /** An operation on the registry other than pausing and resuming changes neither whether polling is
      paused nor the lock. */
  lemma OrdinaryIsSound(s: State, e: Event)
    requires Sound(s) && Ordinary(e)
    ensures var t := Act(s, Perform(e));
            Sound(t) && t.held == s.held && t.granted == s.granted && t.registry.paused == s.registry.paused
  {
    StepKeepsConsistent(s.registry, e);
    SameRegistrations(s.registry, s.registry, e);
  }

  lemma {:induction false} AfterLevelChanges(s: State, h: History, refreshed: seq<(Device, DeviceLevel)>)
    ensures var r := After(s, LevelChanges(h, refreshed)).registry;
            r == WithLevels(After(s, h).registry, refreshed) && r.paused == After(s, h).registry.paused
  {
    if refreshed != [] {
      var n := |refreshed| - 1;
      AfterLevelChanges(s, h, refreshed[..n]);
      SetLevelKeepsCallbacks(WithLevels(After(s, h).registry, refreshed[..n]), refreshed[n].0, refreshed[n].1);
    }
  }

  lemma {:induction false} LevelChangesAreSound(s: State, h: History, refreshed: seq<(Device, DeviceLevel)>)
    requires AllSound(s, h)
    ensures AllSound(s, LevelChanges(h, refreshed))
    ensures var t, u := After(s, h), After(s, LevelChanges(h, refreshed));
            u.held == t.held && u.granted == t.granted && u.registry.paused == t.registry.paused
  {
    if refreshed != [] {
      var n := |refreshed| - 1;
      LevelChangesAreSound(s, h, refreshed[..n]);
      OrdinaryIsSound(After(s, LevelChanges(h, refreshed[..n])), EvLevel(refreshed[n].0, refreshed[n].1));
    }
  }

  lemma SleepIsSound(s: State, h: History)
    requires AllSound(s, h) && Settled(After(s, h)) && !After(s, h).registry.paused
    ensures AllSound(s, Called(h, Sleeps)) && Settled(After(s, Called(h, Sleeps)))
  {
    var paused := Then(h, Perform(EvPause));
    assert AllSound(s, paused);
    assert AllSound(s, Then(paused, ReleaseLock));
  }

  lemma WakeIsSound(s: State, h: History, given: bool, refreshed: seq<(Device, DeviceLevel)>)
    requires AllSound(s, h) && Settled(After(s, h)) && After(s, h).registry.paused
    ensures AllSound(s, Called(h, Wakes(given, refreshed))) && Settled(After(s, Called(h, Wakes(given, refreshed))))
  {
    var taken := Then(h, TakeLock(given));
    assert AllSound(s, taken);
    LevelChangesAreSound(s, taken, refreshed);
    ResumeIsConsistent(After(s, LevelChanges(taken, refreshed)).registry);
  }

  lemma CallIsSound(s: State, h: History, c: Call)
    requires AllSound(s, h) && Settled(After(s, h)) && CanCall(After(s, h), c)
    ensures AllSound(s, Called(h, c)) && Settled(After(s, Called(h, c)))
  {
    match c {
      case Sleeps => SleepIsSound(s, h);
      case Wakes(given, refreshed) => WakeIsSound(s, h, given, refreshed);
      case Between(e) => OrdinaryIsSound(After(s, h), e);
    }
  }

  // ----- Whole runs

  function Trace(calls: seq<Call>): History {
    if calls == [] then Nothing else Called(Trace(calls[..|calls| - 1]), calls[|calls| - 1])
  }

  function Start(given: bool): State { State(given, given, NoDevices) }

  predicate CanRun(given: bool, calls: seq<Call>) {
    calls == [] ||
    var n := |calls| - 1;
    CanRun(given, calls[..n]) && CanCall(After(Start(given), Trace(calls[..n])), calls[n])
  }

  /** A point on the way of a history, also one in the middle of a call. */
  predicate IsPoint(point: History, h: History) { point == h || (h.Then? && IsPoint(point, h.before)) }

  lemma {:induction false} RunIsSound(given: bool, calls: seq<Call>)
    requires CanRun(given, calls)
    ensures AllSound(Start(given), Trace(calls)) && Settled(After(Start(given), Trace(calls)))
  {
    if calls != [] {
      var n := |calls| - 1;
      RunIsSound(given, calls[..n]);
      CallIsSound(Start(given), Trace(calls[..n]), calls[n]);
    }
  }

  lemma {:induction false} PointIsSound(s: State, point: History, h: History)
    requires AllSound(s, h) && IsPoint(point, h)
    ensures Sound(After(s, point))
  {
    if point != h {
      PointIsSound(s, point, h.before);
    }
  }

  /** At every point of every run, also in the middle of a handler, nothing is polled without the lock if
      and only if polling is paused or the lock was granted last time. */
  lemma QuietExactly(given: bool, calls: seq<Call>, point: History)
    requires CanRun(given, calls) && IsPoint(point, Trace(calls))
    ensures var s := After(Start(given), point); Quiet(s) <==> s.registry.paused || s.granted
  {
    RunIsSound(given, calls);
    PointIsSound(Start(given), point, Trace(calls));
  }

  predicate NeverRefused(calls: seq<Call>) {
    forall i :: 0 <= i < |calls| && calls[i].Wakes? ==> calls[i].given
  }

  predicate AllGranted(s: State, h: History) {
    After(s, h).granted && (h.Then? ==> AllGranted(s, h.before))
  }

  lemma {:induction false} LevelChangesKeepGranted(s: State, h: History, refreshed: seq<(Device, DeviceLevel)>)
    requires AllGranted(s, h)
    ensures AllGranted(s, LevelChanges(h, refreshed))
  {
    if refreshed != [] {
      LevelChangesKeepGranted(s, h, refreshed[..|refreshed| - 1]);
    }
  }

  lemma CallKeepsGranted(s: State, h: History, c: Call)
    requires AllGranted(s, h) && (c.Wakes? ==> c.given)
    ensures AllGranted(s, Called(h, c))
  {
    match c {
      case Sleeps => assert AllGranted(s, Then(h, Perform(EvPause)));
      case Wakes(given, refreshed) => LevelChangesKeepGranted(s, Then(h, TakeLock(given)), refreshed);
      case Between(_) =>
    }
  }

  lemma {:induction false} GrantedThroughout(calls: seq<Call>)
    requires NeverRefused(calls)
    ensures AllGranted(Start(true), Trace(calls))
  {
    if calls != [] {
      var n := |calls| - 1;
      GrantedThroughout(calls[..n]);
      CallKeepsGranted(Start(true), Trace(calls[..n]), calls[n]);
    }
  }

  lemma {:induction false} PointIsGranted(s: State, point: History, h: History)
    requires AllGranted(s, h) && IsPoint(point, h)
    ensures After(s, point).granted
  {
    if point != h {
      PointIsGranted(s, point, h.before);
    }
  }

  /** When logind always gives the lock, no poll timer is live without it at any point. */
  lemma AlwaysQuiet(calls: seq<Call>, point: History)
    requires CanRun(true, calls) && NeverRefused(calls) && IsPoint(point, Trace(calls))
    ensures Quiet(After(Start(true), point))
  {
    GrantedThroughout(calls);
    PointIsGranted(Start(true), point, Trace(calls));
    QuietExactly(true, calls, point);
  }

  /** In the other order either handler passes through a state that is not sound. */
  lemma OtherOrdersAreNotSound(s: State)
    requires Settled(s) && s.granted
    ensures !s.registry.paused ==> !AllSound(s, Then(Then(Nothing, ReleaseLock), Perform(EvPause)))
    ensures s.registry.paused ==> !AllSound(s, Then(Then(Nothing, Perform(EvResume)), TakeLock(true)))
  {
    var a := if s.registry.paused then Perform(EvResume) else ReleaseLock;
    assert After(s, Then(Nothing, a)) == Act(s, a) && !Sound(Act(s, a));
  }

  // ----- Levels after a sleep

  /** The level that the refreshes found last for a device. */
  function Found(refreshed: seq<(Device, DeviceLevel)>, d: Device, before: DeviceLevel): DeviceLevel {
    if refreshed == [] then before
    else
      var last := refreshed[|refreshed| - 1];
      if last.0 == d then last.1 else Found(refreshed[..|refreshed| - 1], d, before)
  }

  /** After waking up every device has the level that its refresh found, and is polled by it. */
  lemma {:induction false} LevelsAreFound(r: Registry, refreshed: seq<(Device, DeviceLevel)>, d: Device)
    ensures var s := WithLevels(r, refreshed);
            && LevelOf(s.levels, d) == Found(refreshed, d, LevelOf(r.levels, d)) && s.callbacks == r.callbacks
            && s.paused == r.paused
    ensures var s := WithLevels(r, refreshed).Resume();
            (d in s.timers <==> d in r.callbacks) &&
            (d in s.timers ==>
               s.timers[d] == if Found(refreshed, d, LevelOf(r.levels, d)) in {LevelUnknown, LevelNone} then 120 else 30)
  {
    if refreshed != [] {
      var n := |refreshed| - 1;
      LevelsAreFound(r, refreshed[..n], d);
      SetLevelKeepsCallbacks(WithLevels(r, refreshed[..n]), refreshed[n].0, refreshed[n].1);
      StepRegisters(WithLevels(r, refreshed[..n]), EvLevel(refreshed[n].0, refreshed[n].1), d);
    }
  }
}
