/**
 src/up-daemon.c: the action that the daemon takes when the warning level has been ACTION for twenty
 seconds.
 */
module CriticalAction {
  import opened UpTypes

  const ACTION_DELAY: nat := 20

  /** The level, the id of the timer as the daemon remembers it, and the live timers of the main loop
      with their deadlines. */
  datatype State = State(level: DeviceLevel, timeoutId: nat, live: map<nat, int>, nextId: nat, now: int)

  function Init(now: int): State { State(LevelUnknown, 0, map[], 1, now) }

  /** Leaving the level removes the timer, but its id is not forgotten. */
  function SetLevel(s: State, level: DeviceLevel): State {
    if s.level == level then s
    else if level == LevelAction then
      if s.timeoutId == 0
      then State(level, s.nextId, s.live[s.nextId := s.now + ACTION_DELAY], s.nextId + 1, s.now)
      else s.(level := level)
    else if s.timeoutId > 0 then s.(level := level, live := s.live - {s.timeoutId})
    else s.(level := level)
  }

  function Fire(s: State, id: nat): State { s.(timeoutId := 0, live := s.live - {id}) }

  datatype Event =
    | Evaluated(level: DeviceLevel)
    | Later(now: int)
    | Fires(id: nat)

  predicate Enabled(s: State, e: Event) {
    match e
    case Evaluated(_) => true
    case Later(now) => now >= s.now
    case Fires(id) => id in s.live && s.live[id] <= s.now
  }

  function Step(s: State, e: Event): State {
    match e
    case Evaluated(level) => SetLevel(s, level)
    case Later(now) => s.(now := now)
    case Fires(id) => Fire(s, id)
  }

  class ActionDaemon {
    var warningLevel: DeviceLevel
    var actionTimeoutId: nat
    // The environment: the main loop's timers and clock, and how often the backend was told to act.
    var live: map<nat, int>
    var nextId: nat
    var now: int
    var actions: nat

    ghost function View(): State
      reads this
    {
      State(warningLevel, actionTimeoutId, live, nextId, now)
    }

    constructor (now: int)
      ensures View() == Init(now) && actions == 0
    {
      warningLevel, actionTimeoutId, live, nextId := LevelUnknown, 0, map[], 1;
      this.now, actions := now, 0;
    }

    method SetWarningLevel(level: DeviceLevel)
      modifies this
      ensures View() == Step(old(View()), Evaluated(level)) && actions == old(actions)
    {
      if warningLevel == level {
        return;
      }
      warningLevel := level;
      if warningLevel == LevelAction {
        if actionTimeoutId == 0 {
          actionTimeoutId := nextId;
          live := live[nextId := now + ACTION_DELAY];
          nextId := nextId + 1;
        }
      } else {
        if actionTimeoutId > 0 {
          live := live - {actionTimeoutId};
        }
      }
    }

    method TakeActionTimeoutCb(id: nat)
      requires id in live
      modifies this
      ensures View() == Step(old(View()), Fires(id)) && actions == old(actions) + 1
    {
      actions := actions + 1;
      actionTimeoutId := 0;
      live := live - {id};
    }
  }

  // ----- Whole runs

  function Run(now: int, events: seq<Event>): State {
    if events == [] then Init(now) else Step(Run(now, events[..|events| - 1]), events[|events| - 1])
  }

  predicate CanRun(now: int, events: seq<Event>) {
    events == [] ||
    (CanRun(now, events[..|events| - 1]) && Enabled(Run(now, events[..|events| - 1]), events[|events| - 1]))
  }

  lemma EmptyMap(m: map<nat, int>)
    ensures m == map[] <==> m.Keys == {}
  {
  }

  /** The only timer is the remembered one, and it lives only while the level is ACTION. */
  predicate Linked(s: State) {
    && s.timeoutId < s.nextId
    && (s.live.Keys == {} || (s.timeoutId > 0 && s.live.Keys == {s.timeoutId} && s.level == LevelAction))
  }

  lemma {:induction false} RunIsLinked(now: int, events: seq<Event>)
    requires CanRun(now, events)
    ensures Linked(Run(now, events))
  {
    if events != [] {
      RunIsLinked(now, events[..|events| - 1]);
    }
  }

  /** The event at j entered the level and armed a timer that is due twenty seconds later; up to the
      end of the events the level was evaluated as ACTION only, and nothing fired. */
  predicate ArmedAt(now: int, events: seq<Event>, j: nat, deadline: int) {
    && j < |events| && events[j] == Evaluated(LevelAction)
    && Run(now, events[..j]).level != LevelAction
    && deadline == Run(now, events[..j]).now + 20
    && (forall i :: j <= i < |events| ==> events[i].Later? || events[i] == Evaluated(LevelAction))
  }

  lemma ArmedAtExtends(now: int, events: seq<Event>, j: nat, deadline: int)
    requires events != [] && ArmedAt(now, events[..|events| - 1], j, deadline)
    requires events[|events| - 1].Later? || events[|events| - 1] == Evaluated(LevelAction)
    ensures ArmedAt(now, events, j, deadline)
  {
    assert events[..|events| - 1][..j] == events[..j];
  }

  lemma {:induction false} LiveTimerWasArmed(now: int, events: seq<Event>, id: nat) returns (j: nat)
    requires CanRun(now, events) && id in Run(now, events).live
    ensures ArmedAt(now, events, j, Run(now, events).live[id])
  {
    var n := |events| - 1;
    RunIsLinked(now, events[..n]);
    if id in Run(now, events[..n]).live {
      j := LiveTimerWasArmed(now, events[..n], id);
      ArmedAtExtends(now, events, j, Run(now, events).live[id]);
    } else {
      j := n;
    }
  }

  /** Whenever the action is taken, the level was entered at least twenty seconds earlier, every
      evaluation since then gave ACTION, and no action was taken since then. */
  lemma ActionIsJustified(now: int, events: seq<Event>, id: nat) returns (j: nat)
    requires CanRun(now, events) && Enabled(Run(now, events), Fires(id))
    ensures j < |events| && ArmedAt(now, events, j, Run(now, events[..j]).now + 20)
    ensures Run(now, events[..j]).now + 20 <= Run(now, events).now
  {
    j := LiveTimerWasArmed(now, events, id);
  }

  // ----- When the action is lost

  /** The daemon remembers a timer that does not exist. */
  predicate Stuck(s: State) { s.timeoutId > 0 && s.live.Keys == {} }

  /** At some point the level left ACTION while the timer was running. */
  predicate Cancelled(now: int, events: seq<Event>) {
    events != [] &&
    (Cancelled(now, events[..|events| - 1]) || Leaves(Run(now, events[..|events| - 1]), events[|events| - 1]))
  }

  predicate Leaves(s: State, e: Event) { e.Evaluated? && e.level != LevelAction && s.live.Keys != {} }

  /** Leaving ACTION before the action is taken disables it for good: a stuck daemon stays stuck, and
      it is stuck exactly when that has happened. */
  lemma {:induction false} StuckExactlyWhenCancelled(now: int, events: seq<Event>)
    requires CanRun(now, events)
    ensures Stuck(Run(now, events)) <==> Cancelled(now, events)
  {
    if events != [] {
      var n := |events| - 1;
      RunIsLinked(now, events[..n]);
      StuckExactlyWhenCancelled(now, events[..n]);
      RunIsLinked(now, events);
      match events[n] {
        case Evaluated(level) => LevelsAndStuck(Run(now, events[..n]), level);
        case Later(_) =>
        case Fires(_) =>
      }
    }
  }

  lemma LevelsAndStuck(s: State, level: DeviceLevel)
    requires Linked(s)
    ensures Stuck(SetLevel(s, level)) <==> Stuck(s) || (level != LevelAction && s.live.Keys != {})
  {
    if level == LevelAction && s.level != level && s.timeoutId == 0 {
      assert s.nextId in SetLevel(s, level).live;
    }
  }

  lemma EntryArmsUnlessStuck(s: State)
    requires Linked(s) && s.level != LevelAction
    ensures SetLevel(s, LevelAction).live == if Stuck(s) then map[] else map[s.nextId := s.now + 20]
  {
    EmptyMap(s.live);
  }

  /** Entering ACTION arms a timer exactly when no earlier one was cancelled. */
  lemma EntryArmsUnlessCancelled(now: int, events: seq<Event>)
    requires CanRun(now, events) && Run(now, events).level != LevelAction
    ensures var s := Run(now, events);
            Step(s, Evaluated(LevelAction)).live ==
              if Cancelled(now, events) then map[] else map[s.nextId := s.now + 20]
  {
    RunIsLinked(now, events);
    StuckExactlyWhenCancelled(now, events);
    EntryArmsUnlessStuck(Run(now, events));
  }

  /** An entry into ACTION that is not a later one after a cancelled timer leads to the action when, and only
      when, twenty seconds have passed; then the daemon is ready for the next one. */
  lemma ActionFollowsExactly(now: int, events: seq<Event>, later: int)
    requires CanRun(now, events) && Run(now, events).level != LevelAction && !Cancelled(now, events)
    ensures var s := Run(now, events);
            var t := Step(Step(s, Evaluated(LevelAction)), Later(later));
            && t.level == LevelAction && t.now == later
            && (Enabled(t, Fires(s.nextId)) <==> later >= s.now + 20)
            && Step(t, Fires(s.nextId)).live == map[] && Step(t, Fires(s.nextId)).timeoutId == 0
  {
    EntryArmsUnlessCancelled(now, events);
  }

  /** The run in which charge drops to the lowest level, recovers, and drops again: no action follows,
      however long the level stays. */
  lemma SecondEntryIsIgnored(now: int, later: int)
    requires later >= now
    ensures var events := [Evaluated(LevelAction), Evaluated(LevelNone), Evaluated(LevelAction), Later(later)];
            CanRun(now, events) && Run(now, events).level == LevelAction && Run(now, events).live == map[]
  {
    var events := [Evaluated(LevelAction), Evaluated(LevelNone), Evaluated(LevelAction), Later(later)];
    assert events[..0] == [];
    assert events[..1] == [Evaluated(LevelAction)] && events[..1][..0] == [];
    assert events[..2] == [Evaluated(LevelAction), Evaluated(LevelNone)] && events[..2][..1] == events[..1];
    assert events[..3][..2] == events[..2] && events[..4][..3] == events[..3] && events[..4] == events;
    assert Run(now, events[..1]) == State(LevelAction, 1, map[1 := now + ACTION_DELAY], 2, now);
    assert Run(now, events[..2]) == State(LevelNone, 1, map[], 2, now);
    assert Run(now, events[..3]) == State(LevelAction, 1, map[], 2, now);
    assert CanRun(now, events[..1]) && CanRun(now, events[..2]) && CanRun(now, events[..3]);
  }
}
