/**
 dbus/up-daemon-generated.c: how the exported daemon tells its clients about changed properties.
 Changes are collected with the value that the clients saw last, and one idle callback emits the
 PropertiesChanged signal (D-Bus Specification, section "org.freedesktop.DBus.Properties").
 */
module Notification {
  import opened Wrappers

  const PROPERTIES: nat := 4

  datatype Value = Text(text: string) | Flag(flag: bool)

  /** A pending change: the property and its value before the first change. */
  datatype Changed = Changed(prop: nat, orig: Value)

  datatype Change = Change(prop: nat, value: Value)

  datatype Skeleton = Skeleton(
    properties: seq<Value>,
    changed: seq<Changed>,
    scheduled: bool,
    exported: bool,
    notifyQueued: bool)
  {
    predicate WellFormed() {
      |properties| == PROPERTIES && forall i :: 0 <= i < |changed| ==> changed[i].prop < PROPERTIES
    }
  }

  function Find(changed: seq<Changed>, prop: nat): (r: Option<Value>)
    ensures r.None? <==> forall i :: 0 <= i < |changed| ==> changed[i].prop != prop
  {
    if changed == [] then None
    else if changed[0].prop == prop then Some(changed[0].orig)
    else Find(changed[1..], prop)
  }

  /** A property that is already pending keeps its first value. */
  function Scheduled(changed: seq<Changed>, prop: nat, orig: Value): seq<Changed> {
    if Find(changed, prop).Some? then changed else [Changed(prop, orig)] + changed
  }

  function SetProperty(s: Skeleton, prop: nat, value: Value): Skeleton
    requires s.WellFormed() && prop < PROPERTIES
  {
    if value == s.properties[prop] then s
    else
      s.(changed := if s.exported then Scheduled(s.changed, prop, s.properties[prop]) else s.changed,
         properties := s.properties[prop := value],
         notifyQueued := true)
  }

  /** The queued notification is delivered when the last freeze ends. */
  function Thaw(s: Skeleton): Skeleton {
    if !s.notifyQueued then s
    else s.(notifyQueued := false, scheduled := s.scheduled || s.changed != [])
  }

  /** The changes that an emission announces: pending properties that have not gone back. */
  function Delta(properties: seq<Value>, changed: seq<Changed>): (r: seq<Change>)
    requires forall i :: 0 <= i < |changed| ==> changed[i].prop < |properties|
    ensures forall i :: 0 <= i < |r| ==> r[i].prop < |properties| && r[i].value == properties[r[i].prop]
  {
    if changed == [] then []
    else
      var last := changed[|changed| - 1];
      Delta(properties, changed[..|changed| - 1])
      + if properties[last.prop] != last.orig then [Change(last.prop, properties[last.prop])] else []
  }

  function Emitted(s: Skeleton): Skeleton { s.(changed := [], scheduled := false) }

  class ExportedSkeleton {
    const properties: array<Value>
    var changedProperties: seq<Changed>
    var idleSource: bool
    var exported: bool
    var notifyQueued: bool
    // The signals on the bus.
    var signals: seq<seq<Change>>

    ghost predicate Valid()
      reads this, properties
    {
      View().WellFormed()
    }

    ghost function View(): Skeleton
      reads this, properties
    {
      Skeleton(properties[..], changedProperties, idleSource, exported, notifyQueued)
    }

    constructor (version: string)
      ensures Valid() && fresh(properties) && signals == []
      ensures View() == Skeleton([Text(version), Flag(false), Flag(false), Flag(false)], [], false, false, false)
    {
      properties := new Value[PROPERTIES](i => if i == 0 then Text(version) else Flag(false));
      changedProperties, idleSource, exported, notifyQueued, signals := [], false, false, false, [];
    }

    /** The interface is put on the bus or taken from it. */
    method SetExported(onBus: bool)
      requires Valid()
      modifies this`exported
      ensures Valid() && View() == old(View()).(exported := onBus)
    {
      exported := onBus;
    }

    method ScheduleEmitChanged(prop: nat, orig: Value)
      requires Valid() && prop < PROPERTIES
      modifies this`changedProperties
      ensures Valid() && changedProperties == Scheduled(old(changedProperties), prop, orig)
    {
      for i := 0 to |changedProperties|
        invariant Find(changedProperties, prop) == Find(changedProperties[i..], prop)
      {
        assert changedProperties[i..][1..] == changedProperties[i + 1..];
        if changedProperties[i].prop == prop {
          return;
        }
      }
      changedProperties := [Changed(prop, orig)] + changedProperties;
    }

    method Set(prop: nat, value: Value)
      requires Valid() && prop < PROPERTIES
      modifies this`changedProperties, this`notifyQueued, properties
      ensures Valid() && View() == SetProperty(old(View()), prop, value)
    {
      if value != properties[prop] {
        if exported {
          ScheduleEmitChanged(prop, properties[prop]);
        }
        properties[prop] := value;
        notifyQueued := true;
      }
    }

    /** The thaw that runs the notify handler. */
    method Notify()
      requires Valid()
      modifies this`idleSource, this`notifyQueued
      ensures Valid() && View() == Thaw(old(View()))
    {
      if !notifyQueued {
        return;
      }
      notifyQueued := false;
      if changedProperties != [] && !idleSource {
        idleSource := true;
      }
    }

    /** The signal goes to the connections on which the interface is exported. */
    method EmitChanged()
      requires Valid()
      modifies this`changedProperties, this`idleSource, this`signals
      ensures Valid() && View() == Emitted(old(View()))
      ensures var delta := Delta(properties[..], old(changedProperties));
              signals == old(signals) + if delta == [] || !exported then [] else [delta]
    {
      var builder := [];
      for i := 0 to |changedProperties|
        invariant builder == Delta(properties[..], changedProperties[..i])
      {
        assert changedProperties[..i + 1][..i] == changedProperties[..i];
        var cp := changedProperties[i];
        if properties[cp.prop] != cp.orig {
          builder := builder + [Change(cp.prop, properties[cp.prop])];
        }
      }
      assert changedProperties[..|changedProperties|] == changedProperties;
      if |builder| > 0 && exported {
        signals := signals + [builder];
      }
      changedProperties, idleSource := [], false;
    }

    method Flush()
      requires Valid()
      modifies this`changedProperties, this`idleSource, this`signals
      ensures Valid()
      ensures View() == if old(idleSource) then Emitted(old(View())) else old(View())
      ensures var delta := Delta(properties[..], old(changedProperties));
              signals == old(signals) + if delta == [] || !old(idleSource) || !exported then [] else [delta]
    {
      var emitChanged := false;
      if idleSource {
        idleSource := false;
        emitChanged := true;
      }
      if emitChanged {
        EmitChanged();
      }
    }
  }

  // ----- Replication

  /** What a client knows after a signal. */
  function Applied(cache: seq<Value>, signal: seq<Change>): (r: seq<Value>)
    requires forall i :: 0 <= i < |signal| ==> signal[i].prop < |cache|
    ensures |r| == |cache|
  {
    if signal == [] then cache
    else
      var last := signal[|signal| - 1];
      Applied(cache, signal[..|signal| - 1])[last.prop := last.value]
  }

  /** A server and a client that has read all properties at some time. */
  datatype Session = Session(server: Skeleton, cache: seq<Value>)

  datatype Event =
    | EvSet(prop: nat, value: Value)
    | EvThaw
    | EvIdle
    | EvFlush
    | EvExported(onBus: bool)

  predicate Enabled(t: Session, e: Event) {
    match e
    case EvSet(prop, _) => prop < PROPERTIES
    case EvIdle => t.server.scheduled
    case _ => true
  }

  predicate WellFormed(t: Session) { t.server.WellFormed() && |t.cache| == PROPERTIES }

  function Step(t: Session, e: Event): (r: Session)
    requires WellFormed(t) && Enabled(t, e)
    ensures WellFormed(r)
  {
    var s := t.server;
    match e
    case EvSet(prop, value) => Session(SetProperty(s, prop, value), t.cache)
    case EvThaw => Session(Thaw(s), t.cache)
    case EvIdle => Session(Emitted(s), Heard(t))
    case EvFlush => if s.scheduled then Session(Emitted(s), Heard(t)) else t
    case EvExported(onBus) => Session(s.(exported := onBus), t.cache)
  }

  /** What the client knows after an emission, which does not reach it from off the bus. */
  function Heard(t: Session): (r: seq<Value>)
    requires WellFormed(t)
    ensures |r| == PROPERTIES
  {
    if t.server.exported then Applied(t.cache, Delta(t.server.properties, t.server.changed)) else t.cache
  }

  predicate NoDuplicates(changed: seq<Changed>) {
    forall i, j :: 0 <= i < j < |changed| ==> changed[i].prop != changed[j].prop
  }

  /** What the client holds is, for a pending property, its recorded value, and else the present one;
      pending properties will be looked at. */
  predicate InSync(t: Session) {
    && WellFormed(t) && t.server.exported
    && NoDuplicates(t.server.changed)
    && (forall i :: 0 <= i < |t.server.changed| ==> t.cache[t.server.changed[i].prop] == t.server.changed[i].orig)
    && (forall p :: 0 <= p < PROPERTIES && Find(t.server.changed, p).None? ==> t.cache[p] == t.server.properties[p])
    && (t.server.changed != [] ==> t.server.scheduled || t.server.notifyQueued)
  }

  lemma {:induction false} AppliedAt(cache: seq<Value>, signal: seq<Change>, properties: seq<Value>, p: nat)
    requires p < |cache| == |properties|
    requires forall i :: 0 <= i < |signal| ==>
               signal[i].prop < |cache| && signal[i].value == properties[signal[i].prop]
    ensures Applied(cache, signal)[p] ==
              if exists i :: 0 <= i < |signal| && signal[i].prop == p then properties[p] else cache[p]
  {
    if signal != [] {
      var n := |signal| - 1;
      AppliedAt(cache, signal[..n], properties, p);
    }
  }

  lemma {:induction false} DeltaAt(properties: seq<Value>, changed: seq<Changed>, p: nat)
    requires forall i :: 0 <= i < |changed| ==> changed[i].prop < |properties|
    ensures (exists i :: 0 <= i < |Delta(properties, changed)| && Delta(properties, changed)[i].prop == p) <==>
            (exists i :: 0 <= i < |changed| && changed[i].prop == p && changed[i].orig != properties[p])
  {
    if changed != [] {
      var n := |changed| - 1;
      var init, delta := Delta(properties, changed[..n]), Delta(properties, changed);
      DeltaAt(properties, changed[..n], p);
      assert init <= delta;
      if properties[changed[n].prop] != changed[n].orig {
        assert delta[|init|].prop == changed[n].prop;
      }
    }
  }

  /** The effect of an emission on any client: a property is right afterwards if it was right before,
      or if it was pending and has not gone back. */
  lemma EmissionEffect(t: Session, p: nat)
    requires WellFormed(t) && p < PROPERTIES
    ensures var s := t.server;
            var cache := Applied(t.cache, Delta(s.properties, s.changed));
            cache[p] == s.properties[p] <==>
              t.cache[p] == s.properties[p] ||
              exists i :: 0 <= i < |s.changed| && s.changed[i].prop == p && s.changed[i].orig != s.properties[p]
  {
    var s := t.server;
    AppliedAt(t.cache, Delta(s.properties, s.changed), s.properties, p);
    DeltaAt(s.properties, s.changed, p);
  }

  /** The signal names exactly the properties in which a client that is in sync is behind. */
  lemma SignalIsExact(t: Session, p: nat)
    requires InSync(t) && p < PROPERTIES
    ensures var delta := Delta(t.server.properties, t.server.changed);
            (exists i :: 0 <= i < |delta| && delta[i].prop == p) <==> t.cache[p] != t.server.properties[p]
  {
    DeltaAt(t.server.properties, t.server.changed, p);
    if t.cache[p] != t.server.properties[p] {
      assert Find(t.server.changed, p).Some?;
    }
  }

  lemma EmissionSyncs(t: Session)
    requires InSync(t)
    ensures var s := t.server; Applied(t.cache, Delta(s.properties, s.changed)) == s.properties
  {
    var s := t.server;
    forall p | 0 <= p < PROPERTIES
      ensures Applied(t.cache, Delta(s.properties, s.changed))[p] == s.properties[p]
    {
      EmissionEffect(t, p);
      if t.cache[p] != s.properties[p] {
        assert Find(s.changed, p).Some?;
      }
    }
  }

  lemma StepKeepsSync(t: Session, e: Event)
    requires InSync(t) && Enabled(t, e) && e != EvExported(false)
    ensures InSync(Step(t, e))
    ensures e.EvIdle? || (e.EvFlush? && !t.server.notifyQueued) ==>
              Step(t, e).cache == Step(t, e).server.properties
  {
    match e {
      case EvSet(prop, value) => SetKeepsSync(t, prop, value);
      case EvThaw =>
      case EvIdle => EmissionSyncs(t);
      case EvFlush =>
        EmissionSyncs(t);
        if t.server.changed == [] {
          assert t.cache == t.server.properties;
        }
      case EvExported(_) =>
    }
  }

  lemma SetKeepsSync(t: Session, prop: nat, value: Value)
    requires InSync(t) && prop < PROPERTIES
    ensures InSync(Session(SetProperty(t.server, prop, value), t.cache))
  {
    var s, u := t.server, SetProperty(t.server, prop, value);
    if value != s.properties[prop] && Find(s.changed, prop).None? {
      assert u.changed[1..] == s.changed;
      forall p | 0 <= p < PROPERTIES && Find(u.changed, p).None? ensures t.cache[p] == u.properties[p] {
        assert p != prop;
        assert Find(s.changed, p).None?;
      }
    }
  }

  function Run(t: Session, events: seq<Event>): Option<Session>
    requires WellFormed(t)
    ensures Run(t, events).Some? ==> WellFormed(Run(t, events).value)
  {
    if events == [] then Some(t)
    else
      match Run(t, events[..|events| - 1])
      case None => None
      case Some(u) => var e := events[|events| - 1]; if Enabled(u, e) then Some(Step(u, e)) else None
  }

  /** A client that read all properties while none was pending is in sync as long as the interface stays
      on the bus: whenever the idle callback has run, or nothing is pending, it holds the server's properties. */
  lemma {:induction false} ClientStaysInSync(server: Skeleton, events: seq<Event>)
    requires server.WellFormed() && server.exported && server.changed == []
    requires Run(Session(server, server.properties), events).Some? && EvExported(false) !in events
    ensures var t := Run(Session(server, server.properties), events).value;
            && InSync(t)
            && (t.server.changed == [] ==> t.cache == t.server.properties)
            && (events != [] && events[|events| - 1].EvIdle? ==> t.cache == t.server.properties)
  {
    var t := Session(server, server.properties);
    if events != [] {
      var n := |events| - 1;
      ClientStaysInSync(server, events[..n]);
      StepKeepsSync(Run(t, events[..n]).value, events[n]);
    }
    var u := Run(t, events).value;
    if u.server.changed == [] {
      assert u.cache == u.server.properties;
    }
  }

  // ----- Off the bus

  /** What clients in sync hold for a property. */
  function Seen(s: Skeleton, p: nat): Value
    requires s.WellFormed() && p < PROPERTIES
  {
    if Find(s.changed, p).Some? then Find(s.changed, p).value else s.properties[p]
  }

  lemma {:induction false} FindAt(changed: seq<Changed>, p: nat) returns (i: nat)
    requires Find(changed, p).Some?
    ensures i < |changed| && changed[i] == Changed(p, Find(changed, p).value)
  {
    if changed[0].prop == p {
      return 0;
    }
    i := FindAt(changed[1..], p);
    i := i + 1;
  }

  lemma SeenIsCache(t: Session, p: nat)
    requires InSync(t) && p < PROPERTIES
    ensures t.cache[p] == Seen(t.server, p)
  {
    if Find(t.server.changed, p).Some? {
      var i := FindAt(t.server.changed, p);
    }
  }

  /** While the interface is off the bus nothing becomes pending and clients hear nothing; an emission only
      forgets what was pending. */
  predicate Away(before: Session, t: Session) {
    && WellFormed(before) && WellFormed(t)
    && !t.server.exported && t.cache == before.cache
    && (t.server.changed == before.server.changed || t.server.changed == [])
    && (t.server.changed != [] ==> t.server.scheduled || t.server.notifyQueued)
  }

  lemma {:induction false} StaysAway(before: Session, events: seq<Event>)
    requires InSync(before) && EvExported(true) !in events
    requires Run(Step(before, EvExported(false)), events).Some?
    ensures Away(before, Run(Step(before, EvExported(false)), events).value)
  {
    if events != [] {
      var n := |events| - 1;
      StaysAway(before, events[..n]);
      StepStaysAway(before, Run(Step(before, EvExported(false)), events[..n]).value, events[n]);
    }
  }

  lemma StepStaysAway(before: Session, t: Session, e: Event)
    requires Away(before, t) && Enabled(t, e) && e != EvExported(true)
    ensures Away(before, Step(t, e))
  {
  }

  /** A client that was in sync when the interface left the bus is in sync when it returns if and only if
      every property is still pending or has the value that clients held when it left. */
  lemma ReturnSyncsExactly(before: Session, events: seq<Event>)
    requires InSync(before) && EvExported(true) !in events
    requires Run(Step(before, EvExported(false)), events).Some?
    ensures var t := Run(Step(before, EvExported(false)), events).value;
            InSync(Step(t, EvExported(true))) <==>
              forall p :: 0 <= p < PROPERTIES ==>
                Find(t.server.changed, p).Some? || Seen(before.server, p) == t.server.properties[p]
  {
    StaysAway(before, events);
    forall p | 0 <= p < PROPERTIES ensures before.cache[p] == Seen(before.server, p) {
      SeenIsCache(before, p);
    }
  }

  /** A change that is undone before the emission is not announced. */
  lemma UndoneChangeIsSilent(server: Skeleton, prop: nat, value: Value)
    requires server.WellFormed() && server.exported && server.changed == [] && prop < PROPERTIES
    ensures var s := SetProperty(SetProperty(server, prop, value), prop, server.properties[prop]);
            s.properties == server.properties && Delta(s.properties, s.changed) == []
  {
    var once := SetProperty(server, prop, value);
    var s := SetProperty(once, prop, server.properties[prop]);
    if value != server.properties[prop] {
      assert once.changed == [Changed(prop, server.properties[prop])];
      assert s.changed == once.changed && s.changed[..0] == [];
      assert s.properties == server.properties;
    }
  }

  /** A client that reads the properties while a change is pending keeps a wrong value when the change
      is undone before the emission: nothing tells it. */
  lemma LateReaderMissesUndoneChange(server: Skeleton, prop: nat, value: Value)
    requires server.WellFormed() && server.exported && server.changed == [] && prop < PROPERTIES
    requires value != server.properties[prop]
    ensures var once := SetProperty(server, prop, value);
            var undone := EvSet(prop, server.properties[prop]);
            var t := Step(Step(Step(Session(once, once.properties), undone), EvThaw), EvIdle);
            && t.cache[prop] == value && t.server.properties[prop] == server.properties[prop]
            && t.server.changed == [] && !t.server.scheduled
  {
    UndoneChangeIsSilent(server, prop, value);
  }

  // ----- What the signals say

  predicate AreProperties(changed: seq<Changed>, n: nat) { forall i :: 0 <= i < |changed| ==> changed[i].prop < n }

  /** A signal has the pending properties in the order of the list. */
  lemma {:induction false} DeltaInOrder(properties: seq<Value>, a: seq<Changed>, b: seq<Changed>)
    requires AreProperties(a, |properties|) && AreProperties(b, |properties|)
    ensures AreProperties(a + b, |properties|)
    ensures Delta(properties, a + b) == Delta(properties, a) + Delta(properties, b)
  {
    if b == [] {
      assert a + b == a;
    } else {
      var n := |b| - 1;
      assert (a + b)[..|a| + n] == a + b[..n];
      DeltaInOrder(properties, a, b[..n]);
      assert AreProperties(a + b, |properties|);
    }
  }

  /** A pending property is announced with its present value, unless it went back. */
  lemma DeltaOfOne(properties: seq<Value>, c: Changed)
    requires c.prop < |properties|
    ensures Delta(properties, [c]) == if c.orig == properties[c.prop] then [] else [Change(c.prop, properties[c.prop])]
  {
    assert [c][..0] == [];
  }

  /** What a property was set to last, or its first value. */
  function LastSet(events: seq<Event>, p: nat, first: Value): Value {
    if events == [] then first
    else
      var e := events[|events| - 1];
      if e.EvSet? && e.prop == p then e.value else LastSet(events[..|events| - 1], p, first)
  }

  /** Whatever is on the bus or pending, a property has the value that it was set to last. */
  lemma {:induction false} PropertiesAreLastSet(t: Session, events: seq<Event>, p: nat)
    requires WellFormed(t) && Run(t, events).Some? && p < PROPERTIES
    ensures Run(t, events).value.server.properties[p] == LastSet(events, p, t.server.properties[p])
  {
    if events != [] {
      PropertiesAreLastSet(t, events[..|events| - 1], p);
    }
  }

  /** Nothing stays pending or scheduled after an emission, and a thaw schedules one exactly when something was
      set and is pending. */
  lemma EmissionSettles(t: Session, e: Event)
    requires WellFormed(t) && Enabled(t, e)
    ensures var u := Step(t, e).server;
            && (e.EvIdle? || (e.EvFlush? && t.server.scheduled) ==> u.changed == [] && !u.scheduled)
            && (e.EvThaw? ==>
                  !u.notifyQueued && u.changed == t.server.changed &&
                  (u.scheduled <==> t.server.scheduled || (t.server.notifyQueued && t.server.changed != [])))
            && (e.EvSet? && !t.server.exported ==> u.changed == t.server.changed)
            && (e.EvSet? && e.value == t.server.properties[e.prop] ==> Step(t, e) == t)
            && (e.EvFlush? && !t.server.scheduled ==> Step(t, e) == t)
  {
  }
}
