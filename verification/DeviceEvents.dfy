/**
 src/linux/up-backend.c and src/up-daemon.c: the events of the kernel that add and remove devices,
 and the signals by which clients follow the list.
 */
module DeviceEvents {
  import opened DeviceIndex
  import opened Wrappers

  datatype Signal = DeviceAdded(path: ObjectPath) | DeviceRemoved(path: ObjectPath)

  /** A new device object, and its path on the bus unless its export failed. */
  datatype Created = Created(device: Device, objectPath: Option<ObjectPath>)

  datatype Index = Index(list: List, objectPaths: map<Device, Option<ObjectPath>>, signals: seq<Signal>)

  const NoDevices: Index := Index(List([], map[], map[]), map[], [])

  function PathOf(s: Index, d: Device): Option<ObjectPath> {
    if d in s.objectPaths then s.objectPaths[d] else None
  }

  /** The device is made with one reference, and listed with two more. A device without a path on the
      bus is not announced. */
  function Add(s: Index, path: NativePath, created: Option<Created>): Index {
    if path in s.list.byPath then s
    else
      match created
      case None => s
      case Some(c) =>
        Index(s.list.WithRefs(c.device, 1).Insert(path, c.device),
              s.objectPaths[c.device := c.objectPath],
              s.signals + if c.objectPath.Some? then [DeviceAdded(c.objectPath.value)] else [])
  }

  /** A change of a device that is not listed adds it. A change of a listed one refreshes it. */
  function Change(s: Index, path: NativePath, created: Option<Created>): Index {
    if path in s.list.byPath then s else Add(s, path, created)
  }

  /** A device that was not announced keeps the reference from its creation. */
  function Remove(s: Index, path: NativePath): Index
    requires s.list.Valid() && forall d :: d in s.list.devices ==> s.list.refs[d] >= 3
  {
    if path !in s.list.byPath then s
    else
      var d := s.list.byPath[path];
      var rest := s.list.Remove(d);
      match PathOf(s, d)
      case None => s.(list := rest)
      case Some(p) => s.(list := rest.WithRefs(d, rest.refs[d] - 1), signals := s.signals + [DeviceRemoved(p)])
  }

  datatype Event =
    | UeventAdd(path: NativePath, created: Option<Created>)
    | UeventChange(path: NativePath, created: Option<Created>)
    | UeventRemove(path: NativePath)
    | UeventOther

  /** Each listed device is held by its creation, the array and the table. */
  predicate Held(s: Index) {
    && s.list.Valid()
    && (forall d :: d in s.list.devices ==> s.list.refs[d] == 3)
    && s.objectPaths.Keys == s.list.refs.Keys
  }

  predicate IsNew(s: Index, created: Option<Created>) { created.Some? ==> created.value.device !in s.list.refs }

  predicate Enabled(s: Index, e: Event) {
    match e
    case UeventAdd(_, created) => IsNew(s, created)
    case UeventChange(_, created) => IsNew(s, created)
    case _ => true
  }

  function Step(s: Index, e: Event): Index
    requires Held(s)
  {
    match e
    case UeventAdd(path, created) => Add(s, path, created)
    case UeventChange(path, created) => Change(s, path, created)
    case UeventRemove(path) => Remove(s, path)
    case UeventOther => s
  }

  class DeviceBackend {
    const list: UpDeviceList
    var objectPaths: map<Device, Option<ObjectPath>>
    var signals: seq<Signal>

    ghost function View(): Index
      reads this, list
    {
      Index(list.View(), objectPaths, signals)
    }

    constructor ()
      ensures View() == NoDevices && fresh(list)
    {
      list := new UpDeviceList();
      objectPaths, signals := map[], [];
    }

    /** `created` is what making a device object for this path gives. The add and change handlers call
        each other, but at most once: each passes on only the case that the other handles itself. */
    method DeviceAdd(path: NativePath, created: Option<Created>) returns (ok: bool)
      requires Held(View()) && IsNew(View(), created)
      modifies this, list
      ensures Held(View()) && View() == Add(old(View()), path, created)
      ensures ok <==> path in old(list.byPath) || created.Some?
      decreases if path in list.byPath then 1 else 0
    {
      var found := list.Lookup(path);
      if found.Some? {
        list.Unref(found.value);
        assert View() == old(View());
        DeviceChanged(path, created);
        return true;
      }
      if created == None {
        return false;
      }
      var device := created.value.device;
      list.refs := list.refs[device := 1];
      objectPaths := objectPaths[device := created.value.objectPath];
      DeviceAddedCb(path, device);
      AddKeepsHeld(old(View()), path, created);
      return true;
    }

    method DeviceAddedCb(path: NativePath, device: Device)
      requires list.View().Valid() && path !in list.byPath && device !in list.devices
      requires device in list.refs && device in objectPaths
      modifies this`signals, list
      ensures list.View() == old(list.View()).Insert(path, device)
      ensures signals == old(signals) +
                if objectPaths[device].Some? then [DeviceAdded(objectPaths[device].value)] else []
    {
      list.Insert(path, device);
      var objectPath := objectPaths[device];
      if objectPath == None {
        return;
      }
      signals := signals + [DeviceAdded(objectPath.value)];
    }

    method DeviceChanged(path: NativePath, created: Option<Created>)
      requires Held(View()) && IsNew(View(), created)
      modifies this, list
      ensures Held(View()) && View() == Change(old(View()), path, created)
      decreases if path in list.byPath then 0 else 1
    {
      var found := list.Lookup(path);
      if found.None? {
        var _ := DeviceAdd(path, created);
        return;
      }
      list.Unref(found.value);
      assert View() == old(View());
    }

    method DeviceRemove(path: NativePath)
      requires Held(View())
      modifies this, list
      ensures Held(View()) && View() == Remove(old(View()), path)
    {
      var found := list.Lookup(path);
      if found.None? {
        return;
      }
      ghost var before := old(View());
      RemoveKeepsHeld(before, path);
      RemoveOutcome(before, path);
      LookupThenRemove(View(), before.list, found.value);
      DeviceRemovedCb(found.value);
      list.Unref(found.value);
    }

    method DeviceRemovedCb(device: Device)
      requires list.View().Valid() && device in list.devices && list.refs[device] == 4 && device in objectPaths
      modifies this`signals, list
      ensures var rest := old(list.View()).Remove(device);
              list.View() == if objectPaths[device].Some? then rest.WithRefs(device, 1) else rest
      ensures signals == old(signals) +
                if objectPaths[device].Some? then [DeviceRemoved(objectPaths[device].value)] else []
    {
      list.Remove(device);
      var objectPath := objectPaths[device];
      if objectPath == None {
        return;
      }
      signals := signals + [DeviceRemoved(objectPath.value)];
      list.Unref(device);
    }

    method Uevent(e: Event)
      requires Held(View()) && Enabled(View(), e)
      modifies this, list
      ensures Held(View()) && View() == Step(old(View()), e)
    {
      match e {
        case UeventAdd(path, created) => var _ := DeviceAdd(path, created);
        case UeventChange(path, created) => DeviceChanged(path, created);
        case UeventRemove(path) => DeviceRemove(path);
        case UeventOther =>
      }
    }
  }

  /** A reference that is taken before a device is removed is the only one left afterwards. */
  lemma LookupThenRemove(s: Index, before: List, d: Device)
    requires before.Valid() && d in before.devices && before.refs[d] == 3
    requires s.list == before.WithRefs(d, 4)
    ensures s.list.Valid()
    ensures s.list.Remove(d) == before.Remove(d).WithRefs(d, 2)
  {
  }

  lemma RemoveOutcome(s: Index, path: NativePath)
    requires Held(s) && path in s.list.byPath
    ensures var d := s.list.byPath[path];
            var rest := s.list.Remove(d).WithRefs(d, 2);
            if PathOf(s, d).None? then Remove(s, path) == s.(list := rest.WithRefs(d, 1))
            else Remove(s, path) == s.(list := rest.WithRefs(d, 1).WithRefs(d, 0),
                                       signals := s.signals + [DeviceRemoved(PathOf(s, d).value)])
  {
  }

  lemma AddKeepsHeld(s: Index, path: NativePath, created: Option<Created>)
    requires Held(s) && IsNew(s, created)
    ensures Held(Add(s, path, created))
  {
    if path !in s.list.byPath && created.Some? {
      var d := created.value.device;
      InsertKeepsValid(s.list.WithRefs(d, 1), path, d);
    }
  }

  lemma RemoveKeepsHeld(s: Index, path: NativePath)
    requires Held(s)
    ensures Held(Remove(s, path))
  {
    if path in s.list.byPath {
      RemoveKeepsValid(s.list, s.list.byPath[path]);
      RemoveFirstIsDistinct(s.list.devices, s.list.byPath[path]);
    }
  }

  // ----- What clients can know

  function KnownAfter(before: multiset<ObjectPath>, signal: Signal): multiset<ObjectPath> {
    match signal
    case DeviceAdded(p) => before + multiset{p}
    case DeviceRemoved(p) => before - multiset{p}
  }

  /** The paths that a client knows after the signals. */
  function Known(signals: seq<Signal>): multiset<ObjectPath> {
    if signals == [] then multiset{} else KnownAfter(Known(signals[..|signals| - 1]), signals[|signals| - 1])
  }

  /** No path is removed that is not known. */
  predicate RemovesKnown(signals: seq<Signal>) {
    signals == [] ||
    var n := |signals| - 1;
    RemovesKnown(signals[..n]) && (signals[n].DeviceRemoved? ==> signals[n].path in Known(signals[..n]))
  }

  function PathBag(d: Device, paths: map<Device, Option<ObjectPath>>): multiset<ObjectPath> {
    if d in paths && paths[d].Some? then multiset{paths[d].value} else multiset{}
  }

  /** The paths of the devices that have one. */
  function Announced(devices: seq<Device>, paths: map<Device, Option<ObjectPath>>): multiset<ObjectPath> {
    if devices == [] then multiset{} else Announced(devices[1..], paths) + PathBag(devices[0], paths)
  }

  /** What EnumerateDevices returns: a missing path ends the list. */
  function Enumerated(devices: seq<Device>, paths: map<Device, Option<ObjectPath>>): seq<ObjectPath> {
    if devices == [] || devices[0] !in paths || paths[devices[0]].None? then []
    else [paths[devices[0]].value] + Enumerated(devices[1..], paths)
  }

  lemma {:induction false} AnnouncedSnoc(devices: seq<Device>, d: Device, paths: map<Device, Option<ObjectPath>>)
    ensures Announced(devices + [d], paths) == Announced(devices, paths) + PathBag(d, paths)
  {
    if devices == [] {
      assert (devices + [d])[1..] == [];
    } else {
      assert (devices + [d])[1..] == devices[1..] + [d];
      AnnouncedSnoc(devices[1..], d, paths);
    }
  }

  lemma {:induction false} AnnouncedRemove(devices: seq<Device>, d: Device, paths: map<Device, Option<ObjectPath>>)
    requires d in devices
    ensures Announced(devices, paths) == Announced(RemoveFirst(devices, d), paths) + PathBag(d, paths)
  {
    if devices[0] != d {
      assert d in devices[1..];
      AnnouncedRemove(devices[1..], d, paths);
      assert RemoveFirst(devices, d)[1..] == RemoveFirst(devices[1..], d);
    }
  }

  lemma {:induction false} AnnouncedFrame(devices: seq<Device>, d: Device, path: Option<ObjectPath>,
                                          paths: map<Device, Option<ObjectPath>>)
    requires d !in devices
    ensures Announced(devices, paths[d := path]) == Announced(devices, paths)
  {
    if devices != [] {
      AnnouncedFrame(devices[1..], d, path, paths);
    }
  }

  /** Clients that follow the signals know the listed devices that are on the bus. */
  predicate Replayed(s: Index) {
    Known(s.signals) == Announced(s.list.devices, s.objectPaths) && RemovesKnown(s.signals)
  }

  /** Every device that is no longer listed is released, except that one that was never announced
      leaks. */
  predicate Released(s: Index) {
    forall d :: d in s.list.refs && d !in s.list.devices ==>
      s.list.refs[d] == if PathOf(s, d).Some? then 0 else 1
  }

  predicate Followed(s: Index) { Held(s) && Replayed(s) && Released(s) }

  lemma KnownSnoc(signals: seq<Signal>, last: Signal)
    ensures Known(signals + [last]) == KnownAfter(Known(signals), last)
    ensures RemovesKnown(signals + [last]) <==>
              RemovesKnown(signals) && (last.DeviceRemoved? ==> last.path in Known(signals))
  {
    assert (signals + [last])[..|signals|] == signals;
  }

  lemma AddKeepsReplayed(s: Index, path: NativePath, c: Created)
    requires Held(s) && Replayed(s) && path !in s.list.byPath && c.device !in s.list.refs
    ensures Replayed(Add(s, path, Some(c)))
  {
    var t := Add(s, path, Some(c));
    AnnouncedSnoc(s.list.devices, c.device, t.objectPaths);
    AnnouncedFrame(s.list.devices, c.device, c.objectPath, s.objectPaths);
    var bag := PathBag(c.device, t.objectPaths);
    assert Announced(t.list.devices, t.objectPaths) == Announced(s.list.devices, s.objectPaths) + bag;
    if c.objectPath.Some? {
      KnownSnoc(s.signals, DeviceAdded(c.objectPath.value));
    } else {
      assert t.signals == s.signals;
    }
  }

  lemma AddKeepsFollowed(s: Index, path: NativePath, created: Option<Created>)
    requires Followed(s) && IsNew(s, created)
    ensures Followed(Add(s, path, created))
  {
    AddKeepsHeld(s, path, created);
    if path !in s.list.byPath && created.Some? {
      AddKeepsReplayed(s, path, created.value);
    }
  }

  lemma RemoveKeepsReplayed(s: Index, path: NativePath)
    requires Held(s) && Replayed(s) && path in s.list.byPath
    ensures Replayed(Remove(s, path))
  {
    var d := s.list.byPath[path];
    AnnouncedRemove(s.list.devices, d, s.objectPaths);
    if PathOf(s, d).Some? {
      KnownSnoc(s.signals, DeviceRemoved(PathOf(s, d).value));
      assert PathOf(s, d).value in Announced(s.list.devices, s.objectPaths);
    }
  }

  lemma RemoveKeepsReleased(s: Index, path: NativePath)
    requires Held(s) && Released(s) && path in s.list.byPath
    ensures Released(Remove(s, path))
  {
    var d, t := s.list.byPath[path], Remove(s, path);
    RemoveFirstIsDistinct(s.list.devices, d);
    forall e | e in t.list.refs && e !in t.list.devices
      ensures t.list.refs[e] == if PathOf(t, e).Some? then 0 else 1
    {
      if e != d {
        assert e !in s.list.devices && t.list.refs[e] == s.list.refs[e];
      }
    }
  }

  lemma RemoveKeepsFollowed(s: Index, path: NativePath)
    requires Followed(s)
    ensures Followed(Remove(s, path))
  {
    RemoveKeepsHeld(s, path);
    if path in s.list.byPath {
      RemoveKeepsReplayed(s, path);
      RemoveKeepsReleased(s, path);
    }
  }

  function Run(events: seq<Event>): (r: Option<Index>)
    ensures r.Some? ==> Followed(r.value)
  {
    if events == [] then
      assert Followed(NoDevices);
      Some(NoDevices)
    else
      match Run(events[..|events| - 1])
      case None => None
      case Some(s) =>
        var e := events[|events| - 1];
        if !Enabled(s, e) then None
        else
          StepKeepsFollowed(s, e);
          Some(Step(s, e))
  }

  lemma StepKeepsFollowed(s: Index, e: Event)
    requires Followed(s) && Enabled(s, e)
    ensures Followed(Step(s, e))
  {
    match e {
      case UeventAdd(path, created) => AddKeepsFollowed(s, path, created);
      case UeventChange(path, created) => AddKeepsFollowed(s, path, created);
      case UeventRemove(path) => RemoveKeepsFollowed(s, path);
      case UeventOther =>
    }
  }

  predicate ExportedFirst(devices: seq<Device>, paths: map<Device, Option<ObjectPath>>) {
    forall i, j :: 0 <= i < j < |devices| && devices[j] in paths && paths[devices[j]].Some? ==>
      devices[i] in paths && paths[devices[i]].Some?
  }

  lemma EnumeratedStep(devices: seq<Device>, paths: map<Device, Option<ObjectPath>>)
    requires devices != [] && devices[0] in paths && paths[devices[0]].Some?
    ensures multiset(Enumerated(devices, paths)) == Announced(devices, paths) <==>
              multiset(Enumerated(devices[1..], paths)) == Announced(devices[1..], paths)
  {
    var e, p := Enumerated(devices[1..], paths), paths[devices[0]].value;
    BagOfCons(p, e);
    SameRest(multiset(e), Announced(devices[1..], paths), p);
  }

  lemma EnumeratedStop(devices: seq<Device>, paths: map<Device, Option<ObjectPath>>)
    requires devices != [] && (devices[0] !in paths || paths[devices[0]].None?)
    ensures multiset(Enumerated(devices, paths)) == Announced(devices, paths) <==> ExportedFirst(devices, paths)
  {
    NothingAnnounced(devices, paths);
    assert Enumerated(devices, paths) == [];
  }

  lemma {:induction false} EnumeratedIsAnnounced(devices: seq<Device>, paths: map<Device, Option<ObjectPath>>)
    ensures multiset(Enumerated(devices, paths)) == Announced(devices, paths) <==> ExportedFirst(devices, paths)
  {
    if devices != [] {
      if devices[0] in paths && paths[devices[0]].Some? {
        EnumeratedIsAnnounced(devices[1..], paths);
        EnumeratedStep(devices, paths);
        ExportedFirstTail(devices, paths);
      } else {
        EnumeratedStop(devices, paths);
      }
    }
  }

  lemma BagOfCons(p: ObjectPath, e: seq<ObjectPath>)
    ensures multiset([p] + e) == multiset{p} + multiset(e)
  {
  }

  lemma SameRest(a: multiset<ObjectPath>, b: multiset<ObjectPath>, p: ObjectPath)
    ensures multiset{p} + a == b + multiset{p} <==> a == b
  {
    if multiset{p} + a == b + multiset{p} {
      assert (multiset{p} + a) - multiset{p} == a;
      assert (b + multiset{p}) - multiset{p} == b;
    }
  }

  lemma ExportedFirstTail(devices: seq<Device>, paths: map<Device, Option<ObjectPath>>)
    requires devices != [] && devices[0] in paths && paths[devices[0]].Some?
    ensures ExportedFirst(devices, paths) <==> ExportedFirst(devices[1..], paths)
  {
    if ExportedFirst(devices, paths) {
      forall i, j | 0 <= i < j < |devices[1..]| && devices[1..][j] in paths && paths[devices[1..][j]].Some?
        ensures devices[1..][i] in paths && paths[devices[1..][i]].Some?
      {
        assert devices[i + 1] == devices[1..][i] && devices[j + 1] == devices[1..][j];
      }
    }
    if ExportedFirst(devices[1..], paths) {
      forall i, j | 0 <= i < j < |devices| && devices[j] in paths && paths[devices[j]].Some?
        ensures devices[i] in paths && paths[devices[i]].Some?
      {
        if i > 0 {
          assert devices[1..][i - 1] == devices[i] && devices[1..][j - 1] == devices[j];
        }
      }
    }
  }

  lemma {:induction false} NothingAnnounced(devices: seq<Device>, paths: map<Device, Option<ObjectPath>>)
    ensures Announced(devices, paths) == multiset{} <==>
              forall i :: 0 <= i < |devices| ==> devices[i] !in paths || paths[devices[i]].None?
  {
    if devices != [] {
      NothingAnnounced(devices[1..], paths);
      if devices[0] in paths && paths[devices[0]].Some? {
        assert paths[devices[0]].value in Announced(devices, paths);
      }
    }
  }

  /** Replaying the signals of any run gives exactly the devices that EnumerateDevices returns, if and
      only if no device without a path on the bus precedes one with a path. */
  lemma ReplayMatchesEnumeration(events: seq<Event>)
    requires Run(events).Some?
    ensures var s := Run(events).value;
            && (Known(s.signals) == multiset(Enumerated(s.list.devices, s.objectPaths)) <==>
                  ExportedFirst(s.list.devices, s.objectPaths))
            && RemovesKnown(s.signals)
  {
    var s := Run(events).value;
    EnumeratedIsAnnounced(s.list.devices, s.objectPaths);
  }

  /** Shutting down drops the three references to each listed device. */
  lemma ShutdownReleasesAll(events: seq<Event>)
    requires Run(events).Some?
    ensures var s := Run(events).value;
            && s.list.Clear(true).devices == [] && s.list.Clear(true).byPath == map[]
            && forall d :: d in s.list.refs && s.objectPaths[d].Some? ==> s.list.Clear(true).refs[d] == 0
  {
  }

  // ----- The list by its past

  /** The device that an event brings, if it is about a path for the first time. */
  function Brought(known: set<NativePath>, e: Event): Option<Created> {
    if (e.UeventAdd? || e.UeventChange?) && e.path !in known then e.created else None
  }

  /** The paths of the devices that events have added and not removed. */
  function Table(events: seq<Event>): map<NativePath, Device> {
    if events == [] then map[]
    else
      var before, e := Table(events[..|events| - 1]), events[|events| - 1];
      if e.UeventRemove? then before - {e.path}
      else if Brought(before.Keys, e).Some? then before[e.path := Brought(before.Keys, e).value.device]
      else before
  }

  /** A device that is brought goes to the end of the list, and is announced with its path if it has one. */
  predicate Brings(s: Index, t: Index, path: NativePath, c: Created) {
    && t.list.devices == s.list.devices + [c.device] && t.list.byPath == s.list.byPath[path := c.device]
    && t.objectPaths == s.objectPaths[c.device := c.objectPath]
    && t.signals == s.signals + if c.objectPath.Some? then [DeviceAdded(c.objectPath.value)] else []
  }

  /** A device that is taken leaves the list, and clients are told if it had been announced. */
  ghost predicate Takes(s: Index, t: Index, path: NativePath)
    requires path in s.list.byPath
  {
    var d := s.list.byPath[path];
    && (forall x :: x in t.list.devices <==> x in s.list.devices && x != d)
    && t.list.byPath == s.list.byPath - {path} && t.objectPaths == s.objectPaths
    && t.signals == s.signals + match PathOf(s, d) case Some(p) => [DeviceRemoved(p)] case None => []
  }

  lemma RemoveTakes(s: Index, path: NativePath)
    requires Held(s) && path in s.list.byPath
    ensures Takes(s, Remove(s, path), path)
  {
    var d := s.list.byPath[path];
    RemoveFirstIsDistinct(s.list.devices, d);
    assert s.list.Remove(d).byPath == s.list.byPath - {path};
  }

  /** What one event does: nothing, unless it brings a device or removes a listed path. */
  lemma EventExactly(s: Index, e: Event)
    requires Held(s) && Enabled(s, e)
    ensures var t, brought := Step(s, e), Brought(s.list.byPath.Keys, e);
            if brought.Some? then Brings(s, t, e.path, brought.value)
            else if e.UeventRemove? && e.path in s.list.byPath then Takes(s, t, e.path)
            else t == s
  {
    if e.UeventRemove? && e.path in s.list.byPath {
      RemoveTakes(s, e.path);
    }
  }

  /** After any run the table has the paths that were added and not removed, with their devices. */
  lemma {:induction false} TableByPast(events: seq<Event>)
    requires Run(events).Some?
    ensures Run(events).value.list.byPath == Table(events)
  {
    if events != [] {
      var n := |events| - 1;
      TableByPast(events[..n]);
      EventExactly(Run(events[..n]).value, events[n]);
      if events[n].UeventRemove? {
        assert events[n].path !in Table(events[..n]) ==> Table(events[..n]) - {events[n].path} == Table(events[..n]);
      }
    }
  }
}
