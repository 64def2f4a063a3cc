/**
 src/linux/up-backend.c and src/up-daemon.c: the order in which a client that follows the signals has
 the devices.
 */
module DeviceReplay {
  import opened DeviceEvents
  import opened DeviceIndex
  import opened Wrappers

  /** The paths that a client has after the signals: added ones go to the end. */
  function Replay(signals: seq<Signal>): seq<ObjectPath> {
    if signals == [] then []
    else
      var before := Replay(signals[..|signals| - 1]);
      match signals[|signals| - 1]
      case DeviceAdded(p) => before + [p]
      case DeviceRemoved(p) => RemoveFirst(before, p)
  }

  function PathsOf(d: Device, paths: map<Device, Option<ObjectPath>>): seq<ObjectPath> {
    if d in paths && paths[d].Some? then [paths[d].value] else []
  }

  /** The paths of the devices that have one, in their order. */
  function ListedPaths(devices: seq<Device>, paths: map<Device, Option<ObjectPath>>): seq<ObjectPath> {
    if devices == [] then [] else PathsOf(devices[0], paths) + ListedPaths(devices[1..], paths)
  }

  /** No two listed devices have the same path. */
  predicate Unambiguous(devices: seq<Device>, paths: map<Device, Option<ObjectPath>>) {
    forall i, j :: 0 <= i < j < |devices| && PathsOf(devices[i], paths) != [] ==>
      PathsOf(devices[i], paths) != PathsOf(devices[j], paths)
  }

  lemma {:induction false} ListedSnoc(devices: seq<Device>, d: Device, paths: map<Device, Option<ObjectPath>>)
    ensures ListedPaths(devices + [d], paths) == ListedPaths(devices, paths) + PathsOf(d, paths)
  {
    if devices == [] {
      assert (devices + [d])[1..] == [];
    } else {
      assert (devices + [d])[1..] == devices[1..] + [d];
      ListedSnoc(devices[1..], d, paths);
    }
  }

  lemma {:induction false} ListedFrame(devices: seq<Device>, d: Device, path: Option<ObjectPath>,
                                       paths: map<Device, Option<ObjectPath>>)
    requires d !in devices
    ensures ListedPaths(devices, paths[d := path]) == ListedPaths(devices, paths)
  {
    if devices != [] {
      ListedFrame(devices[1..], d, path, paths);
    }
  }

  lemma UnambiguousTail(devices: seq<Device>, paths: map<Device, Option<ObjectPath>>)
    requires devices != [] && Unambiguous(devices, paths)
    ensures Unambiguous(devices[1..], paths)
    ensures forall d :: d in devices[1..] && PathsOf(devices[0], paths) != [] ==>
              PathsOf(devices[0], paths) != PathsOf(d, paths)
  {
    var rest := devices[1..];
    forall i, j | 0 <= i < j < |rest| && PathsOf(rest[i], paths) != []
      ensures PathsOf(rest[i], paths) != PathsOf(rest[j], paths)
    {
      assert rest[i] == devices[i + 1] && rest[j] == devices[j + 1];
    }
    forall d | d in rest && PathsOf(devices[0], paths) != []
      ensures PathsOf(devices[0], paths) != PathsOf(d, paths)
    {
      var j :| 0 <= j < |rest| && rest[j] == d;
      assert devices[j + 1] == d;
    }
  }

  lemma RemoveFirstOfCons<T>(a: T, s: seq<T>, x: T)
    ensures RemoveFirst([a] + s, x) == if a == x then s else [a] + RemoveFirst(s, x)
  {
    assert ([a] + s)[1..] == s;
  }

  /** Removing a device removes its path where it stands, for no other device has the same one. */
  lemma {:induction false} ListedRemove(devices: seq<Device>, d: Device, paths: map<Device, Option<ObjectPath>>)
    requires d in devices && Unambiguous(devices, paths)
    ensures ListedPaths(RemoveFirst(devices, d), paths) ==
              if PathsOf(d, paths) == [] then ListedPaths(devices, paths)
              else RemoveFirst(ListedPaths(devices, paths), PathsOf(d, paths)[0])
  {
    var e, rest := devices[0], devices[1..];
    var listed := ListedPaths(rest, paths);
    if PathsOf(e, paths) != [] && PathsOf(d, paths) != [] {
      RemoveFirstOfCons(PathsOf(e, paths)[0], listed, PathsOf(d, paths)[0]);
    }
    if e != d {
      UnambiguousTail(devices, paths);
      ListedRemove(rest, d, paths);
      var without, tail := RemoveFirst(devices, d), RemoveFirst(rest, d);
      assert without[0] == e && without[1..] == tail;
      assert ListedPaths(without, paths) == PathsOf(e, paths) + ListedPaths(tail, paths);
      if PathsOf(e, paths) == [] {
        assert ListedPaths(devices, paths) == listed && ListedPaths(without, paths) == ListedPaths(tail, paths);
      } else if PathsOf(d, paths) != [] {
        var a, p := PathsOf(e, paths)[0], PathsOf(d, paths)[0];
        assert PathsOf(e, paths) == [a] && PathsOf(d, paths) == [p] && a != p;
        assert RemoveFirst(ListedPaths(devices, paths), p) == [a] + RemoveFirst(listed, p);
      }
    }
  }

  /** The signals of a run, and a list in which every state on the way has distinct paths. */
  predicate AlwaysUnambiguous(events: seq<Event>) {
    Run(events).Some? &&
    Unambiguous(Run(events).value.list.devices, Run(events).value.objectPaths) &&
    (events != [] ==> AlwaysUnambiguous(events[..|events| - 1]))
  }

  predicate InOrder(s: Index) { Replay(s.signals) == ListedPaths(s.list.devices, s.objectPaths) }

  lemma AddKeepsOrder(s: Index, path: NativePath, created: Option<Created>)
    requires Followed(s) && InOrder(s) && IsNew(s, created)
    ensures InOrder(Add(s, path, created))
  {
    if path !in s.list.byPath && created.Some? {
      var c, t := created.value, Add(s, path, created);
      ListedSnoc(s.list.devices, c.device, t.objectPaths);
      ListedFrame(s.list.devices, c.device, c.objectPath, s.objectPaths);
      assert PathsOf(c.device, t.objectPaths) == if c.objectPath.Some? then [c.objectPath.value] else [];
      if c.objectPath.Some? {
        ReplaySnoc(s.signals, DeviceAdded(c.objectPath.value));
      } else {
        assert t.signals == s.signals;
      }
    }
  }

  lemma ReplaySnoc(signals: seq<Signal>, last: Signal)
    ensures Replay(signals + [last]) ==
              if last.DeviceAdded? then Replay(signals) + [last.path] else RemoveFirst(Replay(signals), last.path)
  {
    assert (signals + [last])[..|signals|] == signals;
  }

  lemma RemoveKeepsOrder(s: Index, path: NativePath)
    requires Followed(s) && InOrder(s) && Unambiguous(s.list.devices, s.objectPaths)
    ensures InOrder(Remove(s, path))
  {
    if path in s.list.byPath {
      var d := s.list.byPath[path];
      ListedRemove(s.list.devices, d, s.objectPaths);
      if PathOf(s, d).Some? {
        ReplaySnoc(s.signals, DeviceRemoved(PathOf(s, d).value));
      }
    }
  }

  lemma {:induction false} ReplayIsInOrder(events: seq<Event>)
    requires AlwaysUnambiguous(events)
    ensures InOrder(Run(events).value)
  {
    if events != [] {
      var n := |events| - 1;
      ReplayIsInOrder(events[..n]);
      var s := Run(events[..n]).value;
      match events[n] {
        case UeventAdd(path, created) => AddKeepsOrder(s, path, created);
        case UeventChange(path, created) => AddKeepsOrder(s, path, created);
        case UeventRemove(path) => RemoveKeepsOrder(s, path);
        case UeventOther =>
      }
    }
  }

  lemma {:induction false} EnumeratedInOrder(devices: seq<Device>, paths: map<Device, Option<ObjectPath>>)
    requires ExportedFirst(devices, paths)
    ensures Enumerated(devices, paths) == ListedPaths(devices, paths)
  {
    if devices != [] {
      if PathsOf(devices[0], paths) != [] {
        ExportedFirstTail(devices, paths);
        EnumeratedInOrder(devices[1..], paths);
      } else {
        NothingListed(devices, paths);
      }
    }
  }

  lemma {:induction false} NothingListed(devices: seq<Device>, paths: map<Device, Option<ObjectPath>>)
    requires forall i :: 0 <= i < |devices| ==> PathsOf(devices[i], paths) == []
    ensures ListedPaths(devices, paths) == []
  {
    if devices != [] {
      NothingListed(devices[1..], paths);
    }
  }

  lemma {:induction false} ListedIsAnnounced(devices: seq<Device>, paths: map<Device, Option<ObjectPath>>)
    ensures multiset(ListedPaths(devices, paths)) == Announced(devices, paths)
  {
    if devices != [] {
      ListedIsAnnounced(devices[1..], paths);
      assert multiset(PathsOf(devices[0], paths)) == PathBag(devices[0], paths);
    }
  }

  /** When no two listed devices ever have the same path, a client that appends what is added and removes
      what is removed has exactly the list that EnumerateDevices returns, in its order, if and only if no
      device without a path precedes one with a path. */
  lemma ReplayIsEnumeration(events: seq<Event>)
    requires AlwaysUnambiguous(events)
    ensures var s := Run(events).value;
            Replay(s.signals) == Enumerated(s.list.devices, s.objectPaths) <==>
              ExportedFirst(s.list.devices, s.objectPaths)
  {
    var s := Run(events).value;
    ReplayIsInOrder(events);
    ListedIsAnnounced(s.list.devices, s.objectPaths);
    EnumeratedIsAnnounced(s.list.devices, s.objectPaths);
    if ExportedFirst(s.list.devices, s.objectPaths) {
      EnumeratedInOrder(s.list.devices, s.objectPaths);
    }
  }
}
