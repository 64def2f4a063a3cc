/**
 src/up-device-list.c, src/linux/up-backend.c and src/up-daemon.c: the list of devices, the events of
 the kernel that change it, and the signals that tell clients about it.
 */
module DeviceIndex {
  import opened Wrappers

  type Device = nat
  type NativePath = string
  type ObjectPath = string

  predicate Distinct(s: seq<Device>) { forall i, j :: 0 <= i < j < |s| ==> s[i] != s[j] }

  predicate Injective(m: map<NativePath, Device>) {
    forall k, l :: k in m && l in m && m[k] == m[l] ==> k == l
  }

  function RemoveFirst<T(==)>(s: seq<T>, d: T): seq<T> {
    if s == [] then [] else if s[0] == d then s[1..] else [s[0]] + RemoveFirst(s[1..], d)
  }

  lemma {:induction false} RemoveFirstIsDistinct(s: seq<Device>, d: Device)
    requires Distinct(s)
    ensures Distinct(RemoveFirst(s, d))
    ensures forall e :: e in RemoveFirst(s, d) <==> e in s && e != d
  {
    if s != [] {
      RemoveFirstIsDistinct(s[1..], d);
      assert s[0] !in s[1..];
      assert forall e :: e in s <==> e == s[0] || e in s[1..];
    }
  }

  /** The array and the table of a list, with the reference counts of all objects. */
  datatype List = List(devices: seq<Device>, byPath: map<NativePath, Device>, refs: map<Device, nat>) {
    /** The array and the table have the same devices, each once, and hold a reference to each. */
    predicate Valid() {
      && Distinct(devices) && Injective(byPath)
      && (forall d :: d in devices ==> d in refs && refs[d] >= 2)
      && (forall k :: k in byPath ==> byPath[k] in devices)
      && (forall d :: d in devices ==> exists k :: k in byPath && byPath[k] == d)
    }

    function WithRefs(d: Device, n: nat): List { this.(refs := refs[d := n]) }

    function Insert(path: NativePath, d: Device): List
      requires d in refs
    {
      List(devices + [d], byPath[path := d], refs[d := refs[d] + 2])
    }

    function Remove(d: Device): List
      requires d in devices ==> d in refs && refs[d] >= 2
    {
      if d !in devices then this
      else List(RemoveFirst(devices, d), map k | k in byPath && byPath[k] != d :: byPath[k], refs[d := refs[d] - 2])
    }

    function Clear(owned: bool): List
      requires forall d :: d in devices ==> d in refs && refs[d] >= if owned then 3 else 2
    {
      var n := if owned then 3 else 2;
      List([], map[], map d | d in refs :: if d in devices then refs[d] - n else refs[d])
    }
  }

  lemma InsertKeepsValid(l: List, path: NativePath, d: Device)
    requires l.Valid() && path !in l.byPath && d !in l.devices && d in l.refs
    ensures l.Insert(path, d).Valid()
  {
    var m := l.Insert(path, d);
    forall e | e in m.devices ensures exists k :: k in m.byPath && m.byPath[k] == e {
      if e == d {
        assert path in m.byPath;
      } else {
        var k :| k in l.byPath && l.byPath[k] == e;
        assert k in m.byPath && m.byPath[k] == e;
      }
    }
  }

  lemma RemoveKeepsValid(l: List, d: Device)
    requires l.Valid()
    ensures l.Remove(d).Valid()
  {
    RemoveFirstIsDistinct(l.devices, d);
    var m := l.Remove(d);
    forall e | e in m.devices ensures exists k :: k in m.byPath && m.byPath[k] == e {
      var k :| k in l.byPath && l.byPath[k] == e;
      assert k in m.byPath && m.byPath[k] == e;
    }
  }

  class UpDeviceList {
    var devices: seq<Device>
    var byPath: map<NativePath, Device>
    // The environment: the reference counts of the objects.
    var refs: map<Device, nat>

    ghost function View(): List
      reads this
    {
      List(devices, byPath, refs)
    }

    constructor ()
      ensures View() == List([], map[], map[]) && View().Valid()
    {
      devices, byPath, refs := [], map[], map[];
    }

    method Ref(d: Device)
      requires d in refs
      modifies this`refs
      ensures refs == old(refs)[d := old(refs)[d] + 1]
    {
      refs := refs[d := refs[d] + 1];
    }

    /** A reference is dropped only by someone who holds one. */
    method Unref(d: Device)
      requires d in refs && refs[d] > 0
      modifies this`refs
      ensures refs == old(refs)[d := old(refs)[d] - 1]
    {
      refs := refs[d := refs[d] - 1];
    }

    /** The caller owns a reference to the result. */
    method Lookup(path: NativePath) returns (r: Option<Device>)
      requires View().Valid()
      modifies this`refs
      ensures r == if path in byPath then Some(byPath[path]) else None
      ensures refs == if r.Some? then old(refs)[r.value := old(refs)[r.value] + 1] else old(refs)
    {
      if path !in byPath {
        return None;
      }
      Ref(byPath[path]);
      return Some(byPath[path]);
    }

    method Insert(path: NativePath, d: Device)
      requires View().Valid() && path !in byPath && d !in devices && d in refs
      modifies this
      ensures View() == old(View()).Insert(path, d) && View().Valid()
    {
      InsertKeepsValid(View(), path, d);
      Ref(d);
      byPath := byPath[path := d];
      Ref(d);
      devices := devices + [d];
    }

    method Remove(d: Device)
      requires View().Valid()
      modifies this
      ensures View() == old(View()).Remove(d) && View().Valid()
    {
      RemoveKeepsValid(View(), d);
      if d in devices {
        var k :| k in byPath && byPath[k] == d;
        assert d in byPath.Values;
      } else {
        assert (map k | k in byPath && byPath[k] != d :: byPath[k]) == byPath;
        RemoveFirstAbsent(devices, d);
      }
      RemoveFromTable(d);
      RemoveFromArray(d);
    }

    /** Every entry of the table that has the device is removed and drops its reference. */
    method RemoveFromTable(d: Device)
      requires Injective(byPath)
      requires forall k :: k in byPath && byPath[k] == d ==> d in refs && refs[d] > 0
      modifies this`byPath, this`refs
      ensures byPath == map k | k in old(byPath) && old(byPath)[k] != d :: old(byPath)[k]
      ensures refs == if d in old(byPath).Values then old(refs)[d := old(refs)[d] - 1] else old(refs)
    {
      var rest := byPath.Keys;
      ghost var m := byPath;
      while rest != {}
        invariant rest <= m.Keys
        invariant byPath == map k | k in m && (k in rest || m[k] != d) :: m[k]
        invariant refs == if exists k :: k in m.Keys - rest && m[k] == d then old(refs)[d := old(refs)[d] - 1] else old(refs)
      {
        var k :| k in rest;
        if byPath[k] == d {
          assert forall l :: l in m && m[l] == d ==> l == k;
          Unref(d);
          byPath := byPath - {k};
        }
        rest := rest - {k};
      }
    }

    method RemoveFromArray(d: Device)
      requires d in devices ==> d in refs && refs[d] > 0
      modifies this`devices, this`refs
      ensures devices == RemoveFirst(old(devices), d)
      ensures refs == if d in old(devices) then old(refs)[d := old(refs)[d] - 1] else old(refs)
    {
      for i := 0 to |devices|
        invariant devices == old(devices) && refs == old(refs)
        invariant d !in devices[..i]
      {
        if devices[i] == d {
          RemoveFirstAt(devices, d, i);
          devices := devices[..i] + devices[i + 1..];
          Unref(d);
          return;
        }
      }
      RemoveFirstAbsent(devices, d);
    }

    /** `owned` says that the caller owns a reference to each device and wants to drop it. */
    method Clear(owned: bool)
      requires View().Valid()
      requires forall d :: d in devices ==> refs[d] >= if owned then 3 else 2
      modifies this
      ensures View() == old(View()).Clear(owned) && View().Valid()
    {
      TableHasDevices(View());
      if owned {
        UnrefEach(devices);
      }
      DropAll();
    }

    /** The table's and the array's reference to each device go. */
    method DropAll()
      requires Distinct(devices) && Injective(byPath)
      requires forall d :: d in byPath.Values <==> d in devices
      requires forall d :: d in devices ==> d in refs && refs[d] >= 2
      modifies this
      ensures devices == [] && byPath == map[]
      ensures refs == map d | d in old(refs) :: if d in old(devices) then old(refs)[d] - 2 else old(refs)[d]
    {
      ClearTable();
      UnrefEach(devices);
      devices := [];
    }

    method UnrefEach(all: seq<Device>)
      requires Distinct(all) && forall d :: d in all ==> d in refs && refs[d] > 0
      modifies this`refs
      ensures refs == map d | d in old(refs) :: if d in all then old(refs)[d] - 1 else old(refs)[d]
    {
      for i := 0 to |all|
        invariant refs.Keys == old(refs).Keys
        invariant forall d :: d in refs ==> refs[d] == if d in all[..i] then old(refs)[d] - 1 else old(refs)[d]
      {
        Unref(all[i]);
      }
      assert all[..|all|] == all;
    }

    method ClearTable()
      requires Injective(byPath)
      requires forall d :: d in byPath.Values ==> d in refs && refs[d] > 0
      modifies this`byPath, this`refs
      ensures byPath == map[]
      ensures refs == map d | d in old(refs) :: if d in old(byPath).Values then old(refs)[d] - 1 else old(refs)[d]
    {
      while byPath.Keys != {}
        invariant Injective(byPath) && byPath.Values <= old(byPath).Values
        invariant refs.Keys == old(refs).Keys
        invariant forall d :: d in refs ==>
          refs[d] == if d in old(byPath).Values - byPath.Values then old(refs)[d] - 1 else old(refs)[d]
        decreases byPath.Keys
      {
        var k :| k in byPath.Keys;
        assert byPath[k] in byPath.Values;
        ValuesWithout(byPath, k);
        Unref(byPath[k]);
        byPath := byPath - {k};
      }
    }
  }

  lemma ValuesWithout(m: map<NativePath, Device>, k: NativePath)
    requires Injective(m) && k in m
    ensures (m - {k}).Values == m.Values - {m[k]} && Injective(m - {k})
  {
    forall d | d in m.Values - {m[k]} ensures d in (m - {k}).Values {
      var l :| l in m && m[l] == d;
      assert l in m - {k} && (m - {k})[l] == d;
    }
  }

  /** The values of a valid list's table are the devices of its array. */
  lemma TableHasDevices(l: List)
    requires l.Valid()
    ensures forall d :: d in l.byPath.Values <==> d in l.devices
  {
    forall d | d in l.devices ensures d in l.byPath.Values {
      var k :| k in l.byPath && l.byPath[k] == d;
    }
  }

  lemma {:induction false} RemoveFirstAt(s: seq<Device>, d: Device, i: nat)
    requires i < |s| && s[i] == d && d !in s[..i]
    ensures RemoveFirst(s, d) == s[..i] + s[i + 1..]
  {
    if i > 0 {
      assert s[0] == s[..i][0];
      assert s[1..][..i - 1] == s[..i][1..];
      RemoveFirstAt(s[1..], d, i - 1);
    }
  }

  lemma {:induction false} RemoveFirstAbsent(s: seq<Device>, d: Device)
    requires d !in s
    ensures RemoveFirst(s, d) == s
  {
    if s != [] {
      RemoveFirstAbsent(s[1..], d);
    }
  }
}
