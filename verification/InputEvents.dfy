/**
 src/linux/up-input.c: the events of a lid switch, put together from reads of any size.
 */
module InputEvents {
  import opened Wrappers
  import opened InputBitmap

  /** sizeof (struct input_event) where a long has eight bytes. */
  const EVENT_SIZE: nat := 24
  const EV_SW: nat := 0x05
  const SW_LID: nat := 0x00

  type Event = s: seq<Byte> | |s| == EVENT_SIZE witness seq(EVENT_SIZE, _ => 0)

  function Word(low: Byte, high: Byte): nat { low as nat + 0x100 * high as nat }
  function TypeOf(e: Event): nat { Word(e[16], e[17]) }
  function CodeOf(e: Event): nat { Word(e[18], e[19]) }

  predicate IsLidEvent(e: Event) { TypeOf(e) == EV_SW && CodeOf(e) == SW_LID }

  // ----- A stream of bytes is a stream of events

  /** The stream cut into whole events. */
  function Events(s: seq<Byte>): seq<Event> {
    if |s| < EVENT_SIZE then [] else [s[..EVENT_SIZE]] + Events(s[EVENT_SIZE..])
  }

  /** What is left of it: the beginning of the next event. */
  function Remainder(s: seq<Byte>): (r: seq<Byte>)
    ensures |r| < EVENT_SIZE
  {
    if |s| < EVENT_SIZE then s else Remainder(s[EVENT_SIZE..])
  }

  lemma {:induction false} EventsAndRemainderSize(s: seq<Byte>)
    ensures |s| == |Events(s)| * 24 + |Remainder(s)|
  {
    if |s| >= EVENT_SIZE {
      EventsAndRemainderSize(s[EVENT_SIZE..]);
    }
  }

  /** The i-th event is the i-th piece of the stream. */
  lemma {:induction false} EventIsPiece(s: seq<Byte>, i: nat)
    requires i < |Events(s)|
    ensures i * 24 + 24 <= |s| && Events(s)[i] == s[i * 24..i * 24 + 24]
    decreases i
  {
    EventsAndRemainderSize(s);
    if i > 0 {
      var t := s[EVENT_SIZE..];
      EventIsPiece(t, i - 1);
      assert Events(s)[i] == Events(t)[i - 1];
      assert t[(i - 1) * 24..(i - 1) * 24 + 24] == s[i * 24..i * 24 + 24];
    }
  }

  /** What is left is what is behind the events. */
  lemma {:induction false} RemainderIsSuffix(s: seq<Byte>)
    ensures |Events(s)| * 24 <= |s| && Remainder(s) == s[|Events(s)| * 24..]
  {
    EventsAndRemainderSize(s);
    if |s| >= EVENT_SIZE {
      RemainderIsSuffix(s[EVENT_SIZE..]);
    }
  }

  /** However a stream is split in two, the events of the whole are those of the first part followed by
      those that the second one gives behind what was left. */
  lemma {:induction false} EventsOfConcat(s: seq<Byte>, t: seq<Byte>)
    ensures Events(s + t) == Events(s) + Events(Remainder(s) + t)
    ensures Remainder(s + t) == Remainder(Remainder(s) + t)
  {
    if |s| >= EVENT_SIZE {
      EventsOfConcat(s[EVENT_SIZE..], t);
      assert (s + t)[..EVENT_SIZE] == s[..EVENT_SIZE] && (s + t)[EVENT_SIZE..] == s[EVENT_SIZE..] + t;
    }
  }

  /** One read either completes an event or does not. */
  lemma EventsAfterRead(s: seq<Byte>, t: seq<Byte>)
    requires |Remainder(s)| + |t| <= EVENT_SIZE
    ensures if |Remainder(s)| + |t| == EVENT_SIZE
            then && Events(s + t) == Events(s) + [Remainder(s) + t] && Remainder(s + t) == []
                 && |s| + |t| == (|Events(s)| + 1) * EVENT_SIZE
            else Events(s + t) == Events(s) && Remainder(s + t) == Remainder(s) + t
  {
    EventsOfConcat(s, t);
    EventsAndRemainderSize(s);
    var u := Remainder(s) + t;
    if |u| == EVENT_SIZE {
      assert u[..EVENT_SIZE] == u && u[EVENT_SIZE..] == [];
    }
  }

  /** What reads have made so far: whole events, and the beginning of the next one. */
  datatype Assembly = Assembly(events: seq<Event>, rest: seq<Byte>)

  function Fed(a: Assembly, chunk: seq<Byte>): Assembly {
    Assembly(a.events + Events(a.rest + chunk), Remainder(a.rest + chunk))
  }

  function FedAll(chunks: seq<seq<Byte>>): Assembly {
    if chunks == [] then Assembly([], []) else Fed(FedAll(chunks[..|chunks| - 1]), chunks[|chunks| - 1])
  }

  function Joined(chunks: seq<seq<Byte>>): seq<Byte> {
    if chunks == [] then [] else Joined(chunks[..|chunks| - 1]) + chunks[|chunks| - 1]
  }

  lemma {:induction false} FedAllIsJoined(chunks: seq<seq<Byte>>)
    ensures FedAll(chunks) == Assembly(Events(Joined(chunks)), Remainder(Joined(chunks)))
  {
    if chunks != [] {
      var n := |chunks| - 1;
      FedAllIsJoined(chunks[..n]);
      EventsOfConcat(Joined(chunks[..n]), chunks[n]);
    }
  }

  /** Reads of any sizes make the same events of the same bytes. */
  lemma FragmentationIndependence(chunks: seq<seq<Byte>>, others: seq<seq<Byte>>)
    requires Joined(chunks) == Joined(others)
    ensures FedAll(chunks) == FedAll(others)
  {
    FedAllIsJoined(chunks);
    FedAllIsJoined(others);
  }

  // ----- What the daemon is told

  /** The switches as they are after a number of bytes of the stream; a failed ioctl gives none. */
  type Switches = nat -> Option<nat>

  /** What the event that ends after `position` bytes tells the daemon. */
  function Told(e: Event, position: nat, switches: Switches): seq<bool> {
    if IsLidEvent(e) && switches(position).Some? then [Bit(switches(position).value, CodeOf(e))] else []
  }

  function LidUpdates(events: seq<Event>, switches: Switches): seq<bool> {
    if events == [] then []
    else
      var n := |events| - 1;
      LidUpdates(events[..n], switches) + Told(events[n], (n + 1) * EVENT_SIZE, switches)
  }

  /** The daemon knows the switch as it was at the last lid event that could be asked about. */
  lemma {:induction false} LastUpdateIsCurrent(events: seq<Event>, switches: Switches, i: nat)
    requires i < |events| && IsLidEvent(events[i]) && switches((i + 1) * EVENT_SIZE).Some?
    requires forall j :: i < j < |events| && IsLidEvent(events[j]) ==> switches((j + 1) * EVENT_SIZE).None?
    ensures var updates := LidUpdates(events, switches);
            updates != [] && updates[|updates| - 1] == (switches((i + 1) * EVENT_SIZE).value % 2 == 1)
  {
    var n := |events| - 1;
    if i < n {
      LastUpdateIsCurrent(events[..n], switches, i);
    }
  }

  /** Without a lid event the daemon is told nothing. */
  lemma {:induction false} NoLidEventNoUpdate(events: seq<Event>, switches: Switches)
    requires forall i :: 0 <= i < |events| ==> !IsLidEvent(events[i])
    ensures LidUpdates(events, switches) == []
  {
    if events != [] {
      NoLidEventNoUpdate(events[..|events| - 1], switches);
    }
  }

  /** The four bytes behind the time of an event say that it is about the lid: type 5 and code 0. */
  predicate SaysLid(s: seq<Byte>, i: nat)
    requires 24 * i + 24 <= |s|
  {
    s[24 * i + 16] == 5 && s[24 * i + 17] == 0 && s[24 * i + 18] == 0 && s[24 * i + 19] == 0
  }

  /** Each event of a stream tells the daemon the lowest switch, as it is when the event was read, if its bytes
      say that it is about the lid and the switches are known; else it tells nothing. */
  lemma UpdatesByBytes(s: seq<Byte>, events: seq<Event>, switches: Switches, i: nat)
    requires events == Events(s) && i < |events| && 24 * i + 24 <= |s|
    ensures var told, now := LidUpdates(events[..i], switches), switches(24 * i + 24);
            LidUpdates(events[..i + 1], switches) ==
              told + if SaysLid(s, i) && now.Some? then [now.value % 2 == 1] else []
  {
    ToldOfStream(s, events, switches, i);
    UpdatesSnoc(events, switches, i);
  }

  lemma ToldOfStream(s: seq<Byte>, events: seq<Event>, switches: Switches, i: nat)
    requires events == Events(s) && i < |events| && 24 * i + 24 <= |s|
    ensures var now := switches(24 * i + 24);
            Told(events[i], (i + 1) * EVENT_SIZE, switches) ==
              if SaysLid(s, i) && now.Some? then [now.value % 2 == 1] else []
  {
    EventIsPiece(s, i);
    LidBytesOfPiece(s, events[i], i);
    ToldByBytes(events[i], (i + 1) * EVENT_SIZE, switches);
  }

  lemma LidBytesOfPiece(s: seq<Byte>, e: Event, i: nat)
    requires i * 24 + 24 <= |s| && e == s[i * 24..i * 24 + 24]
    ensures SaysLid(s, i) <==> SaysLid(e, 0)
  {
    assert e[16] == s[i * 24 + 16] && e[17] == s[i * 24 + 17] && e[18] == s[i * 24 + 18] && e[19] == s[i * 24 + 19];
  }

  lemma ToldByBytes(e: Event, position: nat, switches: Switches)
    ensures Told(e, position, switches) ==
              if SaysLid(e, 0) && switches(position).Some? then [switches(position).value % 2 == 1] else []
  {
  }

  lemma UpdatesSnoc(events: seq<Event>, switches: Switches, i: nat)
    requires i < |events|
    ensures LidUpdates(events[..i + 1], switches) ==
              LidUpdates(events[..i], switches) + Told(events[i], (i + 1) * EVENT_SIZE, switches)
  {
    assert events[..i + 1][..i] == events[..i];
  }

  /** A channel: the bytes that are still to be read, how many of them each read can give, and how many
      were read; `ready` is whether the last read gave something. */
  class Channel {
    const switches: Switches
    var pending: seq<Byte>
    var limits: seq<nat>
    var position: nat
    var ready: bool

    constructor (switches: Switches, pending: seq<Byte>, limits: seq<nat>)
      ensures this.switches == switches && this.pending == pending && this.limits == limits && position == 0
    {
      this.switches, this.pending, this.limits, this.position := switches, pending, limits, 0;
      ready := true;
    }

    /** The ioctl that asks for the switches. */
    function Ask(): Option<nat>
      reads this
    {
      switches(position)
    }

    /** At least one byte and at most `count`, unless there is nothing to read. */
    method ReadChars(count: nat) returns (bytes: seq<Byte>)
      modifies this
      ensures bytes + pending == old(pending) && |bytes| <= count
      ensures |limits| <= |old(limits)| && (bytes != [] ==> |limits| < |old(limits)|)
      ensures bytes == [] <==> old(limits) == [] || old(limits)[0] == 0 || count == 0 || old(pending) == []
      ensures bytes != [] ==> limits == old(limits)[1..]
      ensures position == old(position) + |bytes| && ready == (bytes != [])
    {
      ready := false;
      if limits == [] {
        return [];
      }
      var n := limits[0];
      limits := limits[1..];
      n := if n < count then n else count;
      n := if n < |pending| then n else |pending|;
      bytes := pending[..n];
      pending := pending[n..];
      position, ready := position + n, n > 0;
    }
  }

  class Input {
    const channel: Channel
    const event: array<Byte>
    var offset: nat
    var lid: seq<bool>

    // Everything that was read, and the events that were handled.
    ghost var received: seq<Byte>
    ghost var handled: seq<Event>

    /** However the bytes came, the events are the stream cut into pieces of their size. */
    ghost predicate Valid()
      reads this, event
    {
      && event.Length == EVENT_SIZE && offset < EVENT_SIZE
      && event[..offset] == Remainder(received)
      && handled == Events(received)
      && lid == LidUpdates(handled, channel.switches)
    }

    constructor (channel: Channel)
      ensures Valid() && this.channel == channel && fresh(event)
      ensures received == [] && lid == []
    {
      this.channel := channel;
      event := new Byte[EVENT_SIZE](_ => 0);
      offset, lid, received, handled := 0, [], [], [];
    }

    /** One wake-up. It ends when there is nothing to read, or after a read that leaves an event
        incomplete; the source is removed after a hang-up or an error. */
    method EventIO(hangup: bool) returns (keep: bool)
      requires Valid() && channel.position == |received|
      modifies this, event, channel
      ensures Valid() && channel.position == |received|
      ensures keep == !hangup
      ensures received + channel.pending == old(received + channel.pending)
      ensures old(received) <= received && handled == Events(received) && lid == LidUpdates(handled, channel.switches)
      ensures hangup ==> received == old(received)
      ensures keep ==> !channel.ready || offset > 0
    {
      if hangup {
        return false;
      }
      keep := true;
      ghost var before, stream := received, received + channel.pending;
      while true
        invariant Valid() && channel.position == |received|
        invariant received + channel.pending == stream && before <= received
        decreases |channel.limits|
      {
        ghost var read, pending := received, channel.pending;
        var bytes := channel.ReadChars(EVENT_SIZE - offset);
        assert read + pending == read + bytes + channel.pending;
        if bytes == [] {
          return;
        }
        var complete := Take(bytes);
        if !complete {
          return;
        }
      }
    }

    /** The bytes of one read, behind those of the event that are there already. */
    method Take(bytes: seq<Byte>) returns (complete: bool)
      requires Valid() && channel.position == |received| + |bytes| && 0 < |bytes| <= EVENT_SIZE - offset
      modifies this, event
      ensures Valid() && received == old(received) + bytes
      ensures complete == (old(offset) + |bytes| == EVENT_SIZE)
      ensures offset == if complete then 0 else old(offset) + |bytes|
    {
      ghost var rest := Remainder(received);
      EventsAfterRead(received, bytes);
      received := received + bytes;
      Fill(bytes);
      complete := offset + |bytes| == EVENT_SIZE;
      if complete {
        offset := 0;
        assert event[..] == rest + bytes;
        Handle();
      } else {
        offset := offset + |bytes|;
      }
    }

    method Fill(bytes: seq<Byte>)
      requires event.Length == EVENT_SIZE && offset + |bytes| <= EVENT_SIZE
      modifies event
      ensures event[..offset + |bytes|] == old(event[..offset]) + bytes
    {
      forall i | 0 <= i < |bytes| {
        event[offset + i] := bytes[i];
      }
    }

    /** A whole event. */
    method Handle()
      requires event.Length == EVENT_SIZE && channel.position == (|handled| + 1) * EVENT_SIZE
      requires lid == LidUpdates(handled, channel.switches)
      modifies this`lid, this`handled
      ensures handled == old(handled) + [event[..]]
      ensures lid == LidUpdates(handled, channel.switches)
    {
      assert (handled + [event[..]])[..|handled|] == handled;
      handled := handled + [event[..]];
      if Word(event[16], event[17]) != EV_SW {
        return;
      }
      var code := Word(event[18], event[19]);
      if code != SW_LID {
        return;
      }
      var bits := channel.Ask();
      if bits.None? {
        return;
      }
      lid := lid + [Bit(bits.value, code)];
    }
  }
}
