/**
 src/linux/hidpp-device.c: the refresh of a HID++ device. All of its requests and responses go
 through one message buffer, which is also what the error handling at the end looks at.
 */
module HidppDevice {
  import opened HidppMatching
  import opened Wrappers

  const RECEIVER: Byte := 0xff
  const READ_SHORT_REGISTER: Byte := 0x81
  const READ_LONG_REGISTER: Byte := 0x83
  const REGISTER_BATTERY: Byte := 0x0d
  const REGISTER_BATTERY_APPROX: Byte := 0x07
  const INVALID_SUBID: Byte := 0x01
  const INVALID_ADDRESS: Byte := 0x02
  const RESOURCE_ERROR: Byte := 0x09
  const FEATURE_BATTERY: nat := 0x1000
  const FEATURE_SOLAR: nat := 0x4301
  const Blank: Message := [0, 0, 0, 0, 0, 0, 0, 0, 0, 0, 0, 0, 0, 0, 0, 0, 0, 0, 0, 0]

  datatype Kind = KindKeyboard | KindMouse | KindTablet | KindUnknown
  datatype BattStatus = StatusCharging | StatusDischarging | StatusCharged | StatusUnknown
  datatype Feature = Feature(idx: Byte, feature: nat)
  datatype Flags = Flags(version: bool, kind: bool, battery: bool, model: bool, features: bool, serial: bool)
  datatype Failure = OpenFailed | Failed(outcome: Outcome)

  /** A battery reading. */
  datatype Battery = Battery(percentage: nat, status: BattStatus)

  /** A request: its header, and the parameters that it sets. */
  datatype Ask = Ask(header: Header, parameters: seq<Byte>)

  /** A short request written into the buffer; what is behind its parameters stays. */
  function Request(m: Message, a: Ask): Message
    requires |a.parameters| <= 3
  {
    [SHORT, a.header.device, a.header.feature, a.header.function_] + a.parameters + m[4 + |a.parameters|..]
  }

  /** An error message that says the device is out of reach. */
  predicate Unreachable(m: Message) { IsError(m) && ErrorCode(m) == RESOURCE_ERROR }

  function KindOf(code: Byte, kind: Kind): Kind {
    if code in {0x1, 0x3, 0x7} then KindKeyboard
    else if code in {0x2, 0x8, 0x9, 0x4} then KindMouse
    else if code == 0xa then KindTablet
    else if code in {0xb, 0xc} then KindUnknown
    else kind
  }

  /** A string ends at its first NUL. */
  function UpToNul(bytes: seq<Byte>): (r: seq<Byte>)
    ensures r <= bytes && 0 !in r
    ensures |r| < |bytes| ==> bytes[|r|] == 0
  {
    if bytes == [] || bytes[0] == 0 then [] else [bytes[0]] + UpToNul(bytes[1..])
  }

  /** The name in a response, of which the buffer has at most fourteen bytes. */
  function NameIn(m: Message): seq<Byte> { UpToNul(m[6..6 + NameLength(m[5])]) }
  function NameLength(length: Byte): (n: Byte) ensures n <= 14 { if length <= 14 then length else 14 }

  /** No learned index is the number that marks error messages. */
  predicate Safe(features: seq<Feature>) {
    forall i :: 0 <= i < |features| ==> features[i].idx != ERROR_MESSAGE
  }

  /** What a response from one of the two battery registers of HID++ 1.0 says. */
  function RegisterBattery(m: Message, b: Battery): Battery {
    if m[3] == REGISTER_BATTERY then Battery(m[4], StatusDischarging)
    else
      Battery(if m[4] == 1 then 5 else if m[4] == 3 then 20 else if m[4] == 5 then 55 else if m[4] == 7 then 90
              else b.percentage,
              if m[5] == 0x00 then StatusDischarging
              else if m[5] == 0x22 || m[5] == 0x26 then StatusCharged
              else if m[5] == 0x25 then StatusCharging
              else b.status)
  }

  function Lux(m: Message): int { m[5] as int * 256 + m[6] as int }

  function SolarBattery(m: Message): Battery {
    Battery(m[4], if Lux(m) > 200 then StatusCharging else StatusDischarging)
  }

  /** A level of 0 is unknown and does not overwrite the percentage. */
  function LevelBattery(m: Message, b: Battery): Battery {
    var full := m[6] == 3;
    Battery(if m[4] != 0 then m[4] else if full then 100 else b.percentage,
            if m[6] == 0 then StatusDischarging
            else if m[6] in {1, 2, 4} then StatusCharging
            else if full then StatusCharged
            else b.status)
  }

  // ----- The requests, and what came of them

  function Ping(d: Byte): Ask { Ask(Header(d, 0x00, 0x10), [0x00, 0x00, 0x42]) }

  function FindFeature(d: Byte, feature: nat): Ask
    requires feature < 0x1_0000
  {
    Ask(Header(d, 0x00, 0x00), [feature / 256, feature % 256, 0x00])
  }

  /** The register of the device, whose number counts from one, as an unsigned byte. */
  function RegisterParameter(d: Byte, base: Byte): Byte
    requires base in {0x20, 0x30, 0x40}
  {
    OrLow(base, (d - 1) % 256)
  }

  /** The receiver's own data about the device, which a request for a long register selects. */
  function Info(d: Byte, base: Byte): Ask
    requires base in {0x20, 0x30, 0x40}
  {
    Ask(Header(RECEIVER, READ_LONG_REGISTER, 0xb5), [RegisterParameter(d, base), 0x00, 0x00])
  }

  function ReadBattery(d: Byte, register: Byte): Ask { Ask(Header(d, READ_SHORT_REGISTER, register), [0, 0, 0]) }
  function MeasureLight(d: Byte, idx: Byte): Ask { Ask(Header(d, idx, 0x00), [0x01, 0x01]) }
  function GetLevel(d: Byte, idx: Byte): Ask { Ask(Header(d, idx, 0x02), [0x00, 0x00, 0x00]) }

  /** A report that is waited for without a request. */
  function Report(d: Byte, idx: Byte): Ask { Ask(Header(d, idx, 0x10), []) }

  predicate IsPing(a: Ask) { a == Ping(a.header.device) }
  predicate IsLookup(a: Ask) { a.header.feature == 0x00 && a.header.function_ == 0x00 && |a.parameters| == 3 }
  predicate IsExactBattery(a: Ask) { a == ReadBattery(a.header.device, REGISTER_BATTERY) }

  /** A request, the buffer into which its response is received, and what the device does. */
  datatype Turn = Turn(ask: Ask, start: Message, exchange: Exchange)
  {
    function Result(): Received { Replied(start, exchange, ask.header) }

    /** Refusals that are no failure: those that tell an old device or one that is out of reach from the
        ping, that of an exact battery register, and any of the question for a feature. */
    predicate Tolerated() {
      || IsLookup(ask)
      || (IsPing(ask) && (LeavesError(INVALID_SUBID) || LeavesError(RESOURCE_ERROR)))
      || (IsExactBattery(ask) && LeavesError(INVALID_ADDRESS))
    }

    predicate LeavesError(code: Byte) { IsError(Result().buffer) && ErrorCode(Result().buffer) == code }

    /** The feature that the turn found: an index of 0 says that there is none. */
    function Found(): seq<Feature> {
      if IsLookup(ask) && Result().outcome == Success && Result().buffer[4] != 0x00
      then [Feature(Result().buffer[4], ask.parameters[0] as nat * 256 + ask.parameters[1] as nat)] else []
    }

    /** What the turn makes of the message buffer. Questions for features have a buffer of their own, and
        the buffer is cleared after a ping that was refused. */
    function Leaves(m: Message): Message {
      if IsLookup(ask) then m
      else if IsPing(ask) && Result().outcome != Success && Tolerated() then Blank
      else Result().buffer
    }

    predicate Fails() { Result().outcome != Success && !Tolerated() }
  }

  /** The turns of a refresh, the latest last. */
  datatype Log = Begin | Then(before: Log, last: Turn)

  function Failures(log: Log): nat {
    match log
    case Begin => 0
    case Then(before, last) => Failures(before) + if last.Fails() then 1 else 0
  }

  /** What is in the message buffer of a refresh. */
  function MessageAfter(log: Log): Message {
    if log.Begin? then Blank else log.last.Leaves(MessageAfter(log.before))
  }

  /** No request looks like the message of a device out of reach. */
  predicate Distinguishable(a: Ask) {
    a.parameters == [] || a.header.feature != ERROR_MESSAGE || (|a.parameters| >= 2 && a.parameters[1] != RESOURCE_ERROR)
  }

  /** Whether a turn went on with what was in its buffer before. */
  predicate StartsWith(t: Turn, m: Message) {
    && |t.ask.parameters| <= 3 && Distinguishable(t.ask)
    && t.start == if t.ask.parameters == [] then m else Request(m, t.ask)
  }

  /** Every turn went on with the buffer that the one before it left. */
  predicate Chained(log: Log) {
    log.Then? ==>
      Chained(log.before) && StartsWith(log.last, if IsLookup(log.last.ask) then Blank else MessageAfter(log.before))
  }

  /** The features that are known after a log: those known before, and those that were found. */
  function Learned(known: seq<Feature>, log: Log): seq<Feature> {
    match log
    case Begin => known
    case Then(before, last) => Learned(known, before) + last.Found()
  }

  datatype Asks = NoAsks | More(before: Asks, last: Ask)

  function AsksOf(log: Log): Asks {
    match log
    case Begin => NoAsks
    case Then(before, last) => More(AsksOf(before), last.ask)
  }

  function Plus(asks: Asks, condition: bool, a: Ask): Asks { if condition then More(asks, a) else asks }

  /** For the version, which goes from `before` to `after`, and the features. */
  function IdentityAsked(asks: Asks, d: Byte, flags: Flags, before: nat, after: nat): Asks {
    var features := flags.features || (flags.version && before < 2 && after >= 2);
    Plus(Plus(Plus(asks, flags.version, Ping(d)), features, FindFeature(d, FEATURE_BATTERY)),
         features, FindFeature(d, FEATURE_SOLAR))
  }

  function DescriptionAsked(asks: Asks, d: Byte, flags: Flags, version: nat): Asks {
    Plus(Plus(Plus(asks, flags.kind && version <= 2, Info(d, 0x20)), flags.model && version <= 2, Info(d, 0x40)),
         flags.serial, Info(d, 0x30))
  }

  /** The exact register is asked unless the battery was known to be approximate `before`. */
  function RegisterAsked(asks: Asks, d: Byte, before: bool, after: bool): Asks {
    Plus(Plus(asks, !before, ReadBattery(d, REGISTER_BATTERY)), after, ReadBattery(d, REGISTER_BATTERY_APPROX))
  }

  function FeaturesAsked(asks: Asks, d: Byte, features: seq<Feature>): Asks {
    var solar, level := FirstOf(features, FEATURE_SOLAR), FirstOf(features, FEATURE_BATTERY);
    var asks1 := if solar.Some? then More(More(asks, MeasureLight(d, solar.value)), Report(d, solar.value)) else asks;
    if level.Some? then More(asks1, GetLevel(d, level.value)) else asks1
  }

  function BatteryAsked(asks: Asks, d: Byte, version: nat, features: seq<Feature>, before: bool, after: bool): Asks {
    if version == 1 then RegisterAsked(asks, d, before, after)
    else if version == 2 then FeaturesAsked(asks, d, features)
    else asks
  }

  /** What has been asked after a refresh in which nothing failed. */
  function Asked(asks: Asks, d: Byte, flags: Flags, versionBefore: nat, version: nat, features: seq<Feature>,
                 approxBefore: bool, approx: bool): Asks
  {
    var described := DescriptionAsked(IdentityAsked(asks, d, flags, versionBefore, version), d, flags, version);
    if flags.battery then BatteryAsked(described, d, version, features, approxBefore, approx) else described
  }

  /** The battery that the latest turns of a refresh of it give. */
  function BatteryOf(version: nat, features: seq<Feature>, log: Log, b: Battery): Battery {
    if log.Begin? then b
    else
      var m := log.last.Result().buffer;
      var solar, level := FirstOf(features, FEATURE_SOLAR), FirstOf(features, FEATURE_BATTERY);
      if version == 1 then RegisterBattery(m, b)
      else if version != 2 then b
      else if level.None? then (if solar.Some? then SolarBattery(m) else b)
      else
        LevelBattery(m, if solar.Some? && log.before.Then? then SolarBattery(log.before.last.Result().buffer) else b)
  }

  class Device {
    const channel: Channel
    const deviceIdx: Byte
    var isOpen: bool
    var version: nat
    var isPresent: bool
    var battery: Battery
    var battIsApprox: bool
    var kind: Kind
    var features: seq<Feature>
    var model: seq<Byte>
    var serial: seq<Byte>
    var lux: int

    // The turns of the latest refresh, and the features that were known before it.
    ghost var log: Log
    ghost var known: seq<Feature>

    constructor (channel: Channel, deviceIdx: Byte)
      ensures this.channel == channel && this.deviceIdx == deviceIdx
      ensures !isOpen && version == 0 && !isPresent && features == [Feature(0, 0)]
    {
      this.channel, this.deviceIdx := channel, deviceIdx;
      isOpen, version, isPresent, battery, battIsApprox := false, 0, false, Battery(0, StatusUnknown), false;
      kind, features, model, serial, lux := KindUnknown, [Feature(0, 0)], [], [], -1;
      log, known := Begin, [Feature(0, 0)];
    }

    function Lookup(feature: nat): Option<Byte>
      reads this
    {
      FirstOf(features, feature)
    }

    /** In the middle of a refresh: the buffer and the features are what the turns left. */
    ghost predicate Linked(msg: array<Byte>)
      reads this, msg
    {
      && msg.Length == SIZE && msg[..] == MessageAfter(log)
      && Chained(log) && features == Learned(known, log)
    }

    /** One request whose response overwrites it. */
    method Command(msg: array<Byte>, ask: Ask) returns (ret: bool, error: Option<Failure>)
      requires msg.Length == SIZE && |ask.parameters| <= 3
      modifies channel, msg, this`log
      ensures log == Then(old(log), Turn(ask, Request(old(msg[..]), ask), Next(old(channel.script))))
      ensures channel.script == Rest(old(channel.script))
      ensures msg[..] == log.last.Result().buffer
      ensures ret <==> log.last.Result().outcome == Success
      ensures error == if ret then None else Some(Failed(log.last.Result().outcome))
      ensures |channel.written| == |old(channel.written)| + 1 && old(channel.written) <= channel.written
      ensures var bytes, h := channel.written[|old(channel.written)|], ask.header;
              |bytes| == 7 && [0x10, h.device, h.feature, h.function_] + ask.parameters <= bytes
    {
      ghost var before := msg[..];
      var h := ask.header;
      msg[0], msg[1], msg[2], msg[3] := SHORT, h.device, h.feature, h.function_;
      forall i | 0 <= i < |ask.parameters| {
        msg[4 + i] := ask.parameters[i];
      }
      assert msg[..] == Request(before, ask);
      log := Then(log, Turn(ask, msg[..], Next(channel.script)));
      var outcome;
      ret, outcome := channel.Cmd(msg, msg);
      error := if outcome == Success then None else Some(Failed(outcome));
    }

    method Blanken(msg: array<Byte>)
      requires msg.Length == SIZE
      modifies msg
      ensures msg[..] == Blank
    {
      forall i | 0 <= i < SIZE {
        msg[i] := 0;
      }
    }

    /** A refused ping tells HID++ 1.0 devices, and those that are out of reach. */
    method RefreshVersion(msg: array<Byte>) returns (ret: bool, error: Option<Failure>)
      requires Linked(msg)
      modifies channel, msg, this`version, this`isPresent, this`log
      ensures Linked(msg) && (ret <==> error.None?)
      ensures AsksOf(log) == More(AsksOf(old(log)), Ping(deviceIdx))
      ensures ret <==> Failures(log) == Failures(old(log))
      ensures var r := log.last.Result();
              if r.outcome == Success then version == r.buffer[4] && isPresent
              else if ret && ErrorCode(r.buffer) == INVALID_SUBID then version == 1 && isPresent
              else version == old(version) && isPresent == (old(isPresent) && !ret)
    {
      ret, error := Command(msg, Ping(deviceIdx));
      assert IsPing(log.last.ask) && !IsLookup(log.last.ask) && !IsExactBattery(log.last.ask);
      if !ret {
        if msg[0] == SHORT && msg[2] == ERROR_MESSAGE && (msg[5] == INVALID_SUBID || msg[5] == RESOURCE_ERROR) {
          if msg[5] == INVALID_SUBID {
            version := 1;
            isPresent := true;
          } else {
            isPresent := false;
          }
          assert log.last.Tolerated();
          Blanken(msg);
          error := None;
          ret := true;
        }
      } else {
        version := msg[4];
        isPresent := true;
      }
    }

    /** Asks for the index of a feature, in a buffer of its own. */
    method MapAdd(feature: nat) returns (ok: bool)
      requires feature < 0x1_0000
      modifies channel, this`features, this`log
      ensures log.Then? && log.before == old(log) && log.last.ask == FindFeature(deviceIdx, feature)
      ensures log.last.start == Request(Blank, FindFeature(deviceIdx, feature))
      ensures var r := log.last.Result();
              && (ok <==> r.outcome == Success && r.buffer[4] != 0x00)
              && features == old(features) + if ok then [Feature(r.buffer[4], feature)] else []
    {
      var msg := new Byte[SIZE](_ => 0);
      assert msg[..] == Blank;
      var ret, error := Command(msg, FindFeature(deviceIdx, feature));
      if !ret {
        return false;
      }
      if msg[4] == 0x00 {
        return false;
      }
      features := features + [Feature(msg[4], feature)];
      return true;
    }

    method RefreshFeatures(msg: array<Byte>)
      requires Linked(msg)
      modifies channel, this`features, this`log
      ensures Linked(msg) && Failures(log) == Failures(old(log)) && old(features) <= features
      ensures AsksOf(log) ==
              More(More(AsksOf(old(log)), FindFeature(deviceIdx, FEATURE_BATTERY)), FindFeature(deviceIdx, FEATURE_SOLAR))
    {
      var _ := MapAdd(FEATURE_BATTERY);
      var _ := MapAdd(FEATURE_SOLAR);
    }

    method RefreshKind(msg: array<Byte>) returns (ret: bool, error: Option<Failure>)
      requires Linked(msg)
      modifies channel, msg, this`kind, this`log
      ensures Linked(msg) && (ret <==> error.None?)
      ensures AsksOf(log) == Plus(AsksOf(old(log)), version <= 2, Info(deviceIdx, 0x20))
      ensures ret <==> Failures(log) == Failures(old(log))
      ensures kind == if ret && version <= 2 then KindOf(msg[11], old(kind)) else old(kind)
    {
      ret, error := true, None;
      if version <= 1 || version == 2 {
        ret, error := Command(msg, Info(deviceIdx, 0x20));
        if !ret {
          return;
        }
        kind := KindOf(msg[11], kind);
      }
    }

    /** The length in the response counts at most the bytes that the buffer has. */
    method RefreshModel(msg: array<Byte>) returns (ret: bool, error: Option<Failure>)
      requires Linked(msg)
      modifies channel, msg, this`model, this`log
      ensures Linked(msg) && (ret <==> error.None?)
      ensures AsksOf(log) == Plus(AsksOf(old(log)), version <= 2, Info(deviceIdx, 0x40))
      ensures ret <==> Failures(log) == Failures(old(log))
      ensures model == if ret && version <= 2 then NameIn(msg[..]) else old(model)
    {
      ret, error := true, None;
      if version <= 1 || version == 2 {
        ret, error := Command(msg, Info(deviceIdx, 0x40));
        if !ret {
          return;
        }
        var length := NameLength(msg[5]);
        model := UpToNul(msg[6..6 + length]);
        assert msg[6..6 + length] == msg[..][6..6 + length];
      }
    }

    method RefreshSerial(msg: array<Byte>) returns (ret: bool, error: Option<Failure>)
      requires Linked(msg)
      modifies channel, msg, this`serial, this`log
      ensures Linked(msg) && (ret <==> error.None?)
      ensures AsksOf(log) == More(AsksOf(old(log)), Info(deviceIdx, 0x30))
      ensures ret <==> Failures(log) == Failures(old(log))
      ensures serial == if ret then msg[5..9] else old(serial)
    {
      ret, error := Command(msg, Info(deviceIdx, 0x30));
      if !ret {
        return;
      }
      serial := msg[5..9];
    }

    /** HID++ 1.0: a device whose battery register is refused has an approximate one. The return value
        stays FALSE after the error was freed, until the second request overwrites it. */
    method RefreshRegisterBattery(msg: array<Byte>) returns (ret: bool, error: Option<Failure>)
      requires Linked(msg)
      modifies channel, msg, this`battery, this`battIsApprox, this`log
      ensures Linked(msg) && (ret <==> error.None?)
      ensures AsksOf(log) == RegisterAsked(AsksOf(old(log)), deviceIdx, old(battIsApprox), battIsApprox)
      ensures ret <==> Failures(log) == Failures(old(log))
      ensures log.Then? && battery == if ret then RegisterBattery(log.last.Result().buffer, old(battery)) else old(battery)
      ensures old(battIsApprox) ==> battIsApprox
    {
      ret, error := true, None;
      if !battIsApprox {
        ret, error := RefreshExactBattery(msg);
      }
      if battIsApprox {
        ret, error := Command(msg, ReadBattery(deviceIdx, REGISTER_BATTERY_APPROX));
      }
      if !ret {
        return;
      }
      battery := RegisterBattery(msg[..], battery);
    }

    /** Reads the exact register. A device that has none is approximate from then on, and no error is left,
        but the return value stays FALSE. */
    method RefreshExactBattery(msg: array<Byte>) returns (ret: bool, error: Option<Failure>)
      requires Linked(msg) && !battIsApprox
      modifies channel, msg, this`battIsApprox, this`log
      ensures Linked(msg) && log.Then? && msg[..] == log.last.Result().buffer
      ensures AsksOf(log) == More(AsksOf(old(log)), ReadBattery(deviceIdx, REGISTER_BATTERY))
      ensures battIsApprox == (!ret && error.None?) && (ret ==> error.None?)
      ensures (Failures(log) == Failures(old(log))) == (ret || battIsApprox)
    {
      ret, error := Command(msg, ReadBattery(deviceIdx, REGISTER_BATTERY));
      if !ret && msg[0] == SHORT && msg[2] == ERROR_MESSAGE && msg[5] == INVALID_ADDRESS {
        error := None;
        battIsApprox := true;
      }
    }

    /** HID++ 2.0: the solar panel's report follows the response to the request for it. */
    method RefreshSolar(msg: array<Byte>, idx: Byte) returns (ret: bool, error: Option<Failure>)
      requires Linked(msg)
      modifies channel, msg, this`battery, this`lux, this`log
      ensures Linked(msg) && (ret <==> error.None?)
      ensures ret ==> AsksOf(log) == More(More(AsksOf(old(log)), MeasureLight(deviceIdx, idx)), Report(deviceIdx, idx))
      ensures ret <==> Failures(log) == Failures(old(log))
      ensures log.Then?
      ensures if ret then battery == SolarBattery(log.last.Result().buffer) && lux == Lux(log.last.Result().buffer)
              else battery == old(battery) && lux == old(lux)
    {
      ret, error := Command(msg, MeasureLight(deviceIdx, idx));
      if !ret {
        return;
      }
      ret, error := AwaitReport(msg, idx);
      if !ret {
        return;
      }
      battery := SolarBattery(msg[..]);
      lux := Lux(msg[..]);
    }

    method AwaitReport(msg: array<Byte>, idx: Byte) returns (ret: bool, error: Option<Failure>)
      requires msg.Length == SIZE
      modifies channel, msg, this`log
      ensures log == Then(old(log), Turn(Report(deviceIdx, idx), old(msg[..]), Exchange(true, old(channel.incoming))))
      ensures msg[..] == log.last.Result().buffer
      ensures ret <==> log.last.Result().outcome == Success
      ensures error == if ret then None else Some(Failed(log.last.Result().outcome))
    {
      log := Then(log, Turn(Report(deviceIdx, idx), msg[..], Exchange(true, channel.incoming)));
      var outcome;
      ret, outcome := channel.ReadResp(Header(deviceIdx, idx, 0x10), msg);
      error := if outcome == Success then None else Some(Failed(outcome));
    }

    method RefreshLevel(msg: array<Byte>, idx: Byte) returns (ret: bool, error: Option<Failure>)
      requires Linked(msg)
      modifies channel, msg, this`battery, this`log
      ensures Linked(msg) && (ret <==> error.None?)
      ensures log.Then? && log.before == old(log) && log.last.ask == GetLevel(deviceIdx, idx)
      ensures ret <==> Failures(log) == Failures(old(log))
      ensures battery == if ret then LevelBattery(log.last.Result().buffer, old(battery)) else old(battery)
    {
      ret, error := Command(msg, GetLevel(deviceIdx, idx));
      if !ret {
        return;
      }
      battery := LevelBattery(msg[..], battery);
    }

    method RefreshFeatureBattery(msg: array<Byte>) returns (ret: bool, error: Option<Failure>)
      requires Linked(msg) && version == 2
      modifies channel, msg, this`battery, this`lux, this`log
      ensures Linked(msg) && (ret <==> error.None?)
      ensures ret ==> AsksOf(log) == FeaturesAsked(AsksOf(old(log)), deviceIdx, features)
      ensures ret <==> Failures(log) == Failures(old(log))
      ensures ret ==> battery == BatteryOf(version, features, log, old(battery))
    {
      ret, error := true, None;
      var solar := Lookup(FEATURE_SOLAR);
      if solar.Some? {
        ret, error := RefreshSolar(msg, solar.value);
        if !ret {
          return;
        }
      }
      var level := Lookup(FEATURE_BATTERY);
      if level.Some? {
        ret, error := RefreshLevel(msg, level.value);
      }
    }

    /** The battery by the device's version. Other versions have none that is known. */
    method RefreshBattery(msg: array<Byte>) returns (ret: bool, error: Option<Failure>)
      requires Linked(msg)
      modifies channel, msg, this`battery, this`battIsApprox, this`lux, this`log
      ensures Linked(msg) && (ret <==> error.None?)
      ensures ret ==> AsksOf(log) ==
                        BatteryAsked(AsksOf(old(log)), deviceIdx, version, features, old(battIsApprox), battIsApprox)
      ensures ret <==> Failures(log) == Failures(old(log))
      ensures ret ==> battery == BatteryOf(version, features, log, old(battery))
    {
      ret, error := true, None;
      if version == 1 {
        ret, error := RefreshRegisterBattery(msg);
      } else if version == 2 {
        ret, error := RefreshFeatureBattery(msg);
      }
    }

    /** The first sections. A version that goes from below 2 to at least 2 asks for the features too. */
    method RefreshIdentity(flags: Flags, msg: array<Byte>) returns (ret: bool, error: Option<Failure>)
      requires Linked(msg)
      modifies this`version, this`isPresent, this`features, this`log, channel, msg
      ensures Linked(msg) && (ret <==> error.None?)
      ensures ret ==> AsksOf(log) == IdentityAsked(AsksOf(old(log)), deviceIdx, flags, old(version), version)
      ensures ret <==> Failures(log) == Failures(old(log))
      ensures old(features) <= features
      ensures !flags.version ==> version == old(version) && isPresent == old(isPresent)
    {
      ret, error := true, None;
      var wantFeatures := flags.features;
      if flags.version {
        var versionOld := version;
        ret, error := RefreshVersion(msg);
        if !ret {
          return;
        }
        if versionOld < 2 && version >= 2 {
          wantFeatures := true;
        }
      }
      if wantFeatures {
        RefreshFeatures(msg);
      }
    }

    method RefreshDescription(flags: Flags, msg: array<Byte>) returns (ret: bool, error: Option<Failure>)
      requires Linked(msg)
      modifies this`kind, this`model, this`serial, this`log, channel, msg
      ensures Linked(msg) && (ret <==> error.None?)
      ensures ret ==> AsksOf(log) == DescriptionAsked(AsksOf(old(log)), deviceIdx, flags, version)
      ensures ret <==> Failures(log) == Failures(old(log))
      ensures (!flags.kind ==> kind == old(kind)) && (!flags.model ==> model == old(model))
      ensures !flags.serial ==> serial == old(serial)
      ensures ret && flags.serial ==> serial == msg[5..9]
      ensures ret && flags.model && !flags.serial && version <= 2 ==> model == NameIn(msg[..])
      ensures ret && flags.kind && !flags.model && !flags.serial && version <= 2 ==> kind == KindOf(msg[11], old(kind))
    {
      ret, error := true, None;
      if flags.kind {
        ret, error := RefreshKind(msg);
        if !ret {
          return;
        }
      }
      if flags.model {
        ret, error := RefreshModel(msg);
        if !ret {
          return;
        }
      }
      if flags.serial {
        ret, error := RefreshSerial(msg);
      }
    }

    /** The last sections. A device that answered is present. */
    method RefreshStatus(flags: Flags, msg: array<Byte>) returns (ret: bool, error: Option<Failure>)
      requires Linked(msg)
      modifies this`isPresent, this`battery, this`battIsApprox, this`lux, this`log, channel, msg
      ensures Linked(msg) && (ret <==> error.None?)
      ensures ret ==>
                AsksOf(log) == if flags.battery
                               then BatteryAsked(AsksOf(old(log)), deviceIdx, version, features, old(battIsApprox), battIsApprox)
                               else AsksOf(old(log))
      ensures ret <==> Failures(log) == Failures(old(log))
      ensures ret && flags.battery ==> battery == BatteryOf(version, features, log, old(battery))
      ensures !flags.battery ==> battery == old(battery)
      ensures isPresent == (old(isPresent) || (ret && (flags.model || flags.battery) && version > 0))
    {
      ret, error := true, None;
      if flags.battery {
        ret, error := RefreshBattery(msg);
        if !ret {
          return;
        }
      }
      if version > 0 && (flags.model || flags.battery) {
        isPresent := true;
      }
    }

    /** What the flags do not ask for stays, and no feature is forgotten. */
    twostate predicate KeepsTheRest(flags: Flags)
      reads this
    {
      && (!flags.kind ==> kind == old(kind)) && (!flags.model ==> model == old(model))
      && (!flags.serial ==> serial == old(serial)) && (!flags.battery ==> battery == old(battery))
      && (!flags.version ==> version == old(version)) && old(features) <= features
    }

    method RefreshSettings(flags: Flags, msg: array<Byte>) returns (ret: bool, error: Option<Failure>)
      requires Linked(msg)
      modifies this`version, this`isPresent, this`features, this`kind, this`model, this`serial, this`log, channel, msg
      ensures Linked(msg) && (ret <==> error.None?)
      ensures ret <==> Failures(log) == Failures(old(log))
      ensures ret ==>
                AsksOf(log) == DescriptionAsked(IdentityAsked(AsksOf(old(log)), deviceIdx, flags, old(version), version),
                                                deviceIdx, flags, version)
      ensures KeepsTheRest(flags)
    {
      ret, error := RefreshIdentity(flags, msg);
      if ret {
        ret, error := RefreshDescription(flags, msg);
      }
    }

    /** The sections of an open device that the flags ask for, up to the first failure. */
    method RefreshSections(flags: Flags, msg: array<Byte>) returns (ret: bool, error: Option<Failure>)
      requires Linked(msg) && log == Begin
      modifies this`version, this`isPresent, this`features, this`kind, this`model, this`serial
      modifies this`battery, this`battIsApprox, this`lux, this`log, channel, msg
      ensures Linked(msg) && (ret <==> error.None?)
      ensures ret <==> Failures(log) == 0
      ensures ret ==> Complete(flags)
      ensures KeepsTheRest(flags)
    {
      ret, error := RefreshSettings(flags, msg);
      if ret {
        ret, error := RefreshStatus(flags, msg);
      }
    }

    /** The error handler at the end frees the error of a device that is out of reach; `crashed` is the
        case in which it finds such a message but no error. */
    method Settle(msg: array<Byte>, ret: bool, failure: Option<Failure>)
      returns (ok: bool, error: Option<Failure>, crashed: bool)
      requires msg.Length == SIZE
      modifies this`isPresent
      ensures crashed == (Unreachable(msg[..]) && failure.None?)
      ensures !crashed && Unreachable(msg[..]) ==> ok && error.None? && !isPresent
      ensures !Unreachable(msg[..]) ==> ok == ret && error == failure && isPresent == old(isPresent)
    {
      ok, error, crashed := ret, failure, false;
      if msg[0] == SHORT && msg[2] == ERROR_MESSAGE && msg[5] == RESOURCE_ERROR {
        if error.None? {
          crashed := true;
          return;
        }
        error := None;
        ok := true;
        isPresent := false;
      }
    }

    /** The whole refresh, in terms of what it asked and of what came of it.

        It returns TRUE exactly when it leaves no error. It does so, with the battery that its last turns
        give, when no turn failed and the last message is not one of a device out of reach; such a device
        is not present, and the refresh succeeds. It needs an error to free, and crashes without one,
        which takes a learned feature with the index that marks error messages. */
    method Refresh(flags: Flags, canOpen: bool) returns (ok: bool, error: Option<Failure>, crashed: bool)
      modifies this, channel
      ensures Chained(log) && known == old(features) && features == Learned(known, log)
      ensures isOpen == (old(isOpen) || canOpen) && (!isOpen ==> !ok && error == Some(OpenFailed) && log == Begin)
      ensures !crashed ==> (ok <==> error.None?)
      ensures crashed <==> isOpen && Unreachable(MessageAfter(log)) && Failures(log) == 0
      ensures crashed ==> !Safe(features)
      ensures isOpen && !crashed ==> (ok <==> Failures(log) == 0 || Unreachable(MessageAfter(log)))
      ensures !crashed && Unreachable(MessageAfter(log)) ==> !isPresent
      ensures isOpen && Failures(log) == 0 && !crashed ==> Complete(flags)
      ensures KeepsTheRest(flags)
    {
      var msg := new Byte[SIZE](_ => 0);
      log, known := Begin, features;
      assert msg[..] == Blank;
      var ret, failure := RefreshOpened(flags, canOpen, msg);
      ok, error, crashed := Settle(msg, ret, failure);
    }

    twostate lemma CompleteLeavesNoError(flags: Flags)
      requires Complete(flags) && Failures(log) == 0
      ensures Safe(features) ==> !Unreachable(MessageAfter(log))
    {
      if Safe(features) {
        NoErrorIsLeft(log, deviceIdx, flags, old(version), version, features, old(battIsApprox), battIsApprox);
      }
    }

    /** Opens the device if it is not, and refreshes its sections. */
    method RefreshOpened(flags: Flags, canOpen: bool, msg: array<Byte>) returns (ret: bool, error: Option<Failure>)
      requires Linked(msg) && log == Begin
      modifies this`version, this`isPresent, this`features, this`kind, this`model, this`serial, this`isOpen
      modifies this`battery, this`battIsApprox, this`lux, this`log, channel, msg
      ensures Linked(msg) && (ret <==> error.None?)
      ensures isOpen == (old(isOpen) || canOpen)
      ensures if isOpen then ret <==> Failures(log) == 0 else error == Some(OpenFailed) && log == Begin
      ensures ret ==> Complete(flags)
      ensures ret && Safe(features) ==> !Unreachable(MessageAfter(log))
      ensures KeepsTheRest(flags)
    {
      ret, error := false, Some(OpenFailed);
      if !isOpen {
        if !canOpen {
          return;
        }
        isOpen := true;
      }
      ret, error := RefreshSections(flags, msg);
      if ret {
        CompleteLeavesNoError(flags);
      }
    }

    /** Everything that the flags ask for was asked, and the battery and the presence follow. */
    twostate predicate Complete(flags: Flags)
      reads this
    {
      && AsksOf(log) ==
           Asked(NoAsks, deviceIdx, flags, old(version), version, features, old(battIsApprox), battIsApprox)
      && (flags.battery ==> battery == BatteryOf(version, features, log, old(battery)))
      && ((flags.model || flags.battery) && version > 0 ==> isPresent)
    }
  }

  function FirstOf(features: seq<Feature>, feature: nat): Option<Byte> {
    if features == [] then None
    else if features[0].feature == feature then Some(features[0].idx)
    else FirstOf(features[1..], feature)
  }

  lemma {:induction false} FirstOfIsSafe(features: seq<Feature>, feature: nat)
    requires Safe(features)
    ensures FirstOf(features, feature) != Some(ERROR_MESSAGE)
  {
    if features != [] {
      FirstOfIsSafe(features[1..], feature);
    }
  }

  /** Bitwise or of a byte whose low four bits are clear with another one. */
  function OrLow(base: Byte, x: Byte): Byte
    requires base in {0x20, 0x30, 0x40}
  {
    (base as bv8 | x as bv8) as Byte
  }

  // ----- What a refresh without failures leaves in the buffer

  /** No request is for the number that marks error messages. */
  predicate Plain(asks: Asks) {
    asks.More? ==> Plain(asks.before) && asks.last.header.feature != ERROR_MESSAGE
  }

  lemma AskedIsPlain(d: Byte, flags: Flags, versionBefore: nat, version: nat, features: seq<Feature>,
                     approxBefore: bool, approx: bool)
    requires Safe(features)
    ensures Plain(Asked(NoAsks, d, flags, versionBefore, version, features, approxBefore, approx))
  {
    FirstOfIsSafe(features, FEATURE_SOLAR);
    FirstOfIsSafe(features, FEATURE_BATTERY);
    IdentityIsPlain(d, flags, versionBefore, version);
    DescriptionIsPlain(IdentityAsked(NoAsks, d, flags, versionBefore, version), d, flags, version);
  }

  lemma IdentityIsPlain(d: Byte, flags: Flags, before: nat, after: nat)
    ensures Plain(IdentityAsked(NoAsks, d, flags, before, after))
  {
    var pinged := Plus(NoAsks, flags.version, Ping(d));
    assert Plain(pinged);
    assert Plain(More(pinged, FindFeature(d, FEATURE_BATTERY)));
  }

  lemma DescriptionIsPlain(asks: Asks, d: Byte, flags: Flags, version: nat)
    requires Plain(asks)
    ensures Plain(DescriptionAsked(asks, d, flags, version))
  {
    var kind := Plus(asks, flags.kind && version <= 2, Info(d, 0x20));
    assert Plain(kind);
    assert Plain(Plus(kind, flags.model && version <= 2, Info(d, 0x40)));
  }

  /** Without a failure and without a request for the number of error messages, the buffer ends with no
      message of a device out of reach. */
  lemma {:induction false} NoFailureNoError(log: Log)
    requires Failures(log) == 0 && Plain(AsksOf(log))
    ensures !Unreachable(MessageAfter(log))
  {
    if log.Then? {
      NoFailureNoError(log.before);
      var t := log.last;
      if t.Result().outcome == Success {
        SuccessIsNoError(t.start, t.exchange.inputs, t.ask.header);
      }
    }
  }

  lemma NoErrorIsLeft(log: Log, d: Byte, flags: Flags, versionBefore: nat, version: nat, features: seq<Feature>,
                      approxBefore: bool, approx: bool)
    requires Safe(features) && Failures(log) == 0
    requires AsksOf(log) == Asked(NoAsks, d, flags, versionBefore, version, features, approxBefore, approx)
    ensures !Unreachable(MessageAfter(log))
  {
    AskedIsPlain(d, flags, versionBefore, version, features, approxBefore, approx);
    NoFailureNoError(log);
  }

  // ----- When a turn fails, and what a refresh returns, by what the device sends

  ghost predicate Answered(t: Turn) {
    t.exchange.writeOk && exists k :: AnsweredAt(t.exchange.inputs, t.ask.header, k)
  }

  /** The last message heard after a request is an error message, which need not be about it. */
  predicate Hears(t: Turn, code: Byte) {
    t.exchange.writeOk && HearsError(t.exchange.inputs, t.ask.header, code)
  }

  /** The request was answered, or is one that need not be: a question for a feature, whatever came of it,
      and a ping or a request for the exact battery behind which an expected error was heard last. */
  ghost predicate TurnIsWell(t: Turn) {
    || Answered(t)
    || IsLookup(t.ask)
    || (IsPing(t.ask) && (Hears(t, INVALID_SUBID) || Hears(t, RESOURCE_ERROR)))
    || (IsExactBattery(t.ask) && Hears(t, INVALID_ADDRESS))
  }

  /** Requests start in a buffer that has their own feature. */
  predicate Started(t: Turn) { t.ask.parameters != [] ==> t.start[2] == t.ask.header.feature }

  lemma LeavesErrorByHearing(t: Turn, code: Byte)
    requires AllWhole(t.exchange.inputs) && !(IsError(t.start) && ErrorCode(t.start) == code)
    ensures t.LeavesError(code) <==> Hears(t, code)
  {
    LeavesErrorExactly(t.start, t.exchange.inputs, t.ask.header, code);
  }

  /** Among whole messages a turn fails if and only if it is not well, by the messages that came. */
  lemma FailsExactly(t: Turn)
    requires AllWhole(t.exchange.inputs) && Started(t)
    ensures t.Fails() <==> !TurnIsWell(t)
  {
    AnsweredExactly(t.start, t.exchange.inputs, t.ask.header);
    if IsPing(t.ask) {
      LeavesErrorByHearing(t, INVALID_SUBID);
      LeavesErrorByHearing(t, RESOURCE_ERROR);
    } else if IsExactBattery(t.ask) {
      LeavesErrorByHearing(t, INVALID_ADDRESS);
    }
  }

  /** A ping fails if and only if it is not answered and the last message heard is not one of the two
      errors. That message may be about another device and another request: the refresh looks at the
      buffer, not at the outcome. */
  lemma PingFailsExactly(t: Turn)
    requires AllWhole(t.exchange.inputs) && Started(t) && IsPing(t.ask)
    ensures t.Fails() <==> !Answered(t) && !Hears(t, INVALID_SUBID) && !Hears(t, RESOURCE_ERROR)
  {
    FailsExactly(t);
  }

  ghost predicate AllWell(log: Log) { log.Then? ==> AllWell(log.before) && TurnIsWell(log.last) }

  predicate AllMessagesWhole(log: Log) {
    log.Then? ==> AllMessagesWhole(log.before) && AllWhole(log.last.exchange.inputs)
  }

  /** Among whole messages a refresh has no failure if and only if each of its turns is well. */
  lemma {:induction false} NoFailureExactly(log: Log)
    requires Chained(log) && AllMessagesWhole(log)
    ensures Failures(log) == 0 <==> AllWell(log)
  {
    if log.Then? {
      NoFailureExactly(log.before);
      FailsExactly(log.last);
    }
  }

  /** Whether the last message heard by a request other than a ping or a question for a feature is one of a
      device out of reach. A report for which nothing is heard leaves what was there. */
  predicate EndsUnreachable(log: Log) {
    log.Then? &&
    if IsLookup(log.last.ask) then EndsUnreachable(log.before)
    else if IsPing(log.last.ask) then false
    else Hears(log.last, RESOURCE_ERROR) || (log.last.ask.parameters == [] && Silent(log.last) && EndsUnreachable(log.before))
  }

  predicate Silent(t: Turn) { !t.exchange.writeOk || LastHeard(t.exchange.inputs, t.ask.header) == [] }

  /** A ping that leaves the message of a device out of reach was not answered, so the buffer is cleared. */
  lemma PingLeavesNoError(t: Turn, m: Message)
    requires IsPing(t.ask) && Started(t)
    ensures !Unreachable(t.Leaves(m))
  {
    if t.Result().outcome == Success {
      SuccessIsNoError(t.start, t.exchange.inputs, t.ask.header);
    }
  }

  /** Among whole messages the buffer ends with the message of a device out of reach if and only if that was
      heard last, from whichever device. */
  lemma {:induction false} UnreachableExactly(log: Log)
    requires Chained(log) && AllMessagesWhole(log)
    ensures Unreachable(MessageAfter(log)) <==> EndsUnreachable(log)
  {
    if log.Then? {
      UnreachableExactly(log.before);
      var t := log.last;
      if IsPing(t.ask) {
        PingLeavesNoError(t, MessageAfter(log.before));
      } else if !IsLookup(t.ask) {
        LeavesErrorExactly(t.start, t.exchange.inputs, t.ask.header, RESOURCE_ERROR);
      }
    }
  }

  /** Among whole messages a refresh of an open device crashes if and only if every turn is well and the
      message of a device out of reach was heard last, and else returns TRUE if and only if one of the
      two is so. */
  lemma RefreshOutcomeExactly(log: Log)
    requires Chained(log) && AllMessagesWhole(log)
    ensures Failures(log) == 0 && Unreachable(MessageAfter(log)) <==> AllWell(log) && EndsUnreachable(log)
    ensures Failures(log) == 0 || Unreachable(MessageAfter(log)) <==> AllWell(log) || EndsUnreachable(log)
  {
    NoFailureExactly(log);
    UnreachableExactly(log);
  }

  // ----- Inputs on which the refresh does not do what it seems to

  /** An error message of another device, about a request that nobody made. */
  function Foreign(other: Byte, code: Byte): FrameBytes { [SHORT, other, ERROR_MESSAGE, 0x00, 0x10, code, 0x00] }

  lemma ForeignIsHeard(h: Header, other: Byte, code: Byte)
    requires h.device != other
    ensures var inputs := [Frame(Foreign(other, code)), TimedOut];
            AllWhole(inputs) && HearsError(inputs, h, code) && forall k :: !AnsweredAt(inputs, h, k)
  {
    var inputs := [Frame(Foreign(other, code)), TimedOut];
    assert inputs[1..] == [TimedOut];
    assert LastHeard([TimedOut], h) == [];
    assert Ignored(inputs[0], h);
  }

  /** A ping to which nothing answers does not fail when an error message of another device came before
      the time was up: the device counts as out of reach or as an old one. */
  lemma TimeoutBehindForeignError(d: Byte, other: Byte, code: Byte)
    requires d != other && code in {INVALID_SUBID, RESOURCE_ERROR}
    ensures var t := Turn(Ping(d), Request(Blank, Ping(d)), Exchange(true, [Frame(Foreign(other, code)), TimedOut]));
            !Answered(t) && !t.Fails()
  {
    var t := Turn(Ping(d), Request(Blank, Ping(d)), Exchange(true, [Frame(Foreign(other, code)), TimedOut]));
    ForeignIsHeard(Ping(d).header, other, code);
    FailsExactly(t);
  }

  /** A request for the serial number to which nothing answers fails, but the refresh returns TRUE when a
      message that another device is out of reach came before the time was up. */
  lemma SerialTimeoutReturnsTrue(d: Byte, other: Byte)
    requires other != RECEIVER
    ensures var a := Info(d, 0x30);
            var log := Then(Begin, Turn(a, Request(Blank, a), Exchange(true, [Frame(Foreign(other, RESOURCE_ERROR)), TimedOut])));
            Chained(log) && Failures(log) == 1 && Unreachable(MessageAfter(log))
  {
    var a := Info(d, 0x30);
    var t := Turn(a, Request(Blank, a), Exchange(true, [Frame(Foreign(other, RESOURCE_ERROR)), TimedOut]));
    ForeignIsHeard(a.header, other, RESOURCE_ERROR);
    FailsExactly(t);
    UnreachableExactly(Then(Begin, t));
  }

  /** A battery feature whose index is the number of error messages, with a next level of 9, gives an
      answer that reads as a device out of reach: no turn fails, and the refresh crashes. */
  lemma ErrorNumberedFeatureCrashes(d: Byte, level: Byte)
    ensures var a := GetLevel(d, ERROR_MESSAGE);
            var answer: FrameBytes := [SHORT, d, ERROR_MESSAGE, 0x02, level, RESOURCE_ERROR, 0x00];
            var log := Then(Begin, Turn(a, Request(Blank, a), Exchange(true, [Frame(answer)])));
            Chained(log) && Failures(log) == 0 && Unreachable(MessageAfter(log))
  {
    var a := GetLevel(d, ERROR_MESSAGE);
    var answer: FrameBytes := [SHORT, d, ERROR_MESSAGE, 0x02, level, RESOURCE_ERROR, 0x00];
    var t := Turn(a, Request(Blank, a), Exchange(true, [Frame(answer)]));
    assert AnsweredAt(t.exchange.inputs, a.header, 0);
    FailsExactly(t);
    assert LastHeard(t.exchange.inputs, a.header) == answer;
    UnreachableExactly(Then(Begin, t));
  }
}
