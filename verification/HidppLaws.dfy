/**
 src/linux/hidpp-device.c: what a refresh sends and what it makes of the answers, byte by byte.
 */
module HidppLaws {
  import opened HidppDevice
  import opened HidppMatching
  import opened Wrappers

  // ----- The answer to a turn

  /** Among whole messages the first one that is not ignored answers the turn, and has these bytes. */
  ghost predicate AnsweredBy(t: Turn, f: FrameBytes) {
    && t.exchange.writeOk && AllWhole(t.exchange.inputs) && |f| >= 6
    && exists k: nat :: AnsweredAt(t.exchange.inputs, t.ask.header, k) && t.exchange.inputs[k].bytes == f
  }

  lemma {:induction false} AnswerIsLastHeard(inputs: seq<Input>, h: Header, k: nat)
    requires AnsweredAt(inputs, h, k)
    ensures LastHeard(inputs, h) == inputs[k].bytes
  {
    if k > 0 {
      var tail := inputs[1..];
      assert forall i :: 0 <= i < k - 1 ==> tail[i] == inputs[i + 1];
      assert Ignored(inputs[0], h);
      AnswerIsLastHeard(tail, h, k - 1);
    }
  }

  lemma AnswerIsRead(t: Turn, f: FrameBytes)
    requires AnsweredBy(t, f)
    ensures t.Result().outcome == Success && f <= t.Result().buffer
    ensures FrameAnswers(f, t.ask.header)
  {
    var inputs, h := t.exchange.inputs, t.ask.header;
    var k: nat :| AnsweredAt(inputs, h, k) && inputs[k].bytes == f;
    AnsweredExactly(t.start, inputs, h);
    AnswerIsLastHeard(inputs, h, k);
    BufferIsLastHeard(t.start, inputs, h);
  }

  // ----- The battery

  /** HID++ 1.0: the exact register holds the percentage of a battery that discharges. The other one holds a
      level and a status, and unknown ones change nothing. */
  predicate ReadsRegister(r: Battery, f: seq<Byte>, exact: bool, prior: Battery)
    requires |f| >= 6
  {
    if exact then r == Battery(f[4], StatusDischarging)
    else
      && r.percentage == (match f[4] case 1 => 5 case 3 => 20 case 5 => 55 case 7 => 90 case _ => prior.percentage)
      && (r.status == match f[5] case 0x00 => StatusDischarging case 0x22 => StatusCharged case 0x26 => StatusCharged
                                 case 0x25 => StatusCharging case _ => prior.status)
  }

  /** HID++ 2.0: the level is shown unless it is 0, and a full battery without a level is at 100. */
  predicate ReadsLevel(r: Battery, f: seq<Byte>, prior: Battery)
    requires |f| >= 7
  {
    && (f[4] > 0 ==> r.percentage == f[4])
    && (f[4] == 0 ==> r.percentage == if f[6] == 3 then 100 else prior.percentage)
    && (f[6] == 0 ==> r.status == StatusDischarging)
    && (f[6] == 1 || f[6] == 2 || f[6] == 4 ==> r.status == StatusCharging)
    && (f[6] == 3 ==> r.status == StatusCharged)
    && (f[6] > 4 ==> r.status == prior.status)
  }

  /** A solar panel in more than two hundred lux charges. */
  predicate ReadsLight(r: Battery, f: seq<Byte>)
    requires |f| >= 7
  {
    r.percentage == f[4] && r.status == if f[5] as int * 256 + f[6] as int >= 201 then StatusCharging else StatusDischarging
  }

  lemma RegisterIsRead(t: Turn, f: FrameBytes, features: seq<Feature>, before: Log, b: Battery)
    requires AnsweredBy(t, f)
    ensures ReadsRegister(BatteryOf(1, features, Then(before, t), b), f, t.ask.header.function_ == 0x0d, b)
  {
    AnswerIsRead(t, f);
    var m := t.Result().buffer;
    assert m[3] == f[3] && m[4] == f[4] && m[5] == f[5];
  }

  lemma LevelIsRead(t: Turn, f: FrameBytes, b: Battery)
    requires AnsweredBy(t, f) && |f| >= 7
    ensures ReadsLevel(LevelBattery(t.Result().buffer, b), f, b)
  {
    AnswerIsRead(t, f);
    var m := t.Result().buffer;
    assert m[4] == f[4] && m[6] == f[6];
  }

  lemma LightIsRead(t: Turn, f: FrameBytes)
    requires AnsweredBy(t, f) && |f| >= 7
    ensures ReadsLight(SolarBattery(t.Result().buffer), f)
    ensures Lux(t.Result().buffer) == f[5] as int * 256 + f[6] as int
  {
    AnswerIsRead(t, f);
    var m := t.Result().buffer;
    assert m[4] == f[4] && m[5] == f[5] && m[6] == f[6];
  }

  /** The battery of a device with features, by the bytes of the last answers: with the level feature that of
      the last one, on top of the one before it when there is a solar panel too. */
  lemma FeatureBatteryIsRead(features: seq<Feature>, before: Log, s: Turn, t: Turn, b: Battery, g: FrameBytes, f: FrameBytes)
    returns (lit: Battery)
    requires AnsweredBy(t, f) && |f| >= 7
    requires AnsweredBy(s, g) && |g| >= 7
    ensures ReadsLight(lit, g)
    ensures var r := BatteryOf(2, features, Then(Then(before, s), t), b);
            && (!Knows(features, 0x4301) && !Knows(features, 0x1000) ==> r == b)
            && (!Knows(features, 0x4301) && Knows(features, 0x1000) ==> ReadsLevel(r, f, b))
            && (Knows(features, 0x4301) && !Knows(features, 0x1000) ==> ReadsLight(r, f))
            && (Knows(features, 0x4301) && Knows(features, 0x1000) ==> ReadsLevel(r, f, lit))
  {
    FirstOfExactly(features, 0x4301);
    FirstOfExactly(features, 0x1000);
    lit := SolarBattery(s.Result().buffer);
    LightIsRead(s, g);
    LightIsRead(t, f);
    LevelIsRead(t, f, b);
    LevelIsRead(t, f, lit);
  }

  // ----- Features

  predicate Knows(features: seq<Feature>, feature: nat) {
    exists i :: 0 <= i < |features| && features[i].feature == feature
  }

  /** A feature has the index with which it was learned first. */
  lemma {:induction false} FirstOfExactly(features: seq<Feature>, feature: nat)
    ensures FirstOf(features, feature).Some? <==> Knows(features, feature)
    ensures forall i :: 0 <= i < |features| && features[i].feature == feature &&
                        (forall j :: 0 <= j < i ==> features[j].feature != feature) ==>
                          FirstOf(features, feature) == Some(features[i].idx)
  {
    if features != [] {
      var tail := features[1..];
      assert forall i :: 0 <= i < |tail| ==> tail[i] == features[i + 1];
      assert forall i :: 1 <= i < |features| ==> features[i] == tail[i - 1];
      FirstOfExactly(tail, feature);
    }
  }

  /** A question for a feature teaches its index, if the answer has one; nothing else does. */
  lemma FeatureIsLearned(t: Turn, f: FrameBytes, high: Byte, low: Byte, known: seq<Feature>, log: Log)
    requires t.ask == Ask(Header(t.ask.header.device, 0x00, 0x00), [high, low, 0x00]) && AnsweredBy(t, f)
    ensures Learned(known, Then(log, t)) ==
              Learned(known, log) + if f[4] == 0 then [] else [Feature(f[4], high as nat * 256 + low as nat)]
  {
    AnswerIsRead(t, f);
    assert t.Result().buffer[4] == f[4];
  }

  lemma NothingElseIsLearned(t: Turn, known: seq<Feature>, log: Log)
    requires AllWhole(t.exchange.inputs)
    requires t.ask.header.feature != 0x00 || t.ask.header.function_ != 0x00 || !Answered(t)
    ensures Learned(known, Then(log, t)) == Learned(known, log)
  {
    AnsweredExactly(t.start, t.exchange.inputs, t.ask.header);
  }

  // ----- Failures

  /** The last message heard is an error message with this code. */
  predicate LastIsError(t: Turn, code: Byte) {
    var heard := LastHeard(t.exchange.inputs, t.ask.header);
    t.exchange.writeOk && |heard| >= 6 && heard[0] == 0x10 && heard[2] == 0x8f && heard[5] == code
  }

  /** A ping may go unanswered if an error 1 or 9 was heard, the question for the exact battery if an error 2
      was, and a question for a feature anyway; no other request may. */
  lemma FailureByMessages(t: Turn)
    requires AllWhole(t.exchange.inputs) && Started(t)
    ensures var d := t.ask.header.device;
            t.Fails() <==>
              && !Answered(t)
              && !(t.ask == Ask(Header(d, 0x00, 0x10), [0x00, 0x00, 0x42]) && (LastIsError(t, 1) || LastIsError(t, 9)))
              && !(t.ask == Ask(Header(d, 0x81, 0x0d), [0x00, 0x00, 0x00]) && LastIsError(t, 2))
              && !(t.ask.header.feature == 0x00 && t.ask.header.function_ == 0x00 && |t.ask.parameters| == 3)
  {
    FailsExactly(t);
  }

  /** A device is out of reach by an error message with code 9. */
  lemma UnreachableByBytes(m: Message)
    ensures Unreachable(m) <==> m[0] == 0x10 && m[2] == 0x8f && m[5] == 9
  {
  }

  // ----- What is sent

  /** Requests as they are sent, and reports that are awaited, the latest last. */
  datatype Wire = Silence | After(before: Wire, bytes: seq<Byte>) | Awaited(before: Wire, header: Header)

  function When(before: Wire, condition: bool, bytes: seq<Byte>): Wire {
    if condition then After(before, bytes) else before
  }

  /** The header and the parameters of each request; a report has none. */
  function Sent(asks: Asks): Wire {
    match asks
    case NoAsks => Silence
    case More(before, a) =>
      if a.parameters == [] then Awaited(Sent(before), a.header)
      else After(Sent(before), [SHORT, a.header.device, a.header.feature, a.header.function_] + a.parameters)
  }

  lemma LowBitsAreAdded(base: bv8, x: bv8)
    requires base & 0xf == 0 && x < 16
    ensures base | x == base + x
  {
  }

  lemma LowBits(base: Byte, d: Byte)
    requires base in {0x20, 0x30, 0x40} && 1 <= d <= 16
    ensures RegisterParameter(d, base) == base + d - 1
  {
    var x: Byte := d - 1;
    assert x % 256 == x;
    LowBitsAreAdded(base as bv8, x as bv8);
  }

  lemma SentPlus(asks: Asks, condition: bool, a: Ask, bytes: seq<Byte>)
    requires |bytes| == 7 && bytes[..4] == [0x10, a.header.device, a.header.feature, a.header.function_]
    requires bytes[4..] == a.parameters
    ensures Sent(Plus(asks, condition, a)) == When(Sent(asks), condition, bytes)
  {
    assert bytes == bytes[..4] + bytes[4..];
  }

  /** A request for a register of the receiver. */
  function ReceiverRegister(register: Byte): seq<Byte> { [0x10, 0xff, 0x83, 0xb5, register, 0x00, 0x00] }

  function IdentitySent(w: Wire, d: Byte, flags: Flags, before: nat, after: nat): Wire {
    var features := flags.features || (flags.version && before < 2 <= after);
    var pinged := When(w, flags.version, [0x10, d, 0x00, 0x10, 0x00, 0x00, 0x42]);
    When(When(pinged, features, [0x10, d, 0x00, 0x00, 0x10, 0x00, 0x00]), features, [0x10, d, 0x00, 0x00, 0x43, 0x01, 0x00])
  }

  lemma IdentityIsSent(asks: Asks, d: Byte, flags: Flags, before: nat, after: nat)
    ensures Sent(IdentityAsked(asks, d, flags, before, after)) == IdentitySent(Sent(asks), d, flags, before, after)
  {
    var features := flags.features || (flags.version && before < 2 <= after);
    var pinged := Plus(asks, flags.version, Ping(d));
    SentPlus(asks, flags.version, Ping(d), [0x10, d, 0x00, 0x10, 0x00, 0x00, 0x42]);
    SentPlus(pinged, features, FindFeature(d, FEATURE_BATTERY), [0x10, d, 0x00, 0x00, 0x10, 0x00, 0x00]);
    SentPlus(Plus(pinged, features, FindFeature(d, FEATURE_BATTERY)), features, FindFeature(d, FEATURE_SOLAR),
             [0x10, d, 0x00, 0x00, 0x43, 0x01, 0x00]);
  }

  function DescriptionSent(w: Wire, d: Byte, flags: Flags, version: nat): Wire
    requires 1 <= d <= 16
  {
    var kind := When(w, flags.kind && version <= 2, ReceiverRegister(0x1f + d));
    When(When(kind, flags.model && version <= 2, ReceiverRegister(0x3f + d)), flags.serial, ReceiverRegister(0x2f + d))
  }

  lemma DescriptionIsSent(asks: Asks, d: Byte, flags: Flags, version: nat)
    requires 1 <= d <= 16
    ensures Sent(DescriptionAsked(asks, d, flags, version)) == DescriptionSent(Sent(asks), d, flags, version)
  {
    LowBits(0x20, d);
    LowBits(0x30, d);
    LowBits(0x40, d);
    var kind := Plus(asks, flags.kind && version <= 2, Info(d, 0x20));
    var model := Plus(kind, flags.model && version <= 2, Info(d, 0x40));
    SentPlus(asks, flags.kind && version <= 2, Info(d, 0x20), ReceiverRegister(0x1f + d));
    SentPlus(kind, flags.model && version <= 2, Info(d, 0x40), ReceiverRegister(0x3f + d));
    SentPlus(model, flags.serial, Info(d, 0x30), ReceiverRegister(0x2f + d));
  }

  function BatterySent(w: Wire, d: Byte, version: nat, features: seq<Feature>, approxBefore: bool, approx: bool): Wire {
    var solar, level := FirstOf(features, 0x4301), FirstOf(features, 0x1000);
    var exact := When(w, version == 1 && !approxBefore, [0x10, d, 0x81, 0x0d, 0x00, 0x00, 0x00]);
    var register := When(exact, version == 1 && approx, [0x10, d, 0x81, 0x07, 0x00, 0x00, 0x00]);
    var light :=
      if version == 2 && solar.Some?
      then Awaited(After(register, [0x10, d, solar.value, 0x00, 0x01, 0x01]), Header(d, solar.value, 0x10)) else register;
    if version == 2 && level.Some? then After(light, [0x10, d, level.value, 0x02, 0x00, 0x00, 0x00]) else light
  }

  lemma BatteryIsSent(asks: Asks, d: Byte, version: nat, features: seq<Feature>, before: bool, after: bool)
    ensures Sent(BatteryAsked(asks, d, version, features, before, after)) ==
              BatterySent(Sent(asks), d, version, features, before, after)
  {
    SentPlus(asks, !before, ReadBattery(d, REGISTER_BATTERY), [0x10, d, 0x81, 0x0d, 0x00, 0x00, 0x00]);
    SentPlus(Plus(asks, !before, ReadBattery(d, REGISTER_BATTERY)), after, ReadBattery(d, REGISTER_BATTERY_APPROX),
             [0x10, d, 0x81, 0x07, 0x00, 0x00, 0x00]);
    var solar, level := FirstOf(features, 0x4301), FirstOf(features, 0x1000);
    if solar.Some? {
      LightIsSent(asks, d, solar.value);
    }
    var lit := if solar.Some? then More(More(asks, MeasureLight(d, solar.value)), Report(d, solar.value)) else asks;
    if level.Some? {
      SentPlus(lit, true, GetLevel(d, level.value), [0x10, d, level.value, 0x02, 0x00, 0x00, 0x00]);
    }
  }

  lemma LightIsSent(asks: Asks, d: Byte, idx: Byte)
    ensures Sent(More(More(asks, MeasureLight(d, idx)), Report(d, idx))) ==
              Awaited(After(Sent(asks), [0x10, d, idx, 0x00, 0x01, 0x01]), Header(d, idx, 0x10))
  {
    assert [SHORT, d, idx, 0x00] + [0x01, 0x01] == [0x10, d, idx, 0x00, 0x01, 0x01];
    assert Sent(More(asks, MeasureLight(d, idx))) == After(Sent(asks), [0x10, d, idx, 0x00, 0x01, 0x01]);
  }

  /** Everything that a refresh without failures sends, by the flags and by what is known of the device. */
  lemma SentExactly(d: Byte, flags: Flags, versionBefore: nat, version: nat, features: seq<Feature>,
                    approxBefore: bool, approx: bool)
    requires 1 <= d <= 16
    ensures var identity := IdentitySent(Silence, d, flags, versionBefore, version);
            var description := DescriptionSent(identity, d, flags, version);
            Sent(Asked(NoAsks, d, flags, versionBefore, version, features, approxBefore, approx)) ==
              if flags.battery then BatterySent(description, d, version, features, approxBefore, approx) else description
  {
    var identity := IdentityAsked(NoAsks, d, flags, versionBefore, version);
    var described := DescriptionAsked(identity, d, flags, version);
    IdentityIsSent(NoAsks, d, flags, versionBefore, version);
    DescriptionIsSent(identity, d, flags, version);
    BatteryIsSent(described, d, version, features, approxBefore, approx);
  }

  // ----- What the receiver says about the device

  /** Keyboards, numpads and remote controls are keyboards; mice, presenters, trackballs and touchpads are
      mice; an unknown number changes nothing. */
  lemma KindByCode(code: Byte, kind: Kind)
    ensures var k := KindOf(code, kind);
            && (code == 1 || code == 3 || code == 7 ==> k == KindKeyboard)
            && (code == 2 || code == 4 || code == 8 || code == 9 ==> k == KindMouse)
            && (code == 10 ==> k == KindTablet)
            && (code == 11 || code == 12 ==> k == KindUnknown)
            && (code == 0 || code == 5 || code == 6 || code > 12 ==> k == kind)
  {
  }

  /** The name is what follows its length in the response, as far as the length counts, and the buffer
      reaches, and no NUL comes. */
  lemma NameByBytes(m: Message)
    ensures var n := |NameIn(m)|;
            && n <= 14 && n <= m[5] && NameIn(m) == m[6..6 + n]
            && (forall i :: 6 <= i < 6 + n ==> m[i] != 0)
            && (n == 14 || n == m[5] || m[6 + n] == 0)
  {
    var n := |NameIn(m)|;
    assert NameIn(m) <= m[6..6 + NameLength(m[5])];
    assert NameIn(m) == m[6..6 + n];
    forall i | 6 <= i < 6 + n ensures m[i] != 0 {
      assert NameIn(m)[i - 6] == m[i];
    }
  }
}
