/**
 src/up-history.c: the history object. It records samples in four arrays, batches their saves
 behind one timer, and reloads its files when it gets its id.

 The object is a class, UpHistory. Its methods are proved against the steps of the value type
 Store, about which the properties of whole runs are proved.
 */
module HistoryStore {
  import opened DecimalText
  import opened HistoryFile
  import opened HistoryItem
  import opened UpTypes
  import opened Wrappers
  import Query = HistoryQuery
  import Profile = HistoryProfile

  const DEFAULT_MAX_DATA_AGE: nat := 7 * 24 * 60 * 60

  datatype Series = Rate | Charge | TimeFull | TimeEmpty

  /** One value for each of the four series. */
  datatype Four<T> = Four(rate: T, charge: T, timeFull: T, timeEmpty: T) {
    function Get(s: Series): T {
      match s
      case Rate => rate
      case Charge => charge
      case TimeFull => timeFull
      case TimeEmpty => timeEmpty
    }

    function With(s: Series, x: T): Four<T> {
      match s
      case Rate => this.(rate := x)
      case Charge => this.(charge := x)
      case TimeFull => this.(timeFull := x)
      case TimeEmpty => this.(timeEmpty := x)
    }

    function Map<U>(f: T -> U): Four<U> { Four(f(rate), f(charge), f(timeFull), f(timeEmpty)) }
  }

  type Data = Four<seq<Item>>
  type Files = Four<Option<string>>
  type Texts = Four<string>

  /** The directory: the texts of its files by name. */
  type Disk = map<string, string>

  /** The arrays that a save wrote, when, and with which age limit. */
  datatype Save = Save(data: Data, at: int, maxAge: nat)

  datatype Store = Store(
    id: Option<string>,
    state: DeviceState,
    last: Four<Double>,
    data: Data,
    saveId: nat,
    maxAge: nat,
    timers: set<nat>,
    files: Disk,
    saved: Option<Save>)

  const Zero: Double := Double(false, 0.0)
  const NoData: Data := Four([], [], [], [])

  function Init(files: Disk): Store {
    Store(None, Unknown, Four(Zero, Zero, Zero, Zero), NoData, 0, DEFAULT_MAX_DATA_AGE, {}, files, None)
  }

  // ----- The files of an id

  function TypeName(series: Series): string {
    match series
    case Rate => "rate"
    case Charge => "charge"
    case TimeFull => "time-full"
    case TimeEmpty => "time-empty"
  }

  function FileName(series: Series, id: string): string { "history-" + (TypeName(series) + ("-" + (id + ".dat"))) }

  lemma PrefixCancels(p: string, a: string, b: string)
    requires p + a == p + b
    ensures a == b
  {
    assert (p + a)[|p|..] == a && (p + b)[|p|..] == b;
  }

  lemma SuffixCancels(a: string, b: string, t: string)
    requires a + t == b + t
    ensures a == b
  {
    assert (a + t)[..|a|] == a && (b + t)[..|b|] == b;
  }

  /** A type's name is not the beginning of another's, so no two series have a file in common. */
  lemma TypesDiffer(series: Series, a: string, other: Series, b: string)
    requires TypeName(series) + a == TypeName(other) + b
    ensures series == other
  {
    var x, y := TypeName(series) + a, TypeName(other) + b;
    assert x[0] == TypeName(series)[0] && y[0] == TypeName(other)[0];
    if x[0] == 't' {
      assert x[5] == TypeName(series)[5] && y[5] == TypeName(other)[5];
    }
  }

  /** No two series and no two ids share a file. */
  lemma FileNamesDiffer(series: Series, id: string, otherSeries: Series, other: string)
    requires FileName(series, id) == FileName(otherSeries, other)
    ensures series == otherSeries && id == other
  {
    var a, b := "-" + (id + ".dat"), "-" + (other + ".dat");
    PrefixCancels("history-", TypeName(series) + a, TypeName(otherSeries) + b);
    TypesDiffer(series, a, otherSeries, b);
    PrefixCancels(TypeName(series), a, b);
    PrefixCancels("-", id + ".dat", other + ".dat");
    SuffixCancels(id, other, ".dat");
  }

  function ReadFile(disk: Disk, name: string): Option<string> {
    if name in disk then Some(disk[name]) else None
  }

  function FilesOf(disk: Disk, id: string): Files {
    Four(ReadFile(disk, FileName(Rate, id)), ReadFile(disk, FileName(Charge, id)),
         ReadFile(disk, FileName(TimeFull, id)), ReadFile(disk, FileName(TimeEmpty, id)))
  }

  function AllThere(texts: Texts): Files {
    Four(Some(texts.rate), Some(texts.charge), Some(texts.timeFull), Some(texts.timeEmpty))
  }

  /** The four files of an id are written; those of other ids stay. */
  function Written(disk: Disk, id: string, texts: Texts): (r: Disk)
    ensures FilesOf(r, id) == AllThere(texts)
    ensures forall other :: other != id ==> FilesOf(r, other) == FilesOf(disk, other)
  {
    OnlyOwnFiles(disk, id, texts);
    WrittenDirectly(disk, id, texts)
  }

  function WrittenDirectly(disk: Disk, id: string, texts: Texts): Disk {
    disk[FileName(Rate, id) := texts.rate][FileName(Charge, id) := texts.charge]
        [FileName(TimeFull, id) := texts.timeFull][FileName(TimeEmpty, id) := texts.timeEmpty]
  }

  lemma OnlyOwnFiles(disk: Disk, id: string, texts: Texts)
    ensures FilesOf(WrittenDirectly(disk, id, texts), id) == AllThere(texts)
    ensures forall other :: other != id ==> FilesOf(WrittenDirectly(disk, id, texts), other) == FilesOf(disk, other)
  {
    forall series, otherSeries | FileName(series, id) == FileName(otherSeries, id) ensures series == otherSeries {
      FileNamesDiffer(series, id, otherSeries, id);
    }
    forall other | other != id
      ensures FilesOf(WrittenDirectly(disk, id, texts), other) == FilesOf(disk, other)
    {
      forall series, otherSeries ensures FileName(series, id) != FileName(otherSeries, other) {
        if FileName(series, id) == FileName(otherSeries, other) {
          FileNamesDiffer(series, id, otherSeries, other);
        }
      }
    }
  }

  /** The current time as an unsigned 32-bit number. */
  function Present(now: int): UInt32 { now % UINT32 }

  /** What a save writes for an array. */
  function Writer(at: int, maxAge: nat): seq<Item> -> string {
    items => Saved(items, at, maxAge)
  }

  function SavedTexts(save: Save): Texts { save.data.Map(Writer(save.at, save.maxAge)) }

  /** up_history_save_data, when the writes succeed. */
  function SaveData(s: Store, now: int): Store {
    if s.id.None? then s
    else
      var save := Save(s.data, now, s.maxAge);
      s.(files := Written(s.files, s.id.value, SavedTexts(save)), saved := Some(save))
  }

  predicate IsLowPower(state: DeviceState, charge: seq<Item>) {
    && state == Discharging
    && charge != []
    && charge[|charge| - 1].state == Discharging
    && charge[|charge| - 1].value.Real() <= 10.0
  }

  /** A save now when the power is low, else by the timer that is pending or by a new one. */
  function ScheduleSave(s: Store, now: int, timer: nat): Store {
    if IsLowPower(s.state, s.data.charge) then SaveData(s, now)
    else if s.saveId != 0 then s
    else s.(saveId := timer, timers := s.timers + {timer})
  }

  function Marker(now: int): Item { Item(Present(now), Zero, Unknown) }

  /** An array with the content of its file and the marker appended. */
  function LoadedArray(before: seq<Item>, file: Option<string>, now: int): seq<Item> {
    before + (if file.Some? then Loaded(file.value) else []) + [Marker(now)]
  }

  function LoadedData(before: Data, files: Files, now: int): Data {
    Four(LoadedArray(before.rate, files.rate, now),
         LoadedArray(before.charge, files.charge, now),
         LoadedArray(before.timeFull, files.timeFull, now),
         LoadedArray(before.timeEmpty, files.timeEmpty, now))
  }

  function SetId(s: Store, id: Option<string>, now: int, timer: nat): Store {
    if s.id.Some? || id.None? then s
    else ScheduleSave(s.(id := id, data := LoadedData(s.data, FilesOf(s.files, id.value), now)), now, timer)
  }

  predicate Accepts(s: Store, series: Series, value: Double) {
    && s.id.Some?
    && s.state != Unknown
    && (series.TimeFull? || series.TimeEmpty? ==> value.Real() >= 0.0)
    && s.last.Get(series).Real() != value.Real()
  }

  function Sample(s: Store, value: Double, now: int): Item { Item(Present(now), value, s.state) }

  function Record(s: Store, series: Series, value: Double, now: int, timer: nat): Store {
    if !Accepts(s, series, value) then s
    else
      var appended := s.(data := s.data.With(series, s.data.Get(series) + [Sample(s, value, now)]));
      ScheduleSave(appended, now, timer).(last := s.last.With(series, value))
  }

  /** The save timer fires: the callback saves, forgets the timer and removes it. */
  function TimerFires(s: Store, timer: nat, now: int): Store {
    SaveData(s, now).(saveId := 0, timers := s.timers - {timer})
  }

  /** The object goes away: its timer is removed, and it saves once more. */
  function Finalized(s: Store, now: int): Store {
    SaveData(s.(timers := if s.saveId > 0 then s.timers - {s.saveId} else s.timers), now)
  }

  datatype Event =
    | EvSetId(id: Option<string>, now: int, timer: nat)
    | EvSetState(state: DeviceState)
    | EvSetMaxAge(maxAge: nat)
    | EvRecord(series: Series, value: Double, now: int, timer: nat)
    | EvTimer(timer: nat, now: int)
    | EvSave(now: int)

  /** The main loop hands out timers that are positive and not in use, and fires live ones only. */
  predicate Enabled(s: Store, e: Event) {
    match e
    case EvSetId(_, _, timer) => timer > 0 && timer !in s.timers
    case EvRecord(_, _, _, timer) => timer > 0 && timer !in s.timers
    case EvTimer(timer, _) => timer in s.timers
    case _ => true
  }

  function Step(s: Store, e: Event): Store {
    match e
    case EvSetId(id, now, timer) => SetId(s, id, now, timer)
    case EvSetState(state) => if s.id.None? then s else s.(state := state)
    case EvSetMaxAge(maxAge) => s.(maxAge := maxAge)
    case EvRecord(series, value, now, timer) => Record(s, series, value, now, timer)
    case EvTimer(timer, now) => TimerFires(s, timer, now)
    case EvSave(now) => SaveData(s, now)
  }

  method LoadArray(before: seq<Item>, file: Option<string>, now: int) returns (r: seq<Item>)
    ensures r == LoadedArray(before, file, now)
  {
    var ok: bool;
    r, ok := ArrayFromFile(before, file);
    assert before + [] == before;
    r := r + [Item(Present(now), Zero, Unknown)];
  }

  class UpHistory {
    var id: Option<string>
    var state: DeviceState
    var rateLast: Double
    var percentageLast: Double
    var timeFullLast: Double
    var timeEmptyLast: Double
    var dataRate: seq<Item>
    var dataCharge: seq<Item>
    var dataTimeFull: seq<Item>
    var dataTimeEmpty: seq<Item>
    var saveId: nat
    var maxDataAge: nat

    // The environment: the live save timers, the directory, and the last save.
    var timers: set<nat>
    var files: Disk
    ghost var saved: Option<Save>

    ghost function View(): Store
      reads this
    {
      Store(id, state, Four(rateLast, percentageLast, timeFullLast, timeEmptyLast),
            Four(dataRate, dataCharge, dataTimeFull, dataTimeEmpty), saveId, maxDataAge, timers, files, saved)
    }

    constructor (files: Disk)
      ensures View() == Init(files)
    {
      id, state := None, Unknown;
      rateLast, percentageLast, timeFullLast, timeEmptyLast := Zero, Zero, Zero, Zero;
      dataRate, dataCharge, dataTimeFull, dataTimeEmpty := [], [], [], [];
      saveId, maxDataAge, timers := 0, DEFAULT_MAX_DATA_AGE, {};
      this.files, saved := files, None;
    }

    method SetMaxDataAge(maxAge: nat)
      modifies this
      ensures View() == Step(old(View()), EvSetMaxAge(maxAge))
    {
      maxDataAge := maxAge;
    }

    method SaveToDisk(now: int) returns (ok: bool)
      modifies this
      ensures View() == SaveData(old(View()), now) && ok == id.Some?
    {
      if id == None {
        return false;
      }
      ghost var save := Save(View().data, now, maxDataAge);
      ghost var w := Writer(now, maxDataAge);
      var rate := ArrayToFile(dataRate, now, maxDataAge);
      var charge := ArrayToFile(dataCharge, now, maxDataAge);
      var timeFull := ArrayToFile(dataTimeFull, now, maxDataAge);
      var timeEmpty := ArrayToFile(dataTimeEmpty, now, maxDataAge);
      assert w(dataRate) == rate && w(dataCharge) == charge && w(dataTimeFull) == timeFull && w(dataTimeEmpty) == timeEmpty;
      files := files[FileName(Rate, id.value) := rate][FileName(Charge, id.value) := charge];
      files := files[FileName(TimeFull, id.value) := timeFull][FileName(TimeEmpty, id.value) := timeEmpty];
      saved := Some(save);
      return true;
    }

    method ScheduleSaveCb(timer: nat, now: int)
      requires timer in timers
      modifies this
      ensures View() == TimerFires(old(View()), timer, now)
    {
      var _ := SaveToDisk(now);
      saveId := 0;
      timers := timers - {timer};
    }

    method RequestSave(now: int, timer: nat)
      modifies this
      ensures View() == ScheduleSave(old(View()), now, timer)
    {
      if IsLowPower(state, dataCharge) {
        var _ := SaveToDisk(now);
        return;
      }
      if saveId != 0 {
        return;
      }
      saveId := timer;
      timers := timers + {timer};
    }

    method SetHistoryId(newId: Option<string>, now: int, timer: nat) returns (ok: bool)
      modifies this
      ensures View() == SetId(old(View()), newId, now, timer)
      ensures ok <==> old(id).None? && newId.Some?
    {
      if id != None || newId == None {
        return false;
      }
      id := newId;
      LoadFiles(now);
      RequestSave(now, timer);
      return true;
    }

    method LoadFiles(now: int)
      requires id.Some?
      modifies this`dataRate, this`dataCharge, this`dataTimeFull, this`dataTimeEmpty
      ensures View().data == LoadedData(old(View().data), FilesOf(files, id.value), now)
    {
      dataRate := LoadArray(dataRate, ReadFile(files, FileName(Rate, id.value)), now);
      dataCharge := LoadArray(dataCharge, ReadFile(files, FileName(Charge, id.value)), now);
      dataTimeFull := LoadArray(dataTimeFull, ReadFile(files, FileName(TimeFull, id.value)), now);
      dataTimeEmpty := LoadArray(dataTimeEmpty, ReadFile(files, FileName(TimeEmpty, id.value)), now);
    }

    method SetState(newState: DeviceState) returns (ok: bool)
      modifies this
      ensures View() == Step(old(View()), EvSetState(newState)) && ok == id.Some?
    {
      if id == None {
        return false;
      }
      state := newState;
      return true;
    }

    method SetChargeData(percentage: Double, now: int, timer: nat) returns (ok: bool)
      modifies this
      ensures View() == Record(old(View()), Charge, percentage, now, timer)
      ensures ok == old(Accepts(View(), Charge, percentage))
    {
      if id == None || state == Unknown || percentageLast.Real() == percentage.Real() {
        return false;
      }
      dataCharge := dataCharge + [Item(Present(now), percentage, state)];
      RequestSave(now, timer);
      percentageLast := percentage;
      return true;
    }

    method SetRateData(rate: Double, now: int, timer: nat) returns (ok: bool)
      modifies this
      ensures View() == Record(old(View()), Rate, rate, now, timer)
      ensures ok == old(Accepts(View(), Rate, rate))
    {
      if id == None || state == Unknown || rateLast.Real() == rate.Real() {
        return false;
      }
      dataRate := dataRate + [Item(Present(now), rate, state)];
      RequestSave(now, timer);
      rateLast := rate;
      return true;
    }

    method SetTimeFullData(timeS: int, now: int, timer: nat) returns (ok: bool)
      modifies this
      ensures View() == Record(old(View()), TimeFull, Query.FromReal(timeS as real), now, timer)
      ensures ok == old(Accepts(View(), TimeFull, Query.FromReal(timeS as real)))
    {
      var value := Query.FromReal(timeS as real);
      if id == None || state == Unknown || timeS < 0 || timeFullLast.Real() == value.Real() {
        return false;
      }
      dataTimeFull := dataTimeFull + [Item(Present(now), value, state)];
      RequestSave(now, timer);
      timeFullLast := value;
      return true;
    }

    method SetTimeEmptyData(timeS: int, now: int, timer: nat) returns (ok: bool)
      modifies this
      ensures View() == Record(old(View()), TimeEmpty, Query.FromReal(timeS as real), now, timer)
      ensures ok == old(Accepts(View(), TimeEmpty, Query.FromReal(timeS as real)))
    {
      var value := Query.FromReal(timeS as real);
      if id == None || state == Unknown || timeS < 0 || timeEmptyLast.Real() == value.Real() {
        return false;
      }
      dataTimeEmpty := dataTimeEmpty + [Item(Present(now), value, state)];
      RequestSave(now, timer);
      timeEmptyLast := value;
      return true;
    }

    /** `series` is None for a type that is not recognised. */
    method GetData(series: Option<Series>, timespan: nat, resolution: nat, now: int) returns (r: Option<seq<Item>>)
      ensures r == (if id.None? || series.None? then None
                    else match Query.Timespan(View().data.Get(series.value), timespan, now)
                         case None => None
                         case Some(window) => Some(Query.Limited(window, resolution)))
    {
      if id == None || series == None {
        return None;
      }
      var data := match series.value
        case Rate => dataRate
        case Charge => dataCharge
        case TimeFull => dataTimeFull
        case TimeEmpty => dataTimeEmpty;
      var window := Query.CopyArrayTimespan(data, timespan, now);
      if window == None {
        return None;
      }
      var points := Query.LimitResolution(window.value, resolution);
      return Some(points);
    }

    method Finalize(now: int)
      modifies this
      ensures View() == Finalized(old(View()), now)
    {
      if saveId > 0 {
        timers := timers - {saveId};
      }
      if id != None {
        var _ := SaveToDisk(now);
      }
    }
  }

  // ----- Whole runs

  function Run(s: Store, events: seq<Event>): Store {
    if events == [] then s else Step(Run(s, events[..|events| - 1]), events[|events| - 1])
  }

  predicate CanRun(s: Store, events: seq<Event>) {
    events == [] ||
    (CanRun(s, events[..|events| - 1]) && Enabled(Run(s, events[..|events| - 1]), events[|events| - 1]))
  }

  /** At most one timer lives, and it is the one that the object knows; without it all that is in
      memory was written by the last save, which is what the files hold. */
  predicate Safe(s: Store) {
    && s.timers == (if s.saveId == 0 then {} else {s.saveId})
    && (s.id.None? ==> s.data == NoData && s.saveId == 0 && s.saved.None?)
    && (s.id.Some? && s.saveId == 0 ==> s.saved.Some? && s.saved.value.data == s.data)
    && (s.saved.Some? ==> s.id.Some? && FilesOf(s.files, s.id.value) == AllThere(SavedTexts(s.saved.value)))
  }

  /** Safe but for what is in memory and not yet written. */
  predicate Linked(s: Store) {
    && s.timers == (if s.saveId == 0 then {} else {s.saveId})
    && (s.saved.Some? ==> s.id.Some? && FilesOf(s.files, s.id.value) == AllThere(SavedTexts(s.saved.value)))
  }

  lemma ScheduleMakesSafe(s: Store, now: int, timer: nat)
    requires Linked(s) && s.id.Some? && timer > 0
    ensures Safe(ScheduleSave(s, now, timer))
  {
  }

  lemma StepKeepsSafe(s: Store, e: Event)
    requires Safe(s) && Enabled(s, e)
    ensures Safe(Step(s, e))
  {
    match e {
      case EvSetId(id, now, timer) =>
        if s.id.None? && id.Some? {
          ScheduleMakesSafe(s.(id := id, data := LoadedData(s.data, FilesOf(s.files, id.value), now)), now, timer);
        }
      case EvRecord(series, value, now, timer) =>
        if Accepts(s, series, value) {
          var data := s.data.With(series, s.data.Get(series) + [Sample(s, value, now)]);
          ScheduleMakesSafe(s.(data := data), now, timer);
        }
      case EvTimer(timer, now) =>
        assert s.timers == {timer};
      case _ =>
    }
  }

  lemma {:induction false} RunIsSafe(files: Disk, events: seq<Event>)
    requires CanRun(Init(files), events)
    ensures Safe(Run(Init(files), events))
  {
    if events != [] {
      var n := |events| - 1;
      RunIsSafe(files, events[..n]);
      StepKeepsSafe(Run(Init(files), events[..n]), events[n]);
    }
  }

  predicate Extends(a: Data, b: Data) {
    a.rate <= b.rate && a.charge <= b.charge && a.timeFull <= b.timeFull && a.timeEmpty <= b.timeEmpty
  }

  lemma StepOnlyGrows(s: Store, e: Event)
    ensures Extends(s.data, Step(s, e).data)
  {
    match e {
      case EvRecord(series, value, now, timer) =>
        var data := s.data.With(series, s.data.Get(series) + [Sample(s, value, now)]);
        assert Extends(s.data, data);
        assert ScheduleSave(s.(data := data), now, timer).data == data;
      case EvSetId(id, now, timer) =>
        if id.Some? {
          var data := LoadedData(s.data, FilesOf(s.files, id.value), now);
          assert Extends(s.data, data);
          assert ScheduleSave(s.(id := id, data := data), now, timer).data == data;
        }
      case _ =>
    }
  }

  /** What a series holds is never changed or dropped from memory. */
  lemma {:induction false} DataOnlyGrows(s: Store, events: seq<Event>)
    ensures Extends(s.data, Run(s, events).data)
  {
    if events != [] {
      var n := |events| - 1;
      DataOnlyGrows(s, events[..n]);
      StepOnlyGrows(Run(s, events[..n]), events[n]);
    }
  }

  lemma FreshIsStored(items: seq<Item>, end: int, maxAge: nat, sample: Item)
    requires sample in items && Fresh(sample, end, maxAge)
    ensures sample.Stored() in Stored(Culled(items, end, maxAge))
  {
    CulledMembers(items, end, maxAge, sample);
    var kept := Culled(items, end, maxAge);
    var i :| 0 <= i < |kept| && kept[i] == sample;
    assert Stored(kept)[i] == sample.Stored();
  }

  lemma FileAtEnd(s: Store, end: int, id: string, series: Series)
    requires s.id == Some(id)
    ensures ReadFile(Finalized(s, end).files, FileName(series, id)) == Some(Saved(s.data.Get(series), end, s.maxAge))
  {
    var files := Finalized(s, end).files;
    assert FilesOf(files, id) == AllThere(s.data.Map(Writer(end, s.maxAge)));
    assert ReadFile(files, FileName(series, id)) == FilesOf(files, id).Get(series);
    assert Writer(end, s.maxAge)(s.data.Get(series)) == Saved(s.data.Get(series), end, s.maxAge);
  }

  /** A sample that was accepted at any point of a run is in memory at its end, and once the object
      is finalized the file of its series holds it unless it is too old. */
  lemma NoSampleIsForgotten(files: Disk, before: seq<Event>, series: Series, value: Double, now: int,
                            timer: nat, after: seq<Event>, end: int)
    requires var s := Run(Init(files), before);
             var t := Step(s, EvRecord(series, value, now, timer));
             && CanRun(Init(files), before)
             && Accepts(s, series, value) && Enabled(s, EvRecord(series, value, now, timer))
             && CanRun(t, after)
    ensures var s := Run(Init(files), before);
            var last := Run(Step(s, EvRecord(series, value, now, timer)), after);
            var file := ReadFile(Finalized(last, end).files, FileName(series, s.id.value));
            && last.id == s.id && Sample(s, value, now) in last.data.Get(series)
            && file.Some?
            && Loaded(file.value) == Stored(Culled(last.data.Get(series), end, last.maxAge))
            && (Fresh(Sample(s, value, now), end, last.maxAge) ==>
                  Sample(s, value, now).Stored() in Loaded(file.value))
  {
    var s := Run(Init(files), before);
    var t := Step(s, EvRecord(series, value, now, timer));
    var last := Run(t, after);
    var sample := Sample(s, value, now);
    var a, b := t.data.Get(series), last.data.Get(series);
    DataOnlyGrows(t, after);
    IdIsKept(t, after);
    assert a <= b && a[|a| - 1] == sample;
    FileAtEnd(last, end, s.id.value, series);
    RestartRoundTrip(b, end, last.maxAge);
    if Fresh(sample, end, last.maxAge) {
      FreshIsStored(b, end, last.maxAge, sample);
    }
  }

  lemma {:induction false} IdIsKept(s: Store, events: seq<Event>)
    requires s.id.Some?
    ensures Run(s, events).id == s.id
  {
    if events != [] {
      IdIsKept(s, events[..|events| - 1]);
    }
  }

  lemma ReloadedArray(items: seq<Item>, end: int, maxAge: nat, now: int)
    ensures LoadedArray([], Some(Saved(items, end, maxAge)), now) == Stored(Culled(items, end, maxAge)) + [Marker(now)]
  {
    RestartRoundTrip(items, end, maxAge);
    LoadedArrayOf(Saved(items, end, maxAge), Stored(Culled(items, end, maxAge)), now);
  }

  lemma LoadedArrayOf(text: string, items: seq<Item>, now: int)
    requires Loaded(text) == items
    ensures LoadedArray([], Some(text), now) == items + [Marker(now)]
  {
    assert [] + items == items;
  }

  /** An object that gets its id on files schedules a save: the marker that comes last is no sign
      of low power. */
  lemma StartOnFiles(files: Disk, id: string, now: int, timer: nat)
    ensures var next := SetId(Init(files), Some(id), now, timer);
            next.data == LoadedData(NoData, FilesOf(files, id), now) && next.saveId == timer
  {
  }

  lemma SeriesIsLoaded(files: Disk, id: string, now: int, series: Series)
    ensures LoadedData(NoData, FilesOf(files, id), now).Get(series) == LoadedArray([], ReadFile(files, FileName(series, id)), now)
  {
  }

  /** Shutting down and starting again with the same id: each series comes back as it was, without the
      entries that are too old and with values to three decimals, and one marker follows. */
  lemma RestartKeepsHistory(s: Store, end: int, id: string, now: int, timer: nat, series: Series)
    requires s.id == Some(id)
    ensures var next := SetId(Init(Finalized(s, end).files), Some(id), now, timer);
            next.data.Get(series) == Stored(Culled(s.data.Get(series), end, s.maxAge)) + [Marker(now)]
  {
    var files := Finalized(s, end).files;
    FileAtEnd(s, end, id, series);
    StartOnFiles(files, id, now, timer);
    SeriesIsLoaded(files, id, now, series);
    ReloadedArray(s.data.Get(series), end, s.maxAge, now);
  }

  lemma StepKeepsOtherFiles(s: Store, e: Event, other: string)
    requires Step(s, e).id != Some(other)
    ensures FilesOf(Step(s, e).files, other) == FilesOf(s.files, other)
  {
  }

  /** The files of another id are not touched by any run, so an object with that id loads what it would
      have loaded before. */
  lemma {:induction false} RunKeepsOtherFiles(s: Store, events: seq<Event>, other: string)
    requires Run(s, events).id != Some(other)
    ensures FilesOf(Run(s, events).files, other) == FilesOf(s.files, other)
  {
    if events != [] {
      var n := |events| - 1;
      RunKeepsOtherFiles(s, events[..n], other);
      StepKeepsOtherFiles(Run(s, events[..n]), events[n], other);
    }
  }

  /** The object's own end does not touch them either. */
  lemma OtherIdLoadsItsOwn(files: Disk, events: seq<Event>, end: int, other: string, now: int, timer: nat)
    requires Run(Init(files), events).id != Some(other)
    ensures var left := Finalized(Run(Init(files), events), end).files;
            SetId(Init(left), Some(other), now, timer).data == SetId(Init(files), Some(other), now, timer).data
  {
    var s := Run(Init(files), events);
    RunKeepsOtherFiles(Init(files), events, other);
    StartOnFiles(Finalized(s, end).files, other, now, timer);
    StartOnFiles(files, other, now, timer);
  }

  // ----- What each operation does

  /** The power is low when the device discharges, and did so at the last charge, which was at most ten
      percent. */
  predicate AlmostEmpty(s: Store) {
    && s.state == Discharging && s.data.charge != []
    && s.data.charge[|s.data.charge| - 1].state == Discharging
    && s.data.charge[|s.data.charge| - 1].value.Real() <= 10.0
  }

  /** A request for a save, between two stores: at low power all is written at once, and else a timer will
      do it, a new one if none is pending. */
  predicate Requested(s: Store, t: Store, now: int, timer: nat) {
    && t.data == s.data && t.id == s.id && t.state == s.state && t.maxAge == s.maxAge
    && if AlmostEmpty(s)
       then t.saved == Some(Save(s.data, now, s.maxAge)) && t.saveId == s.saveId && t.timers == s.timers
       else
         && t.saved == s.saved && t.files == s.files
         && t.saveId == (if s.saveId > 0 then s.saveId else timer)
         && t.timers == (if s.saveId > 0 then s.timers else s.timers + {timer})
  }

  lemma SaveIsRequested(s: Store, now: int, timer: nat)
    ensures Requested(s, ScheduleSave(s, now, timer), now, timer) || s.id.None?
    ensures ScheduleSave(s, now, timer).data == s.data && ScheduleSave(s, now, timer).last == s.last
  {
  }

  lemma OneSeriesChanges<T>(before: Four<T>, series: Series, x: T)
    ensures before.With(series, x).Get(series) == x
    ensures forall other :: other != series ==> before.With(series, x).Get(other) == before.Get(other)
  {
  }

  /** A sample is recorded if the object has an id, the state is known, the value is not the one that was
      recorded last, and a time is not negative. Then it is the last one of its series, with the present
      time and state, no other series changes, and a save is requested. */
  lemma RecordExactly(s: Store, series: Series, value: Double, now: int, timer: nat)
    ensures var t := Step(s, EvRecord(series, value, now, timer));
            if s.id.None? || s.state == Unknown || value.Real() == s.last.Get(series).Real() ||
               (series in {TimeFull, TimeEmpty} && value.Real() < 0.0)
            then t == s
            else
              && t.data.Get(series) == s.data.Get(series) + [Item(now % UINT32, value, s.state)]
              && t.last.Get(series) == value
              && (forall other :: other != series ==> t.data.Get(other) == s.data.Get(other) && t.last.Get(other) == s.last.Get(other))
              && Requested(s.(data := t.data), t, now, timer)
  {
    if Accepts(s, series, value) {
      var data := s.data.With(series, s.data.Get(series) + [Sample(s, value, now)]);
      OneSeriesChanges(s.data, series, s.data.Get(series) + [Sample(s, value, now)]);
      OneSeriesChanges(s.last, series, value);
      SaveIsRequested(s.(data := data), now, timer);
    }
  }

  /** A value that was just recorded is not recorded again. */
  lemma RepeatIsRefused(s: Store, series: Series, value: Double, now: int, timer: nat, later: int, other: nat)
    requires s.id.Some? && s.state != Unknown
    ensures var t := Record(s, series, value, now, timer);
            value.Real() >= 0.0 || series in {Rate, Charge} ==> Record(t, series, value, later, other) == t
  {
  }

  /** An object gets its id once. Each series has what its own file gives, and then one sample in an unknown
      state; and a save is requested. */
  lemma IdIsSetExactly(s: Store, id: string, now: int, timer: nat, series: Series)
    ensures s.id.Some? ==> Step(s, EvSetId(Some(id), now, timer)) == s
    ensures var t := Step(s, EvSetId(Some(id), now, timer));
            s.id.None? ==>
              && t.id == Some(id) && Requested(s.(id := Some(id), data := t.data), t, now, timer)
              && t.data.Get(series) ==
                   s.data.Get(series)
                   + (if FileName(series, id) in s.files then Loaded(s.files[FileName(series, id)]) else [])
                   + [Item(now % UINT32, Double(false, 0.0), Unknown)]
  {
  }

  /** The timer and the end of the object write everything, and no timer is left. */
  lemma TimerAndEndSaveAll(s: Store, timer: nat, now: int)
    requires Safe(s)
    ensures Finalized(s, now).timers == {}
    ensures s.id.Some? ==> Finalized(s, now).saved == Some(Save(s.data, now, s.maxAge))
    ensures timer in s.timers ==>
              var t := Step(s, EvTimer(timer, now));
              t.saveId == 0 && t.timers == {} && t.saved == Some(Save(s.data, now, s.maxAge)) && t.data == s.data
  {
  }

  /** A new object records nothing before it has an id, and then a state: a state that is set before the id is
      not kept. */
  lemma StateComesAfterId(files: Disk, id: string, state: DeviceState, series: Series, value: Double, now: int, timer: nat)
    requires state != Unknown && value.Real() > 0.0
    ensures var s := Step(Step(Init(files), EvSetState(state)), EvSetId(Some(id), now, timer));
            && Step(s, EvRecord(series, value, now, timer)) == s
            && var t := Step(s, EvSetState(state));
               Step(t, EvRecord(series, value, now, timer)).data.Get(series) ==
                 s.data.Get(series) + [Item(now % UINT32, value, state)]
  {
    var s := Step(Step(Init(files), EvSetState(state)), EvSetId(Some(id), now, timer));
    RecordExactly(Step(s, EvSetState(state)), series, value, now, timer);
  }

  /** The names of the files, and how long samples are kept unless another age is set: a week. */
  lemma NamesAndAge(id: string, files: Disk)
    ensures FileName(Rate, id) == "history-rate-" + id + ".dat"
    ensures FileName(Charge, id) == "history-charge-" + id + ".dat"
    ensures FileName(TimeFull, id) == "history-time-full-" + id + ".dat"
    ensures FileName(TimeEmpty, id) == "history-time-empty-" + id + ".dat"
    ensures Init(files).maxAge == 604800
  {
    assert "history-" + ("rate" + ("-" + (id + ".dat"))) == "history-rate-" + id + ".dat";
    assert "history-" + ("charge" + ("-" + (id + ".dat"))) == "history-charge-" + id + ".dat";
    assert "history-" + ("time-full" + ("-" + (id + ".dat"))) == "history-time-full-" + id + ".dat";
    assert "history-" + ("time-empty" + ("-" + (id + ".dat"))) == "history-time-empty-" + id + ".dat";
  }
}
