/** The persisted settings of src/app/Config.cpp: how a JSON object becomes a configuration, with
    migration of old entries, stable ordering and removal of duplicates. */
module ConfigStore {
  import opened Wrappers
  import opened JsonGrammar
  import opened ConfigJson

  datatype StreamProfile = Balanced | LowBandwidth | Sharp | Custom
  datatype LauncherMode = Hidden | Fullscreen | Region

  function ProfileCode(p: StreamProfile): nat {
    match p case Balanced => 0 case LowBandwidth => 1 case Sharp => 2 case Custom => 3
  }

  function ProfileOf(code: int): Option<StreamProfile> {
    if code == 0 then Some(Balanced) else if code == 1 then Some(LowBandwidth)
    else if code == 2 then Some(Sharp) else if code == 3 then Some(Custom) else None
  }

  function ModeCode(m: LauncherMode): nat {
    match m case Hidden => 0 case Fullscreen => 1 case Region => 2
  }

  function ModeOf(code: int): Option<LauncherMode> {
    if code == 0 then Some(Hidden) else if code == 1 then Some(Fullscreen)
    else if code == 2 then Some(Region) else None
  }

  const UINT32 := 0x1_0000_0000

  datatype DeviceConfig = DeviceConfig(
    id: string, name: string, lastIpv4: string, bonjourHost: string, port: nat, preferredTransport: string,
    priority: nat, autoConnect: bool, lastSeen: int, macHint: string)

  datatype Config = Config(
    version: nat, devices: seq<DeviceConfig>, port: nat, autoReconnect: bool, fps: nat, bitrateMbps: nat,
    streamProfile: StreamProfile, requirePrivateNetwork: bool, showLauncher: bool, launcherMode: LauncherMode,
    darkTheme: bool, taskbarRouting: bool, preferredDeviceId: string, lastConnectionTransport: string,
    lastWifiAddress: string, lastUsbTarget: string)

  const CURRENT_VERSION := 2

  function DefaultConfig(): Config {
    Config(CURRENT_VERSION, [], 9000, true, 60, 30, Balanced, true, true, Fullscreen, false, false, "", "", "", "")
  }

  // ----- Field access -----

  type Fields = map<string, Json>

  function StringField(o: Fields, key: string): string {
    if key in o && o[key].JString? then o[key].text else ""
  }

  function BoolField(o: Fields, key: string, fallback: bool): bool {
    if key in o && o[key].JBool? then o[key].flag else fallback
  }

  predicate HasBool(o: Fields, key: string) {
    key in o && o[key].JBool?
  }

  function IntField(o: Fields, key: string): Option<int> {
    if key in o && o[key].JInt? then Some(o[key].number) else None
  }

  /** The integer when it is there and within lo..hi. */
  function IntWithin(o: Fields, key: string, lo: int, hi: int, fallback: int): (r: int)
    ensures lo <= fallback <= hi ==> lo <= r <= hi
  {
    match IntField(o, key)
    case Some(n) => if lo <= n <= hi then n else fallback
    case None => fallback
  }

  // ----- One device entry -----

  predicate IsGap(c: char) {
    c == ' ' || c == '\t'
  }

  /** find_first_of(" \t") from `i`, or |s|. */
  function GapFrom(s: string, i: nat): (r: nat)
    requires i <= |s|
    ensures i <= r <= |s|
    decreases |s| - i
  {
    if i < |s| && !IsGap(s[i]) then GapFrom(s, i + 1) else i
  }

  /** find_first_not_of(" \t") from `i`, or |s|. */
  function WordFrom(s: string, i: nat): (r: nat)
    requires i <= |s|
    ensures i <= r <= |s|
    decreases |s| - i
  {
    if i < |s| && IsGap(s[i]) then WordFrom(s, i + 1) else i
  }

  function LegacyDevice(value: string, defaultPort: nat, priority: nat): DeviceConfig {
    var separator := GapFrom(value, 0);
    var address := value[..separator];
    var rest := value[WordFrom(value, separator)..];
    DeviceConfig("", if rest == "" then address else rest, address, "", defaultPort, "", priority, true, 0, "")
  }

  function ObjectDevice(o: Fields, defaultPort: nat, count: nat): DeviceConfig
    requires defaultPort <= 65535
  {
    DeviceConfig(
      StringField(o, "id"), StringField(o, "name"), StringField(o, "lastIpv4"), StringField(o, "bonjourHost"),
      Nat(IntWithin(o, "port", 1, 65535, defaultPort)), StringField(o, "preferredTransport"),
      Nat(IntWithin(o, "priority", 0, UINT32 - 1, count % UINT32)), BoolField(o, "autoConnect", true),
      IntWithin(o, "lastSeen", INT64_MIN, INT64_MAX, 0), StringField(o, "macHint"))
  }

  function Nat(n: int): nat {
    if n < 0 then 0 else n
  }

  predicate HasEndpoint(d: DeviceConfig) {
    d.id != "" || d.lastIpv4 != "" || d.bonjourHost != ""
  }

  /** What an entry of the device list contributes when `count` devices are already accepted. */
  function ItemDevice(item: Json, port: nat, count: nat): Option<DeviceConfig>
    requires port <= 65535
  {
    match item
    case JString(text) => if text == "" then None else Some(LegacyDevice(text, port, count % UINT32))
    case JObject(fields) =>
      var d := ObjectDevice(fields, port, count);
      if HasEndpoint(d) then Some(d) else None
    case _ => None
  }

  function Accepted(items: seq<Json>, port: nat): seq<DeviceConfig>
    requires port <= 65535
  {
    if items == [] then []
    else
      var before := Accepted(items[..|items| - 1], port);
      match ItemDevice(items[|items| - 1], port, |before|)
      case Some(d) => before + [d]
      case None => before
  }

  // ----- Ordering -----

  predicate Sorted(ds: seq<DeviceConfig>) {
    forall i, j :: 0 <= i < j < |ds| ==> ds[i].priority <= ds[j].priority
  }

  function WithPriority(ds: seq<DeviceConfig>, p: nat): seq<DeviceConfig> {
    if ds == [] then []
    else if ds[0].priority == p then [ds[0]] + WithPriority(ds[1..], p)
    else WithPriority(ds[1..], p)
  }

  function Insert(d: DeviceConfig, ds: seq<DeviceConfig>): seq<DeviceConfig> {
    if ds == [] || d.priority <= ds[0].priority then [d] + ds else [ds[0]] + Insert(d, ds[1..])
  }

  /** std::stable_sort by priority; SortIsStable says what the library promises of it. */
  function StableSort(ds: seq<DeviceConfig>): seq<DeviceConfig> {
    if ds == [] then [] else Insert(ds[0], StableSort(ds[1..]))
  }

  lemma {:induction false} InsertKeepsMembers(d: DeviceConfig, ds: seq<DeviceConfig>)
    ensures |Insert(d, ds)| == |ds| + 1
    ensures forall e :: e in Insert(d, ds) <==> e == d || e in ds
    decreases |ds|
  {
    if !(ds == [] || d.priority <= ds[0].priority) {
      InsertKeepsMembers(d, ds[1..]);
      assert ds == [ds[0]] + ds[1..];
    }
  }

  lemma {:induction false} InsertKeepsSorted(d: DeviceConfig, ds: seq<DeviceConfig>)
    requires Sorted(ds)
    ensures Sorted(Insert(d, ds))
    decreases |ds|
  {
    if !(ds == [] || d.priority <= ds[0].priority) {
      var rest := Insert(d, ds[1..]);
      InsertKeepsSorted(d, ds[1..]);
      InsertKeepsMembers(d, ds[1..]);
      forall i | 0 <= i < |rest| ensures ds[0].priority <= rest[i].priority {
        assert rest[i] in rest;
      }
    }
  }

  lemma {:induction false} InsertKeepsOrder(d: DeviceConfig, ds: seq<DeviceConfig>, p: nat)
    requires Sorted(ds)
    ensures WithPriority(Insert(d, ds), p) == WithPriority([d] + ds, p)
    decreases |ds|
  {
    if !(ds == [] || d.priority <= ds[0].priority) {
      var rest := Insert(d, ds[1..]);
      InsertKeepsOrder(d, ds[1..], p);
      assert ([ds[0]] + rest)[1..] == rest;
      assert ([d] + ds)[1..] == ds;
      assert ([d] + ds[1..])[1..] == ds[1..];
    }
  }

  /** Sorted, nothing lost or added, and equal priorities stay in their order: the three facts
      determine the result. */
  lemma {:induction false} SortIsStable(ds: seq<DeviceConfig>)
    ensures Sorted(StableSort(ds)) && |StableSort(ds)| == |ds|
    ensures forall e :: e in StableSort(ds) <==> e in ds
    ensures forall p :: WithPriority(StableSort(ds), p) == WithPriority(ds, p)
    decreases |ds|
  {
    if ds != [] {
      var rest := StableSort(ds[1..]);
      SortIsStable(ds[1..]);
      InsertKeepsMembers(ds[0], rest);
      InsertKeepsSorted(ds[0], rest);
      assert ([ds[0]] + rest)[1..] == rest;
      assert ds == [ds[0]] + ds[1..];
      forall p ensures WithPriority(StableSort(ds), p) == WithPriority(ds, p) {
        InsertKeepsOrder(ds[0], rest, p);
      }
    }
  }

  lemma {:induction false} SortedStays(ds: seq<DeviceConfig>)
    requires Sorted(ds)
    ensures StableSort(ds) == ds
    decreases |ds|
  {
    if ds != [] {
      SortedStays(ds[1..]);
      assert ds == [ds[0]] + ds[1..];
    }
  }

  // ----- Duplicates -----

  predicate Duplicate(d: DeviceConfig, existing: DeviceConfig) {
    (d.id != "" && d.id == existing.id) ||
    (d.id == "" && existing.id == "" && d.lastIpv4 != "" && d.lastIpv4 == existing.lastIpv4 && d.port == existing.port)
  }

  predicate DuplicatesAny(d: DeviceConfig, existing: seq<DeviceConfig>) {
    exists i :: 0 <= i < |existing| && Duplicate(d, existing[i])
  }

  predicate Distinct(ds: seq<DeviceConfig>) {
    forall i, j :: 0 <= i < j < |ds| ==> !Duplicate(ds[j], ds[i])
  }

  function Deduplicated(ds: seq<DeviceConfig>): seq<DeviceConfig> {
    if ds == [] then []
    else
      var kept := Deduplicated(ds[..|ds| - 1]);
      var d := ds[|ds| - 1];
      if DuplicatesAny(d, kept) then kept else kept + [d]
  }

  /** Positions `at` in `ds` of the devices `kept`: increasing, so their order is the order of `ds`. */
  ghost predicate Picks(at: seq<nat>, kept: seq<DeviceConfig>, ds: seq<DeviceConfig>) {
    && |at| == |kept|
    && (forall k :: 0 <= k < |at| ==> at[k] < |ds| && ds[at[k]] == kept[k])
    && (forall k, l :: 0 <= k < l < |at| ==> at[k] < at[l])
  }

  /** No two kept devices are duplicates, the kept ones stand in their old order, and whatever was
      dropped duplicates a kept one. */
  lemma {:induction false} DeduplicationKeeps(ds: seq<DeviceConfig>) returns (at: seq<nat>)
    ensures Distinct(Deduplicated(ds))
    ensures Picks(at, Deduplicated(ds), ds)
    ensures forall d :: d in ds ==> d in Deduplicated(ds) || DuplicatesAny(d, Deduplicated(ds))
    decreases |ds|
  {
    if ds == [] {
      at := [];
    } else {
      var n := |ds| - 1;
      at := DeduplicationKeeps(ds[..n]);
      var kept := Deduplicated(ds[..n]);
      assert ds == ds[..n] + [ds[n]];
      assert Picks(at, kept, ds);
      if !DuplicatesAny(ds[n], kept) {
        at := at + [n];
        DuplicatesGrow(ds[..n], kept, ds[n]);
      }
    }
  }

  lemma DuplicatesGrow(ds: seq<DeviceConfig>, kept: seq<DeviceConfig>, d: DeviceConfig)
    requires forall e :: e in ds ==> e in kept || DuplicatesAny(e, kept)
    ensures forall e :: e in ds ==> e in kept + [d] || DuplicatesAny(e, kept + [d])
  {
    forall e | e in ds ensures e in kept + [d] || DuplicatesAny(e, kept + [d]) {
      if e !in kept {
        var i :| 0 <= i < |kept| && Duplicate(e, kept[i]);
        assert Duplicate(e, (kept + [d])[i]);
      }
    }
  }

  lemma {:induction false} DistinctStays(ds: seq<DeviceConfig>)
    requires Distinct(ds)
    ensures Deduplicated(ds) == ds
    decreases |ds|
  {
    if ds != [] {
      DistinctStays(ds[..|ds| - 1]);
      assert ds == ds[..|ds| - 1] + [ds[|ds| - 1]];
    }
  }

  function Renumbered(ds: seq<DeviceConfig>): (r: seq<DeviceConfig>)
    ensures |r| == |ds|
    ensures forall i :: 0 <= i < |ds| ==> r[i] == ds[i].(priority := i % UINT32)
  {
    seq(|ds|, i requires 0 <= i < |ds| => ds[i].(priority := i % UINT32))
  }

  // ----- The whole object -----

  function PortOf(o: Fields): (r: nat)
    ensures 1 <= r <= 65535
  {
    IntWithin(o, "port", 1, 65535, 9000)
  }

  function ListedDevices(o: Fields): seq<DeviceConfig> {
    if "devices" in o && o["devices"].JArray? then Accepted(o["devices"].items, PortOf(o)) else []
  }

  function AllDevices(o: Fields): seq<DeviceConfig> {
    var listed := ListedDevices(o);
    var ip := StringField(o, "ip");
    if listed == [] && ip != "" then [LegacyDevice(ip, PortOf(o), 0)] else listed
  }

  function NormalDevices(o: Fields): seq<DeviceConfig> {
    Renumbered(Deduplicated(StableSort(AllDevices(o))))
  }

  function FpsOf(o: Fields): (r: nat)
    ensures 30 <= r <= 120
  {
    IntWithin(o, "fps", 30, 120, 60)
  }

  function BitrateOf(o: Fields): (r: nat)
    ensures 5 <= r <= 100
  {
    IntWithin(o, "bitrateMbps", 5, 100, 30)
  }

  function ProfileFrom(o: Fields): StreamProfile {
    match IntField(o, "streamProfile")
    case Some(n) => (match ProfileOf(n) case Some(p) => p case None => ImpliedProfile(o))
    case None => ImpliedProfile(o)
  }

  function ImpliedProfile(o: Fields): StreamProfile {
    if FpsOf(o) != 60 || BitrateOf(o) != 30 then Custom else Balanced
  }

  function ModeFrom(o: Fields): LauncherMode {
    match IntField(o, "launcherMode")
    case Some(n) => (match ModeOf(n) case Some(m) => m case None => ImpliedMode(o))
    case None => ImpliedMode(o)
  }

  function ImpliedMode(o: Fields): LauncherMode {
    if BoolField(o, "showLauncher", true) then Fullscreen else Hidden
  }

  function ObjectConfig(o: Fields): Config {
    Config(
      CURRENT_VERSION, NormalDevices(o), PortOf(o), BoolField(o, "autoReconnect", true), FpsOf(o), BitrateOf(o),
      ProfileFrom(o), BoolField(o, "requirePrivateNetwork", true), ModeFrom(o) != Hidden, ModeFrom(o),
      BoolField(o, "darkTheme", false), BoolField(o, "taskbarRouting", IntField(o, "version").None?),
      StringField(o, "preferredDeviceId"), StringField(o, "lastConnectionTransport"),
      StringField(o, "lastWifiAddress"), StringField(o, "lastUsbTarget"))
  }

  function TextConfig(json: string): Option<Config> {
    match ReadAll(json)
    case Some(JObject(fields)) => Some(ObjectConfig(fields))
    case _ => None
  }

  /** Config::Parse: the defaults when the text is no JSON object. */
  function ParseConfig(json: string): Config {
    match TextConfig(json) case Some(c) => c case None => DefaultConfig()
  }

  // ----- The loops of the program -----

  method CollectDevices(items: seq<Json>, port: nat) returns (devices: seq<DeviceConfig>)
    requires port <= 65535
    ensures devices == Accepted(items, port)
  {
    devices := [];
    var i := 0;
    while i < |items|
      invariant 0 <= i <= |items|
      invariant devices == Accepted(items[..i], port)
    {
      assert items[..i + 1][..i] == items[..i];
      var item := items[i];
      if item.JString? {
        if item.text != "" {
          devices := devices + [LegacyDevice(item.text, port, |devices| % UINT32)];
        }
      } else if item.JObject? {
        var device := ObjectDevice(item.fields, port, |devices|);
        if HasEndpoint(device) {
          devices := devices + [device];
        }
      }
      i := i + 1;
    }
    assert items[..i] == items;
  }

  method RemoveDuplicates(devices: seq<DeviceConfig>) returns (unique: seq<DeviceConfig>)
    ensures unique == Deduplicated(devices)
  {
    unique := [];
    var i := 0;
    while i < |devices|
      invariant 0 <= i <= |devices|
      invariant unique == Deduplicated(devices[..i])
    {
      assert devices[..i + 1][..i] == devices[..i];
      var duplicate := false;
      var k := 0;
      while k < |unique| && !duplicate
        invariant 0 <= k <= |unique|
        invariant duplicate ==> DuplicatesAny(devices[i], unique)
        invariant !duplicate ==> forall l :: 0 <= l < k ==> !Duplicate(devices[i], unique[l])
      {
        duplicate := Duplicate(devices[i], unique[k]);
        k := k + 1;
      }
      if !duplicate {
        unique := unique + [devices[i]];
      }
      i := i + 1;
    }
    assert devices[..i] == devices;
  }

  method NumberDevices(devices: seq<DeviceConfig>) returns (r: seq<DeviceConfig>)
    ensures r == Renumbered(devices)
  {
    r := devices;
    var i := 0;
    while i < |r|
      invariant 0 <= i <= |r| == |devices|
      invariant forall k :: 0 <= k < i ==> r[k] == devices[k].(priority := k % UINT32)
      invariant forall k :: i <= k < |r| ==> r[k] == devices[k]
    {
      r := r[i := r[i].(priority := i % UINT32)];
      i := i + 1;
    }
  }

  method ReadDevices(o: Fields) returns (devices: seq<DeviceConfig>)
    ensures devices == NormalDevices(o)
  {
    var port := PortOf(o);
    devices := [];
    if "devices" in o && o["devices"].JArray? {
      devices := CollectDevices(o["devices"].items, port);
    }
    if devices == [] {
      var ip := StringField(o, "ip");
      if ip != "" {
        devices := [LegacyDevice(ip, port, 0)];
      }
    }
    devices := StableSort(devices);
    devices := RemoveDuplicates(devices);
    devices := NumberDevices(devices);
  }

  method ReadProfile(o: Fields, fps: nat, bitrateMbps: nat, before: StreamProfile) returns (p: StreamProfile)
    requires fps == FpsOf(o) && bitrateMbps == BitrateOf(o) && before == Balanced
    ensures p == ProfileFrom(o)
  {
    p := before;
    var code := IntField(o, "streamProfile");
    if code.Some? && 0 <= code.value <= ProfileCode(Custom) {
      p := ProfileOf(code.value).value;
    } else if fps != 60 || bitrateMbps != 30 {
      p := Custom;
    }
  }

  method ReadMode(o: Fields, showLauncher: bool) returns (m: LauncherMode)
    requires showLauncher == BoolField(o, "showLauncher", true)
    ensures m == ModeFrom(o)
  {
    var code := IntField(o, "launcherMode");
    if code.Some? && 0 <= code.value <= ModeCode(Region) {
      m := ModeOf(code.value).value;
    } else {
      m := if showLauncher then Fullscreen else Hidden;
    }
  }

  /** The settings are assigned one after the other, later ones looking at earlier ones. */
  method ReadSettings(o: Fields) returns (parsed: Config)
    ensures parsed == ObjectConfig(o)
  {
    hide NormalDevices, PortOf, FpsOf, BitrateOf, ProfileFrom, ModeFrom, StringField, IntField;
    parsed := DefaultConfig();
    var hasVersion := IntField(o, "version").Some?;
    var devices := ReadDevices(o);
    var routing := BoolField(o, "taskbarRouting", parsed.taskbarRouting);
    if !HasBool(o, "taskbarRouting") && !hasVersion {
      routing := true;
    }
    assert routing == BoolField(o, "taskbarRouting", IntField(o, "version").None?);
    parsed := parsed.(port := PortOf(o), devices := devices);
    parsed := parsed.(autoReconnect := BoolField(o, "autoReconnect", parsed.autoReconnect));
    parsed := parsed.(fps := FpsOf(o), bitrateMbps := BitrateOf(o));
    var profile := ReadProfile(o, parsed.fps, parsed.bitrateMbps, parsed.streamProfile);
    parsed := parsed.(streamProfile := profile);
    parsed := parsed.(requirePrivateNetwork := BoolField(o, "requirePrivateNetwork", parsed.requirePrivateNetwork));
    parsed := parsed.(showLauncher := BoolField(o, "showLauncher", parsed.showLauncher));
    var mode := ReadMode(o, parsed.showLauncher);
    parsed := parsed.(launcherMode := mode, showLauncher := mode != Hidden);
    parsed := parsed.(darkTheme := BoolField(o, "darkTheme", parsed.darkTheme), taskbarRouting := routing);
    parsed := parsed.(preferredDeviceId := StringField(o, "preferredDeviceId"));
    parsed := parsed.(lastConnectionTransport := StringField(o, "lastConnectionTransport"));
    parsed := parsed.(lastWifiAddress := StringField(o, "lastWifiAddress"));
    parsed := parsed.(lastUsbTarget := StringField(o, "lastUsbTarget"));
  }

  method TryParseConfig(json: string) returns (r: Option<Config>)
    ensures r == TextConfig(json)
  {
    var parser := new JsonParser(json);
    var root := parser.Parse();
    if root.None? || !root.value.JObject? {
      return None;
    }
    var parsed := ReadSettings(root.value.fields);
    return Some(parsed);
  }
}
