/** What a configuration text says: every setting and every device of the loaded configuration against
    the entries of the text, with old-style entries, ranges and defaults. */
module ConfigMeaning {
  import opened Wrappers
  import opened JsonGrammar
  import opened ConfigJson
  import opened ConfigStore
  import opened ConfigOrder

  // ----- What one entry of an object says -----

  function At(o: Fields, key: string): Json {
    if key in o then o[key] else JNull
  }

  /** The integer under `key` if there is one in lo..hi, and else `fallback`. */
  predicate NumberIs(o: Fields, key: string, n: int, lo: int, hi: int, fallback: int) {
    match At(o, key)
    case JInt(m) => n == (if lo <= m <= hi then m else fallback)
    case _ => n == fallback
  }

  predicate FlagIs(o: Fields, key: string, b: bool, fallback: bool) {
    match At(o, key)
    case JBool(flag) => b == flag
    case _ => b == fallback
  }

  predicate TextIs(o: Fields, key: string, s: string) {
    match At(o, key)
    case JString(text) => s == text
    case _ => s == ""
  }

  // ----- Settings -----

  /** The stored profile; without one, Custom exactly if rate or bitrate are not the usual ones. */
  predicate ProfileIs(o: Fields, c: Config) {
    match At(o, "streamProfile")
    case JInt(0) => c.streamProfile == Balanced
    case JInt(1) => c.streamProfile == LowBandwidth
    case JInt(2) => c.streamProfile == Sharp
    case JInt(3) => c.streamProfile == Custom
    case _ => c.streamProfile == (if c.fps == 60 && c.bitrateMbps == 30 then Balanced else Custom)
  }

  /** The stored mode; without one, hidden exactly if the file says that no launcher is shown. */
  predicate ModeIs(o: Fields, c: Config) {
    && (c.showLauncher <==> c.launcherMode != Hidden)
    && match At(o, "launcherMode")
       case JInt(0) => c.launcherMode == Hidden
       case JInt(1) => c.launcherMode == Fullscreen
       case JInt(2) => c.launcherMode == Region
       case _ => c.launcherMode == (if At(o, "showLauncher") == JBool(false) then Hidden else Fullscreen)
  }

  /** Everything but the devices. Files without a version have the task bar routed unless they say no. */
  predicate SettingsAre(o: Fields, c: Config) {
    && c.version == 2
    && NumberIs(o, "port", c.port, 1, 65535, 9000)
    && FlagIs(o, "autoReconnect", c.autoReconnect, true)
    && NumberIs(o, "fps", c.fps, 30, 120, 60)
    && NumberIs(o, "bitrateMbps", c.bitrateMbps, 5, 100, 30)
    && ProfileIs(o, c)
    && FlagIs(o, "requirePrivateNetwork", c.requirePrivateNetwork, true)
    && ModeIs(o, c)
    && FlagIs(o, "darkTheme", c.darkTheme, false)
    && FlagIs(o, "taskbarRouting", c.taskbarRouting, !At(o, "version").JInt?)
    && TextIs(o, "preferredDeviceId", c.preferredDeviceId)
    && TextIs(o, "lastConnectionTransport", c.lastConnectionTransport)
    && TextIs(o, "lastWifiAddress", c.lastWifiAddress)
    && TextIs(o, "lastUsbTarget", c.lastUsbTarget)
  }

  lemma NumbersOf(o: Fields, c: Config)
    ensures c.port == PortOf(o) <==> NumberIs(o, "port", c.port, 1, 65535, 9000)
    ensures c.fps == FpsOf(o) <==> NumberIs(o, "fps", c.fps, 30, 120, 60)
    ensures c.bitrateMbps == BitrateOf(o) <==> NumberIs(o, "bitrateMbps", c.bitrateMbps, 5, 100, 30)
  {
  }

  lemma ProfileOfObject(o: Fields, c: Config)
    requires c.fps == FpsOf(o) && c.bitrateMbps == BitrateOf(o)
    ensures c.streamProfile == ProfileFrom(o) <==> ProfileIs(o, c)
  {
    hide FpsOf, BitrateOf;
  }

  lemma ModeOfObject(o: Fields, c: Config)
    ensures c.launcherMode == ModeFrom(o) && c.showLauncher == (ModeFrom(o) != Hidden) <==> ModeIs(o, c)
  {
  }

  lemma FlagOf(o: Fields, key: string, b: bool, fallback: bool)
    ensures b == BoolField(o, key, fallback) <==> FlagIs(o, key, b, fallback)
  {
  }

  lemma TextOf(o: Fields, key: string, s: string)
    ensures s == StringField(o, key) <==> TextIs(o, key, s)
  {
  }

  lemma SettingsOfObject(o: Fields, c: Config)
    requires c.devices == NormalDevices(o)
    ensures c == ObjectConfig(o) <==> SettingsAre(o, c)
  {
    NumbersOf(o, c);
    if c.fps == FpsOf(o) && c.bitrateMbps == BitrateOf(o) { ProfileOfObject(o, c); }
    ModeOfObject(o, c);
    FlagOf(o, "autoReconnect", c.autoReconnect, true);
    FlagOf(o, "requirePrivateNetwork", c.requirePrivateNetwork, true);
    FlagOf(o, "darkTheme", c.darkTheme, false);
    FlagOf(o, "taskbarRouting", c.taskbarRouting, !At(o, "version").JInt?);
    TextOf(o, "preferredDeviceId", c.preferredDeviceId);
    TextOf(o, "lastConnectionTransport", c.lastConnectionTransport);
    TextOf(o, "lastWifiAddress", c.lastWifiAddress);
    TextOf(o, "lastUsbTarget", c.lastUsbTarget);
    assert IntField(o, "version").None? <==> !At(o, "version").JInt?;
    hide NormalDevices, PortOf, FpsOf, BitrateOf, ProfileFrom, ModeFrom, BoolField, StringField, IntField;
    hide NumberIs, FlagIs, TextIs, ProfileIs, ModeIs, At;
  }

  // ----- Devices -----

  predicate IsSpaceOrTab(c: char) {
    c == ' ' || c == '\t'
  }

  predicate AllGaps(s: string) {
    forall i :: 0 <= i < |s| ==> IsSpaceOrTab(s[i])
  }

  predicate NoGap(s: string) {
    forall i :: 0 <= i < |s| ==> !IsSpaceOrTab(s[i])
  }

  /** An old entry: an address, and behind spaces and tabs a name, which is the address if it is missing. */
  predicate OldEntryIs(text: string, d: DeviceConfig, port: nat) {
    && d == DeviceConfig("", d.name, d.lastIpv4, "", port, "", d.priority, true, 0, "")
    && NoGap(d.lastIpv4) && d.lastIpv4 <= text
    && var rest := text[|d.lastIpv4|..];
       if AllGaps(rest) then d.name == d.lastIpv4
       else
         && |d.name| < |rest| && rest[|rest| - |d.name|..] == d.name
         && AllGaps(rest[..|rest| - |d.name|]) && d.name != "" && !IsSpaceOrTab(d.name[0])
  }

  /** An entry that is an object; `count` devices come before it. */
  predicate ObjectEntryIs(o: Fields, d: DeviceConfig, port: nat, count: nat) {
    && TextIs(o, "id", d.id) && TextIs(o, "name", d.name) && TextIs(o, "lastIpv4", d.lastIpv4)
    && TextIs(o, "bonjourHost", d.bonjourHost) && TextIs(o, "preferredTransport", d.preferredTransport)
    && TextIs(o, "macHint", d.macHint)
    && NumberIs(o, "port", d.port, 1, 65535, port)
    && NumberIs(o, "priority", d.priority, 0, 0xFFFF_FFFF, count % 0x1_0000_0000)
    && FlagIs(o, "autoConnect", d.autoConnect, true)
    && NumberIs(o, "lastSeen", d.lastSeen, INT64_MIN, INT64_MAX, 0)
    && (d.id != "" || d.lastIpv4 != "" || d.bonjourHost != "")
  }

  /** What an entry of the list contributes, if anything. */
  predicate EntryIs(item: Json, d: DeviceConfig, port: nat, count: nat) {
    match item
    case JString(text) => text != "" && OldEntryIs(text, d, port) && d.priority == count % 0x1_0000_0000
    case JObject(fields) => ObjectEntryIs(fields, d, port, count)
    case _ => false
  }

  lemma {:induction false} GapFromSplits(s: string, i: nat)
    requires i <= |s|
    ensures forall k :: i <= k < GapFrom(s, i) ==> !IsSpaceOrTab(s[k])
    ensures GapFrom(s, i) < |s| ==> IsSpaceOrTab(s[GapFrom(s, i)])
    decreases |s| - i
  {
    if i < |s| && !IsSpaceOrTab(s[i]) { GapFromSplits(s, i + 1); }
  }

  lemma {:induction false} WordFromSplits(s: string, i: nat)
    requires i <= |s|
    ensures forall k :: i <= k < WordFrom(s, i) ==> IsSpaceOrTab(s[k])
    ensures WordFrom(s, i) < |s| ==> !IsSpaceOrTab(s[WordFrom(s, i)])
    decreases |s| - i
  {
    if i < |s| && IsSpaceOrTab(s[i]) { WordFromSplits(s, i + 1); }
  }

  lemma OldEntryOf(text: string, port: nat, priority: nat)
    ensures OldEntryIs(text, LegacyDevice(text, port, priority), port)
  {
    var a := GapFrom(text, 0);
    var b := WordFrom(text, a);
    GapFromSplits(text, 0);
    WordFromSplits(text, a);
    hide GapFrom, WordFrom, IsSpaceOrTab, OldEntryIs;
    SplitIsEntry(text, a, b, LegacyDevice(text, port, priority), port);
  }

  lemma SplitIsEntry(text: string, a: nat, b: nat, d: DeviceConfig, port: nat)
    requires a <= b <= |text| && (a < |text| ==> a < b)
    requires d == DeviceConfig("", if text[b..] == "" then text[..a] else text[b..], text[..a], "", port, "", d.priority,
                               true, 0, "")
    requires forall k :: 0 <= k < a ==> !IsSpaceOrTab(text[k])
    requires forall k :: a <= k < b ==> IsSpaceOrTab(text[k])
    requires b < |text| ==> !IsSpaceOrTab(text[b])
    ensures OldEntryIs(text, d, port)
  {
    hide IsSpaceOrTab;
    var rest := text[a..];
    assert forall k :: 0 <= k < b - a ==> rest[k] == text[a + k];
    if b < |text| {
      assert rest[b - a] == text[b] && rest[b - a..] == text[b..];
      assert !AllGaps(rest);
    }
  }

  /** The address ends at the first gap. */
  lemma AddressEnd(text: string, d: DeviceConfig, port: nat)
    requires OldEntryIs(text, d, port)
    ensures var a := |d.lastIpv4|;
            && a <= |text| && d.lastIpv4 == text[..a] && (a < |text| ==> IsSpaceOrTab(text[a]))
            && forall k :: 0 <= k < a ==> !IsSpaceOrTab(text[k])
  {
    hide IsSpaceOrTab;
    var a := |d.lastIpv4|;
    var rest := text[a..];
    if a < |text| {
      assert text[a] == rest[0];
      if !AllGaps(rest) { assert rest[..|rest| - |d.name|][0] == rest[0]; }
    }
    assert forall k :: 0 <= k < a ==> text[k] == d.lastIpv4[k];
  }

  /** The name begins at the first character behind it that is no gap. */
  lemma NameStart(rest: string, n: string)
    requires |n| < |rest| && rest[|rest| - |n|..] == n && AllGaps(rest[..|rest| - |n|]) && n != "" && !IsSpaceOrTab(n[0])
    ensures var b := |rest| - |n|; !IsSpaceOrTab(rest[b]) && forall k :: 0 <= k < b ==> IsSpaceOrTab(rest[k])
  {
    hide IsSpaceOrTab;
    var b := |rest| - |n|;
    assert n[0] == rest[b];
    assert forall k :: 0 <= k < b ==> rest[..b][k] == rest[k];
  }

  /** Nothing else is meant by an old entry. */
  lemma OldEntryIsOne(text: string, d: DeviceConfig, e: DeviceConfig, port: nat)
    requires OldEntryIs(text, d, port) && OldEntryIs(text, e, port) && d.priority == e.priority
    ensures d == e
  {
    AddressEnd(text, d, port);
    AddressEnd(text, e, port);
    hide IsSpaceOrTab;
    assert |d.lastIpv4| == |e.lastIpv4|;
    var rest := text[|d.lastIpv4|..];
    if !AllGaps(rest) {
      NameStart(rest, d.name);
      NameStart(rest, e.name);
      assert |d.name| == |e.name|;
    }
  }

  lemma ObjectEntryOf(o: Fields, d: DeviceConfig, port: nat, count: nat)
    requires port <= 65535
    ensures ObjectEntryIs(o, d, port, count) <==> d == ObjectDevice(o, port, count) && HasEndpoint(d)
  {
    TextOf(o, "id", d.id);
    TextOf(o, "name", d.name);
    TextOf(o, "lastIpv4", d.lastIpv4);
    TextOf(o, "bonjourHost", d.bonjourHost);
    TextOf(o, "preferredTransport", d.preferredTransport);
    TextOf(o, "macHint", d.macHint);
    FlagOf(o, "autoConnect", d.autoConnect, true);
    assert NumberIs(o, "port", d.port, 1, 65535, port) <==> d.port == Nat(IntWithin(o, "port", 1, 65535, port));
    assert NumberIs(o, "priority", d.priority, 0, 0xFFFF_FFFF, count % UINT32) <==>
           d.priority == Nat(IntWithin(o, "priority", 0, UINT32 - 1, count % UINT32));
    assert NumberIs(o, "lastSeen", d.lastSeen, INT64_MIN, INT64_MAX, 0) <==>
           d.lastSeen == IntWithin(o, "lastSeen", INT64_MIN, INT64_MAX, 0);
    hide StringField, BoolField, IntWithin, TextIs, FlagIs, NumberIs, Nat;
  }

  lemma EntryOf(item: Json, d: DeviceConfig, port: nat, count: nat)
    requires port <= 65535
    ensures EntryIs(item, d, port, count) <==> ItemDevice(item, port, count) == Some(d)
  {
    hide LegacyDevice, OldEntryIs, ObjectEntryIs, ObjectDevice, HasEndpoint;
    match item
    case JString(text) =>
      var e := LegacyDevice(text, port, count % UINT32);
      OldEntryOf(text, port, count % UINT32);
      assert e.priority == count % UINT32 by { LegacyPriority(text, port, count % UINT32); }
      if OldEntryIs(text, d, port) && d.priority == count % UINT32 { OldEntryIsOne(text, d, e, port); }
    case JObject(fields) => ObjectEntryOf(fields, d, port, count);
    case _ =>
  }

  lemma LegacyPriority(text: string, port: nat, priority: nat)
    ensures LegacyDevice(text, port, priority).priority == priority
  {
  }

  // ----- The list of devices -----

  predicate HasText(o: Fields, key: string) {
    At(o, key).JString? && At(o, key).text != ""
  }

  /** Whether an entry counts at all: an old one that is not empty, or an object with an endpoint. */
  predicate Contributes(item: Json) {
    match item
    case JString(text) => text != ""
    case JObject(fields) => HasText(fields, "id") || HasText(fields, "lastIpv4") || HasText(fields, "bonjourHost")
    case _ => false
  }

  function Items(o: Fields): seq<Json> {
    if At(o, "devices").JArray? then At(o, "devices").items else []
  }

  /** The devices `ds` are what the entries at `at` say, and these are all that contribute. */
  predicate ListIs(items: seq<Json>, ds: seq<DeviceConfig>, at: seq<nat>, port: nat) {
    && |at| == |ds| && Ascending(at)
    && (forall k :: 0 <= k < |at| ==> at[k] < |items| && EntryIs(items[at[k]], ds[k], port, k))
    && (forall i :: 0 <= i < |items| ==> (i in at <==> Contributes(items[i])))
  }

  /** Without a device in the list, the single address of the oldest files. */
  predicate EntriesAre(o: Fields, ds: seq<DeviceConfig>, at: seq<nat>, port: nat) {
    if (exists i :: 0 <= i < |Items(o)| && Contributes(Items(o)[i])) || !HasText(o, "ip") then ListIs(Items(o), ds, at, port)
    else |ds| == 1 && OldEntryIs(At(o, "ip").text, ds[0], port) && ds[0].priority == 0
  }

  lemma ContributesIf(item: Json, port: nat)
    requires port <= 65535
    ensures Contributes(item) <==> IsEntry(item, port)
  {
  }

  lemma ListOf(items: seq<Json>, port: nat) returns (at: seq<nat>)
    requires port <= 65535
    ensures ListIs(items, Accepted(items, port), at, port)
  {
    hide Contributes, EntryIs, ItemDevice, Accepted, Ascending, IsEntry;
    var ds := Accepted(items, port);
    at := AcceptedAreEntries(items, port);
    forall i | 0 <= i < |items| ensures i in at <==> Contributes(items[i]) { ContributesIf(items[i], port); }
    forall k | 0 <= k < |at| ensures at[k] < |items| && EntryIs(items[at[k]], ds[k], port, k) {
      EntryOf(items[at[k]], ds[k], port, k);
    }
  }

  lemma EntriesOf(o: Fields) returns (at: seq<nat>)
    ensures EntriesAre(o, AllDevices(o), at, PortOf(o))
  {
    hide PortOf, Accepted;
    var port := PortOf(o);
    at := ListOf(Items(o), port);
    var ds := Accepted(Items(o), port);
    assert ListedDevices(o) == ds by { NothingAccepted(port); }
    SomeContribute(Items(o), ds, at, port);
    if HasText(o, "ip") { OldEntryOf(At(o, "ip").text, port, 0); LegacyPriority(At(o, "ip").text, port, 0); }
    hide LegacyDevice, OldEntryIs, Contributes, ListIs;
  }

  lemma NothingAccepted(port: nat)
    requires port <= 65535
    ensures Accepted([], port) == []
  {
  }

  lemma SomeContribute(items: seq<Json>, ds: seq<DeviceConfig>, at: seq<nat>, port: nat)
    requires ListIs(items, ds, at, port)
    ensures ds != [] <==> exists i :: 0 <= i < |items| && Contributes(items[i])
  {
    hide Contributes, EntryIs, Ascending;
    if ds != [] { assert at[0] in at; }
  }

  // ----- Which of them stay -----

  /** What makes two devices the same: the id, or, without one, the address and the port. */
  datatype Identity = Nobody | ById(id: string) | ByAddress(address: string, port: nat)

  function IdentityOf(d: DeviceConfig): Identity {
    if d.id != "" then ById(d.id) else if d.lastIpv4 != "" then ByAddress(d.lastIpv4, d.port) else Nobody
  }

  predicate Same(d: DeviceConfig, e: DeviceConfig) {
    IdentityOf(d) == IdentityOf(e) && IdentityOf(d) != Nobody
  }

  lemma DuplicateIsSame(d: DeviceConfig, e: DeviceConfig)
    ensures Duplicate(d, e) <==> Same(d, e)
  {
  }

  /** `a` comes before `b`: by priority, and among equal ones by position. */
  predicate Earlier(ds: seq<DeviceConfig>, a: nat, b: nat) {
    && a < |ds| && b < |ds|
    && (ds[a].priority < ds[b].priority || (ds[a].priority == ds[b].priority && a < b))
  }

  /** The devices `r` are those of `ds` at `from`, in that order and numbered by it: for each identity
      its first device, and every device without one. */
  predicate Chosen(from: seq<nat>, r: seq<DeviceConfig>, ds: seq<DeviceConfig>) {
    && |from| == |r|
    && (forall k :: 0 <= k < |from| ==> from[k] < |ds| && r[k] == ds[from[k]].(priority := k % 0x1_0000_0000))
    && (forall k, l :: 0 <= k < l < |from| ==> Earlier(ds, from[k], from[l]))
    && (forall i :: 0 <= i < |ds| ==> (i in from <==> IsFirst(ds, i)))
  }

  predicate IsFirst(ds: seq<DeviceConfig>, i: nat)
    requires i < |ds|
  {
    forall j :: 0 <= j < |ds| && Earlier(ds, j, i) ==> !Same(ds[i], ds[j])
  }

  lemma ChosenFrom(from: seq<nat>, r: seq<DeviceConfig>, ds: seq<DeviceConfig>)
    requires LoadedFrom(from, r, ds)
    ensures Chosen(from, r, ds)
  {
    forall i | 0 <= i < |ds| ensures i in from <==> IsFirst(ds, i) {
      FirstIsKept(from, r, ds, i);
    }
    hide Same, IsFirst, Overruled;
  }

  /** Kept and not the first is impossible, and the first of an identity is not overruled. */
  lemma FirstIsKept(from: seq<nat>, r: seq<DeviceConfig>, ds: seq<DeviceConfig>, i: nat)
    requires LoadedFrom(from, r, ds) && i < |ds|
    ensures i in from <==> IsFirst(ds, i)
  {
    forall j: nat | j < |ds| ensures Duplicate(ds[i], ds[j]) <==> Same(ds[i], ds[j]) { DuplicateIsSame(ds[i], ds[j]); }
    hide Duplicate, Same;
    if IsFirst(ds, i) {
      assert !Overruled(ds, from, i);
    }
    if j :| 0 <= j < |ds| && Earlier(ds, j, i) && Same(ds[i], ds[j]) {
      SomeoneOverrules(from, r, ds, i, j);
    }
  }

  /** If an earlier device is the same, it or one still earlier was kept. */
  lemma SomeoneOverrules(from: seq<nat>, r: seq<DeviceConfig>, ds: seq<DeviceConfig>, i: nat, j: nat)
    requires LoadedFrom(from, r, ds) && i < |ds| && j < |ds| && Earlier(ds, j, i) && Same(ds[i], ds[j])
    ensures Overruled(ds, from, i)
  {
    DuplicateIsSame(ds[i], ds[j]);
    if j in from {
      var k :| 0 <= k < |from| && from[k] == j;
    } else {
      assert Overruled(ds, from, j);
      var k :| 0 <= k < |from| && Before(ds, from[k], j) && Duplicate(ds[j], ds[from[k]]);
      DuplicateIsSame(ds[j], ds[from[k]]);
      DuplicateIsSame(ds[i], ds[from[k]]);
      assert Before(ds, from[k], i);
    }
  }

  // ----- The whole text -----

  /** What is loaded from any text that is an object: each setting and each device is what its entry
      says, or the default, and the devices are the first of each identity, in order. */
  lemma LoadedExactly(json: string, o: Fields) returns (ds: seq<DeviceConfig>, at: seq<nat>, from: seq<nat>)
    requires ReadAll(json) == Some(JObject(o))
    ensures var c := ParseConfig(json); SettingsAre(o, c) && EntriesAre(o, ds, at, c.port) && Chosen(from, c.devices, ds)
  {
    hide *;
    ds := AllDevices(o);
    at := EntriesOf(o);
    from := LoadedDevicesAreEntries(json, o);
    ChosenFrom(from, ParseConfig(json).devices, ds);
    ObjectLoads(json, o);
    SettingsOfObject(o, ParseConfig(json));
  }

  lemma ObjectLoads(json: string, o: Fields)
    requires ReadAll(json) == Some(JObject(o))
    ensures ParseConfig(json) == ObjectConfig(o) && ParseConfig(json).devices == NormalDevices(o)
    ensures ParseConfig(json).port == PortOf(o)
  {
    hide ReadAll, NormalDevices, PortOf;
  }

  /** The settings say it all: no other configuration with these devices agrees with them. */
  lemma SettingsDetermine(json: string, o: Fields, c: Config)
    requires ReadAll(json) == Some(JObject(o)) && SettingsAre(o, c) && c.devices == ParseConfig(json).devices
    ensures c == ParseConfig(json)
  {
    hide *;
    ObjectLoads(json, o);
    SettingsOfObject(o, c);
  }

  /** A text that is no object leaves the defaults. */
  lemma OtherTextsLoadDefaults(json: string)
    requires !(ReadAll(json).Some? && ReadAll(json).value.JObject?)
    ensures ParseConfig(json) ==
            Config(2, [], 9000, true, 60, 30, Balanced, true, true, Fullscreen, false, false, "", "", "", "")
  {
    hide ReadAll;
  }

  // ----- Old entries -----

  /** An address, a run of spaces and tabs, and a name, any of the last two empty. */
  predicate IsOldText(text: string, a: string, g: string, n: string) {
    text == a + g + n && NoGap(a) && AllGaps(g) && (n != "" ==> g != "" && !IsSpaceOrTab(n[0]))
  }

  lemma OldTextSplits(text: string, a: string, g: string, n: string, d: DeviceConfig, port: nat)
    requires IsOldText(text, a, g, n) && OldEntryIs(text, d, port)
    ensures d == DeviceConfig("", if n == "" then a else n, a, "", port, "", d.priority, true, 0, "")
  {
    var e := DeviceConfig("", if n == "" then a else n, a, "", port, "", d.priority, true, 0, "");
    hide IsSpaceOrTab;
    assert text == a + (g + n);
    assert text[|a|..] == g + n;
    if n == "" {
      assert g + n == g;
    } else {
      assert (g + n)[|g|] == n[0];
      assert (g + n)[|g|..] == n && (g + n)[..|g|] == g;
      assert !AllGaps(g + n);
    }
    assert OldEntryIs(text, e, port);
    OldEntryIsOne(text, d, e, port);
  }

  /** The single address of an old file becomes the one device. */
  lemma OldAddressLoads(json: string, o: Fields, a: string, g: string, n: string)
    requires ReadAll(json) == Some(JObject(o)) && At(o, "ip") == JString(a + g + n) && a + g + n != ""
    requires forall i :: 0 <= i < |Items(o)| ==> !Contributes(Items(o)[i])
    requires IsOldText(a + g + n, a, g, n)
    ensures var c := ParseConfig(json);
            c.devices == [DeviceConfig("", if n == "" then a else n, a, "", c.port, "", 0, true, 0, "")]
  {
    hide ParseConfig, ReadAll, SettingsAre, Contributes, IsOldText;
    var ds, at, from := LoadedExactly(json, o);
    OldTextSplits(a + g + n, a, g, n, ds[0], ParseConfig(json).port);
    hide OldEntryIs;
    assert IsFirst(ds, 0);
    assert 0 in from;
    OnlyOne(from, ParseConfig(json).devices, ds);
  }

  lemma OnlyOne(from: seq<nat>, r: seq<DeviceConfig>, ds: seq<DeviceConfig>)
    requires Chosen(from, r, ds) && |ds| == 1 && 0 in from && ds[0].priority == 0
    ensures r == ds
  {
    assert |from| > 0;
    if |from| > 1 { EarlierDiffers(ds, from[0], from[1]); }
  }

  lemma EarlierDiffers(ds: seq<DeviceConfig>, a: nat, b: nat)
    ensures Earlier(ds, a, b) ==> a != b
  {
  }

  /** An old entry in the list: its address is among the loaded ones, whatever else the list holds. */
  lemma OldEntryLoads(json: string, o: Fields, i: nat, a: string, g: string, n: string)
    requires ReadAll(json) == Some(JObject(o)) && i < |Items(o)| && Items(o)[i] == JString(a + g + n) && a != ""
    requires IsOldText(a + g + n, a, g, n)
    ensures var c := ParseConfig(json);
            exists k :: 0 <= k < |c.devices| && IdentityOf(c.devices[k]) == ByAddress(a, c.port)
  {
    hide ParseConfig, ReadAll, SettingsAre, IsOldText;
    var c := ParseConfig(json);
    var ds, at, from := LoadedExactly(json, o);
    assert Contributes(Items(o)[i]);
    assert i in at;
    var e :| 0 <= e < |at| && at[e] == i;
    OldTextSplits(a + g + n, a, g, n, ds[e], c.port);
    hide OldEntryIs, Contributes, EntriesAre, ListIs;
    var f := FirstOfIdentity(ds, e);
    assert f in from;
    var k :| 0 <= k < |from| && from[k] == f;
    assert IdentityOf(c.devices[k]) == IdentityOf(ds[f]);
  }

  lemma {:induction false} FirstOfIdentity(ds: seq<DeviceConfig>, e: nat) returns (f: nat)
    requires e < |ds| && IdentityOf(ds[e]) != Nobody
    ensures f < |ds| && IsFirst(ds, f) && IdentityOf(ds[f]) == IdentityOf(ds[e])
    decreases ds[e].priority, e
  {
    if j: nat :| j < |ds| && Earlier(ds, j, e) && Same(ds[e], ds[j]) {
      f := FirstOfIdentity(ds, j);
    } else {
      f := e;
    }
  }
}
