/** Saving and loading again, src/app/Config.cpp: exactly which configurations survive, and that
    loading always yields a normal form. */
module ConfigRoundTrip {
  import opened Wrappers
  import opened JsonGrammar
  import opened FieldScanner
  import opened Decimals
  import opened ConfigJson
  import opened ConfigReading
  import opened ConfigStore
  import opened ConfigDocument

  /** What Serialize writes. */
  function ConfigText(c: Config): string {
    "" + Text(RootTree(c)) + "\n"
  }

  // ----- Rows as maps -----

  predicate PlainRow(row: Row) {
    IsPlainBody(row.name) && Readable(row.value)
  }

  predicate PlainRows(rows: seq<Row>) {
    forall i :: 0 <= i < |rows| ==> PlainRow(rows[i])
  }

  predicate DistinctNames(rows: seq<Row>) {
    forall i, j :: 0 <= i < j < |rows| ==> rows[i].name != rows[j].name
  }

  predicate BlankLayout(l: Layout) {
    IsSpaces(l.before) && IsSpaces(l.gap) && IsSpaces(l.last)
  }

  lemma {:induction false} PlainDecode(s: string)
    requires IsPlainBody(s)
    ensures IsBody(s) && Decode(s) == s
    decreases |s|
  {
    if s != [] {
      PlainDecode(s[1..]);
      assert s == [s[0]] + s[1..];
    }
  }

  lemma {:induction false} RowsReadable(rows: seq<Row>, l: Layout)
    requires PlainRows(rows) && BlankLayout(l)
    ensures ReadableMembers(RowMembers(rows, l))
    decreases |rows|
  {
    if rows != [] {
      RowsReadable(rows[1..], l);
      assert PlainRow(rows[0]);
      PlainDecode(rows[0].name);
    }
  }

  /** Members not named do not change; the named one is set, later names being different. */
  lemma {:induction false} OtherNameKept(rows: seq<Row>, l: Layout, fields: map<string, Json>, key: string)
    requires PlainRows(rows) && BlankLayout(l) && ReadableMembers(RowMembers(rows, l))
    requires forall i :: 0 <= i < |rows| ==> rows[i].name != key
    ensures var m := MembersMeaning(RowMembers(rows, l), fields);
            (key in m <==> key in fields) && (key in fields ==> m[key] == fields[key])
    decreases |rows|
  {
    if rows != [] {
      assert PlainRow(rows[0]);
      PlainDecode(rows[0].name);
      OtherNameKept(rows[1..], l, fields[rows[0].name := Meaning(rows[0].value)], key);
    }
  }

  lemma {:induction false} RowFound(rows: seq<Row>, l: Layout, fields: map<string, Json>, i: nat)
    requires PlainRows(rows) && BlankLayout(l) && ReadableMembers(RowMembers(rows, l))
    requires DistinctNames(rows) && i < |rows|
    ensures PlainRow(rows[i])
    ensures var m := MembersMeaning(RowMembers(rows, l), fields);
            rows[i].name in m && m[rows[i].name] == Meaning(rows[i].value)
    decreases i
  {
    assert PlainRow(rows[0]) && PlainRow(rows[i]);
    PlainDecode(rows[0].name);
    var fields' := fields[rows[0].name := Meaning(rows[0].value)];
    if i == 0 {
      OtherNameKept(rows[1..], l, fields', rows[0].name);
    } else {
      RowFound(rows[1..], l, fields', i - 1);
    }
  }

  /** The map `m` holds what the rows say. */
  ghost predicate Holds(m: map<string, Json>, rows: seq<Row>)
    requires PlainRows(rows)
  {
    forall i :: 0 <= i < |rows| ==> PlainRow(rows[i]) && rows[i].name in m && m[rows[i].name] == Meaning(rows[i].value)
  }

  lemma RowsHold(rows: seq<Row>, l: Layout)
    requires PlainRows(rows) && DistinctNames(rows) && BlankLayout(l)
    ensures ReadableMembers(RowMembers(rows, l))
    ensures Holds(MembersMeaning(RowMembers(rows, l), map[]), rows)
  {
    RowsReadable(rows, l);
    forall i | 0 <= i < |rows|
      ensures var m := MembersMeaning(RowMembers(rows, l), map[]);
              PlainRow(rows[i]) && rows[i].name in m && m[rows[i].name] == Meaning(rows[i].value)
    {
      RowFound(rows, l, map[], i);
    }
  }

  // ----- Values -----

  lemma TextMeaning(s: string)
    ensures Readable(TextValue(s)) && Meaning(TextValue(s)) == JString(s)
  {
    EscapeUndone(s);
  }

  lemma NumberMeaning(n: int)
    requires INT64_MIN <= n <= INT64_MAX
    ensures Readable(NumberValue(n)) && Meaning(NumberValue(n)) == JInt(n)
  {
    DecimalReadsBack(if n < 0 then -n else n);
  }

  // ----- One device -----

  /** The ranges of the C++ field types. */
  predicate DeviceInTypes(d: DeviceConfig) {
    d.port <= 65535 && d.priority < UINT32 && INT64_MIN <= d.lastSeen <= INT64_MAX
  }

  lemma DeviceRowsPlain(d: DeviceConfig, i: nat)
    requires DeviceInTypes(d) && i < UINT32
    ensures PlainRows(DeviceRows(d, i)) && DistinctNames(DeviceRows(d, i))
  {
    hide *;
    var r := DeviceRows(d, i);
    DeviceRowsAre(d, i);
    DeviceNames(r);
    DeviceValuesReadable(d, i, r);
    RowsPlain(r);
  }

  lemma RowsPlain(rows: seq<Row>)
    requires forall i :: 0 <= i < |rows| ==> IsPlainBody(rows[i].name) && Readable(rows[i].value)
    ensures PlainRows(rows)
  {
  }

  lemma DeviceValuesReadable(d: DeviceConfig, i: nat, r: seq<Row>)
    requires DeviceInTypes(d) && i < UINT32 && r == DeviceRows(d, i)
    ensures forall k :: 0 <= k < |r| ==> Readable(r[k].value)
  {
    TextMeaning(d.id); TextMeaning(d.name); TextMeaning(d.lastIpv4); TextMeaning(d.bonjourHost);
    NumberMeaning(d.port); TextMeaning(d.preferredTransport); NumberMeaning(i);
    NumberMeaning(d.lastSeen); TextMeaning(d.macHint);
    assert Readable(Bool(d.autoConnect));
    hide Readable, Meaning, TextValue, NumberValue;
  }

  lemma DeviceNames(r: seq<Row>)
    requires |r| == 10
    requires r[0].name == "id" && r[1].name == "name" && r[2].name == "lastIpv4" && r[3].name == "bonjourHost"
    requires r[4].name == "port" && r[5].name == "preferredTransport" && r[6].name == "priority"
    requires r[7].name == "autoConnect" && r[8].name == "lastSeen" && r[9].name == "macHint"
    ensures DistinctNames(r) && forall i :: 0 <= i < |r| ==> IsPlainBody(r[i].name)
  {
    DeviceNamesPlain();
    hide IsPlainBody;
    assert |r[0].name| == 2 && |r[1].name| == |r[4].name| == 4 && |r[5].name| == 18 && |r[9].name| == 7;
    assert |r[2].name| == |r[6].name| == |r[8].name| == 8 && |r[3].name| == |r[7].name| == 11;
    assert r[1].name[0] == 'n' && r[4].name[0] == 'p' && r[3].name[0] == 'b' && r[7].name[0] == 'a';
    assert r[2].name[4] == 'I' && r[6].name[4] == 'r' && r[8].name[4] == 'S';
  }

  lemma DeviceNamesPlain()
    ensures IsPlainBody("id") && IsPlainBody("name") && IsPlainBody("lastIpv4") && IsPlainBody("bonjourHost")
    ensures IsPlainBody("port") && IsPlainBody("preferredTransport") && IsPlainBody("priority")
    ensures IsPlainBody("autoConnect") && IsPlainBody("lastSeen") && IsPlainBody("macHint")
  {
  }

  function DeviceFields(d: DeviceConfig, i: nat): map<string, Json>
    requires ReadableMembers(RowMembers(DeviceRows(d, i), COMPACT))
  {
    MembersMeaning(RowMembers(DeviceRows(d, i), COMPACT), map[])
  }

  /** A written device object is read as the same device, with its place in the list as priority,
      and the port only when it is not 0. */
  lemma DeviceReadBack(d: DeviceConfig, i: nat, defaultPort: nat, count: nat)
    requires DeviceInTypes(d) && i < UINT32 && defaultPort <= 65535
    ensures ReadableMembers(RowMembers(DeviceRows(d, i), COMPACT))
    ensures ObjectDevice(DeviceFields(d, i), defaultPort, count) ==
            d.(priority := i, port := if d.port == 0 then defaultPort else d.port)
  {
    var rows := DeviceRows(d, i);
    DeviceRowsPlain(d, i);
    DeviceRowsAre(d, i);
    assert BlankLayout(COMPACT);
    RowsHold(rows, COMPACT);
    var o := DeviceFields(d, i);
    assert Holds(o, rows);
    DeviceLookups(d, i, rows, o);
  }

  lemma DeviceLookups(d: DeviceConfig, i: nat, rows: seq<Row>, o: map<string, Json>)
    requires DeviceInTypes(d) && i < UINT32 && rows == DeviceRows(d, i) && PlainRows(rows) && Holds(o, rows)
    ensures StringField(o, "id") == d.id && StringField(o, "name") == d.name
    ensures StringField(o, "lastIpv4") == d.lastIpv4 && StringField(o, "bonjourHost") == d.bonjourHost
    ensures StringField(o, "preferredTransport") == d.preferredTransport && StringField(o, "macHint") == d.macHint
    ensures IntField(o, "port") == Some(d.port) && IntField(o, "priority") == Some(i)
    ensures IntField(o, "lastSeen") == Some(d.lastSeen) && BoolField(o, "autoConnect", true) == d.autoConnect
  {
    DeviceRowsAre(d, i);
    hide DeviceRows, Escape, TextValue, NumberValue, Decimal, RowMembers, MembersMeaning, ReadableMembers;
    TextLookup(o, rows, 0, d.id);
    TextLookup(o, rows, 1, d.name);
    TextLookup(o, rows, 2, d.lastIpv4);
    TextLookup(o, rows, 3, d.bonjourHost);
    NumberLookup(o, rows, 4, d.port);
    TextLookup(o, rows, 5, d.preferredTransport);
    NumberLookup(o, rows, 6, i);
    BoolLookup(o, rows, 7, d.autoConnect);
    NumberLookup(o, rows, 8, d.lastSeen);
    TextLookup(o, rows, 9, d.macHint);
  }

  lemma TextLookup(o: map<string, Json>, rows: seq<Row>, k: nat, s: string)
    requires PlainRows(rows) && Holds(o, rows) && k < |rows| && rows[k].value == TextValue(s)
    ensures StringField(o, rows[k].name) == s
  {
    TextMeaning(s);
  }

  lemma NumberLookup(o: map<string, Json>, rows: seq<Row>, k: nat, n: int)
    requires PlainRows(rows) && Holds(o, rows) && k < |rows| && rows[k].value == NumberValue(n)
    requires INT64_MIN <= n <= INT64_MAX
    ensures IntField(o, rows[k].name) == Some(n)
  {
    NumberMeaning(n);
  }

  lemma BoolLookup(o: map<string, Json>, rows: seq<Row>, k: nat, b: bool)
    requires PlainRows(rows) && Holds(o, rows) && k < |rows| && rows[k].value == Bool(b)
    ensures HasBool(o, rows[k].name) && forall fallback :: BoolField(o, rows[k].name, fallback) == b
  {
  }

  // ----- The device list -----

  predicate AllInTypes(ds: seq<DeviceConfig>) {
    |ds| <= UINT32 && forall i :: 0 <= i < |ds| ==> DeviceInTypes(ds[i])
  }

  /** The list read back: one object per device, in order. */
  ghost predicate ListOf(items: seq<Json>, ds: seq<DeviceConfig>) {
    && |items| == |ds|
    && forall i :: 0 <= i < |ds| ==> IsDeviceObject(items[i], ds[i], i)
  }

  ghost predicate IsDeviceObject(item: Json, d: DeviceConfig, i: nat) {
    && item.JObject?
    && forall port: nat, count: nat :: port <= 65535 ==>
         ObjectDevice(item.fields, port, count) == d.(priority := i, port := if d.port == 0 then port else d.port)
  }

  lemma {:induction false} DevicesReadable(ds: seq<DeviceConfig>, i: nat)
    requires AllInTypes(ds) && i <= |ds|
    ensures ReadableElements(DeviceElements(ds, i))
    decreases |ds| - i
  {
    hide *;
    DeviceElementIs(ds, i);
    if i < |ds| {
      DevicesReadable(ds, i + 1);
      DeviceInList(ds, i);
      DeviceMeaning(ds[i], i);
      ElementReadable(DeviceElements(ds, i));
    }
  }

  lemma DeviceInList(ds: seq<DeviceConfig>, i: nat)
    requires AllInTypes(ds) && i < |ds|
    ensures DeviceInTypes(ds[i]) && i < UINT32
  {
  }

  lemma DeviceElementIs(ds: seq<DeviceConfig>, i: nat)
    requires i <= |ds|
    ensures i == |ds| ==> ReadableElements(DeviceElements(ds, i))
    ensures i < |ds| ==>
              var es := DeviceElements(ds, i);
              es.Element? && es.item == DeviceTree(ds[i], i) && es.more == DeviceElements(ds, i + 1) &&
              IsSpaces(es.lead) && IsSpaces(es.trail)
  {
    hide DeviceTree;
  }

  lemma ElementReadable(es: Elements)
    requires es.Element? && IsSpaces(es.lead) && Readable(es.item) && IsSpaces(es.trail) && ReadableElements(es.more)
    ensures ReadableElements(es)
  {
  }

  lemma {:induction false} DevicesMeaning(ds: seq<DeviceConfig>, i: nat, items: seq<Json>)
    requires AllInTypes(ds) && i <= |ds| && ReadableElements(DeviceElements(ds, i))
    requires |items| == i && forall k :: 0 <= k < i ==> IsDeviceObject(items[k], ds[k], k)
    ensures ListOf(ElementsMeaning(DeviceElements(ds, i), items), ds)
    decreases |ds| - i
  {
    hide DeviceRows, RowMembers, ReadableMembers, ObjectDevice;
    if i < |ds| {
      var item := Meaning(DeviceTree(ds[i], i));
      DeviceMeaning(ds[i], i);
      ListGrows(ds, items, item);
      hide DeviceTree, IsDeviceObject;
      DevicesMeaning(ds, i + 1, items + [item]);
    }
  }

  lemma ListGrows(ds: seq<DeviceConfig>, items: seq<Json>, item: Json)
    requires |items| < |ds| && forall k :: 0 <= k < |items| ==> IsDeviceObject(items[k], ds[k], k)
    requires IsDeviceObject(item, ds[|items|], |items|)
    ensures forall k :: 0 <= k < |items + [item]| ==> IsDeviceObject((items + [item])[k], ds[k], k)
  {
    hide IsDeviceObject;
  }

  lemma DeviceMeaning(d: DeviceConfig, i: nat)
    requires DeviceInTypes(d) && i < UINT32
    ensures Readable(DeviceTree(d, i)) && IsDeviceObject(Meaning(DeviceTree(d, i)), d, i)
  {
    DeviceReadBack(d, i, 0, 0);
    DeviceTreeMeaning(d, i);
    hide DeviceTree, ObjectDevice, DeviceInTypes, DeviceFields, Meaning, Readable;
    forall port: nat, count: nat | port <= 65535
      ensures ObjectDevice(DeviceFields(d, i), port, count) ==
              d.(priority := i, port := if d.port == 0 then port else d.port)
    {
      DeviceReadBack(d, i, port, count);
    }
  }

  lemma DeviceTreeMeaning(d: DeviceConfig, i: nat)
    requires ReadableMembers(RowMembers(DeviceRows(d, i), COMPACT))
    ensures Readable(DeviceTree(d, i)) && Meaning(DeviceTree(d, i)) == JObject(DeviceFields(d, i))
  {
    hide DeviceRows, RowMembers, ReadableMembers, MembersMeaning;
    assert IsSpaces("");
  }

  lemma DevicesTreeMeaning(ds: seq<DeviceConfig>)
    requires AllInTypes(ds)
    ensures Readable(DevicesTree(ds))
    ensures Meaning(DevicesTree(ds)).JArray? && ListOf(Meaning(DevicesTree(ds)).items, ds)
  {
    hide DeviceElements, ReadableElements, ElementsMeaning, ListOf;
    DevicesReadable(ds, 0);
    assert IsSpaces("  ") && IsSpaces("");
    DevicesMeaning(ds, 0, []);
  }

  /** Devices that all have an endpoint, a port and their place as priority come back as they were. */
  lemma {:induction false} AcceptsList(items: seq<Json>, ds: seq<DeviceConfig>, port: nat)
    requires port <= 65535 && ListOf(items, ds)
    requires forall i :: 0 <= i < |ds| ==> HasEndpoint(ds[i]) && ds[i].port != 0 && ds[i].priority == i
    ensures Accepted(items, port) == ds
    decreases |ds|
  {
    if ds != [] {
      var n := |ds| - 1;
      assert IsDeviceObject(items[n], ds[n], n);
      assert ObjectDevice(items[n].fields, port, n) == ds[n];
      assert ds == ds[..n] + [ds[n]];
      hide ObjectDevice, HasEndpoint, IsDeviceObject, LegacyDevice;
      AcceptsList(items[..n], ds[..n], port);
    }
  }

  // ----- The root -----

  predicate InTypes(c: Config) {
    && AllInTypes(c.devices) && c.port <= 65535 && c.fps < UINT32 && c.bitrateMbps < UINT32 && c.version < UINT32
  }

  lemma StreamNames(r: seq<Row>)
    requires |r| == 8
    requires r[0].name == "version" && r[1].name == "devices" && r[2].name == "port" && r[3].name == "autoReconnect"
    requires r[4].name == "fps" && r[5].name == "bitrateMbps" && r[6].name == "streamProfile"
    requires r[7].name == "requirePrivateNetwork"
    ensures DistinctNames(r) && forall i :: 0 <= i < |r| ==> IsPlainBody(r[i].name) && Side(r[i].name)
  {
    StreamNamesPlain();
    hide IsPlainBody;
    assert |r[0].name| == |r[1].name| == 7 && |r[2].name| == 4 && |r[3].name| == |r[6].name| == 13;
    assert |r[4].name| == 3 && |r[5].name| == 11 && |r[7].name| == 21;
    assert r[0].name[0] == 'v' && r[1].name[0] == 'd' && r[3].name[0] == 'a' && r[6].name[0] == 's';
  }

  lemma StreamNamesPlain()
    ensures IsPlainBody("version") && IsPlainBody("devices") && IsPlainBody("port") && IsPlainBody("autoReconnect")
    ensures IsPlainBody("fps") && IsPlainBody("bitrateMbps") && IsPlainBody("streamProfile")
    ensures IsPlainBody("requirePrivateNetwork")
  {
  }

  /** Tells the names of the two halves apart, and from `ip`. */
  predicate Side(name: string) {
    var n := |name|;
    n == 3 || n == 4 || n == 7 || n == 11 || n == 21 || (n == 13 && name[0] != 'l')
  }

  lemma DesktopNames(r: seq<Row>)
    requires |r| == 8
    requires r[0].name == "showLauncher" && r[1].name == "launcherMode" && r[2].name == "darkTheme"
    requires r[3].name == "taskbarRouting" && r[4].name == "preferredDeviceId" && r[5].name == "lastConnectionTransport"
    requires r[6].name == "lastWifiAddress" && r[7].name == "lastUsbTarget"
    ensures DistinctNames(r) && forall i :: 0 <= i < |r| ==> IsPlainBody(r[i].name) && !Side(r[i].name) && r[i].name != "ip"
  {
    DesktopNamesPlain();
    hide IsPlainBody;
    assert |r[0].name| == |r[1].name| == 12 && |r[2].name| == 9 && |r[3].name| == 14 && |r[4].name| == 17;
    assert |r[5].name| == 23 && |r[6].name| == 15 && |r[7].name| == 13;
    assert r[0].name[0] == 's' && r[1].name[0] == 'l' && r[7].name[0] == 'l';
  }

  lemma DesktopNamesPlain()
    ensures IsPlainBody("showLauncher") && IsPlainBody("launcherMode") && IsPlainBody("darkTheme")
    ensures IsPlainBody("taskbarRouting") && IsPlainBody("preferredDeviceId")
    ensures IsPlainBody("lastConnectionTransport") && IsPlainBody("lastWifiAddress") && IsPlainBody("lastUsbTarget")
  {
    LastNamesPlain();
    hide IsPlainBody;
    LauncherNamesPlain();
  }

  lemma LastNamesPlain()
    ensures IsPlainBody("lastConnectionTransport") && IsPlainBody("lastWifiAddress") && IsPlainBody("lastUsbTarget")
  {
  }

  lemma LauncherNamesPlain()
    ensures IsPlainBody("showLauncher") && IsPlainBody("launcherMode") && IsPlainBody("darkTheme")
    ensures IsPlainBody("taskbarRouting") && IsPlainBody("preferredDeviceId")
  {
  }

  lemma RootRowsPlain(c: Config)
    requires InTypes(c)
    ensures var r := RootRows(c);
            PlainRows(r) && DistinctNames(r) && forall i :: 0 <= i < |r| ==> r[i].name != "ip"
  {
    hide *;
    var r := RootRows(c);
    RootRowsAre(c);
    StreamNames(r[..8]);
    DesktopNames(r[8..]);
    HalvesDistinct(r);
    RootValuesReadable(c, r);
    RowsPlain(r);
  }

  lemma HalvesDistinct(r: seq<Row>)
    requires |r| == 16 && DistinctNames(r[..8]) && DistinctNames(r[8..])
    requires forall i :: 0 <= i < 8 ==> IsPlainBody(r[..8][i].name) && Side(r[..8][i].name)
    requires forall i :: 0 <= i < 8 ==> IsPlainBody(r[8..][i].name) && !Side(r[8..][i].name) && r[8..][i].name != "ip"
    ensures DistinctNames(r) && forall i :: 0 <= i < |r| ==> IsPlainBody(r[i].name) && r[i].name != "ip"
  {
    assert !Side("ip");
    hide IsPlainBody;
    forall i | 0 <= i < 16 ensures IsPlainBody(r[i].name) && r[i].name != "ip" && (Side(r[i].name) <==> i < 8) {
      if i < 8 { assert r[i] == r[..8][i]; } else { assert r[i] == r[8..][i - 8]; }
    }
    hide Side;
    forall i, j | 0 <= i < j < 16 ensures r[i].name != r[j].name {
      if j < 8 {
        assert r[i] == r[..8][i] && r[j] == r[..8][j];
      } else if i >= 8 {
        assert r[i] == r[8..][i - 8] && r[j] == r[8..][j - 8];
      }
    }
  }

  lemma RootValuesReadable(c: Config, r: seq<Row>)
    requires InTypes(c) && r == RootRows(c)
    ensures forall k :: 0 <= k < |r| ==> Readable(r[k].value)
  {
    StreamValuesReadable(c);
    DesktopValuesReadable(c);
    hide Readable, StreamRows, DesktopRows;
  }

  lemma StreamValuesReadable(c: Config)
    requires InTypes(c)
    ensures forall k :: 0 <= k < |StreamRows(c)| ==> Readable(StreamRows(c)[k].value)
  {
    hide IsInt64, DevicesTree, ListOf, RowMembers;
    DevicesTreeMeaning(c.devices);
    NumberMeaning(CURRENT_VERSION); NumberMeaning(c.port); NumberMeaning(c.fps); NumberMeaning(c.bitrateMbps);
    NumberMeaning(ProfileCode(c.streamProfile));
    assert forall b :: Readable(Bool(b));
    hide *;
    StreamValues(c);
  }

  lemma StreamValues(c: Config)
    requires Readable(NumberValue(CURRENT_VERSION)) && Readable(DevicesTree(c.devices))
    requires Readable(NumberValue(c.port)) && Readable(NumberValue(c.fps)) && Readable(NumberValue(c.bitrateMbps))
    requires Readable(NumberValue(ProfileCode(c.streamProfile))) && forall b :: Readable(Bool(b))
    ensures forall k :: 0 <= k < |StreamRows(c)| ==> Readable(StreamRows(c)[k].value)
  {
    hide Readable, NumberValue, DevicesTree, ProfileCode;
  }

  lemma DesktopValuesReadable(c: Config)
    ensures forall k :: 0 <= k < |DesktopRows(c)| ==> Readable(DesktopRows(c)[k].value)
  {
    NumberMeaning(ModeCode(c.launcherMode));
    TextMeaning(c.preferredDeviceId); TextMeaning(c.lastConnectionTransport);
    TextMeaning(c.lastWifiAddress); TextMeaning(c.lastUsbTarget);
    assert forall b :: Readable(Bool(b));
    hide Readable, Meaning, TextValue, NumberValue;
  }

  function RootFields(c: Config): map<string, Json>
    requires ReadableMembers(RowMembers(RootRows(c), LINES))
  {
    MembersMeaning(RowMembers(RootRows(c), LINES), map[])
  }

  /** The written text is read as an object that holds every row and no `ip`. */
  lemma TextReadBack(c: Config)
    requires InTypes(c)
    ensures PlainRows(RootRows(c)) && ReadableMembers(RowMembers(RootRows(c), LINES))
    ensures Holds(RootFields(c), RootRows(c)) && "ip" !in RootFields(c)
    ensures ReadAll(ConfigText(c)) == Some(JObject(RootFields(c)))
  {
    RootRowsPlain(c);
    assert BlankLayout(LINES);
    hide *;
    var rows := RootRows(c);
    RowsHold(rows, LINES);
    OtherNameKept(rows, LINES, map[], "ip");
    RootReadable(c);
    ReadsWhole("", RootTree(c), "\n");
    ConfigTextIs(c);
    RootFieldsIs(c);
  }

  lemma ConfigTextIs(c: Config)
    ensures ConfigText(c) == "" + Text(RootTree(c)) + "\n" && IsSpaces("") && IsSpaces("\n")
  {
  }

  lemma RootFieldsIs(c: Config)
    requires ReadableMembers(RowMembers(RootRows(c), LINES))
    ensures RootFields(c) == MembersMeaning(RowMembers(RootRows(c), LINES), map[])
  {
  }

  lemma RootReadable(c: Config)
    requires ReadableMembers(RowMembers(RootRows(c), LINES))
    ensures Readable(RootTree(c)) && Meaning(RootTree(c)) == JObject(RootFields(c))
    ensures IsSpaces("") && IsSpaces("\n")
  {
    hide RootRows, RowMembers, ReadableMembers, MembersMeaning;
    assert IsSpaces("");
  }

  // ----- Loading gives a normal form -----

  /** Everything Parse guarantees of a configuration, apart from the endpoints of the devices. */
  predicate Tidy(c: Config) {
    && c.version == CURRENT_VERSION && 1 <= c.port <= 65535 && 30 <= c.fps <= 120 && 5 <= c.bitrateMbps <= 100
    && (c.showLauncher <==> c.launcherMode != Hidden)
    && Distinct(c.devices)
    && forall i :: 0 <= i < |c.devices| ==>
         1 <= c.devices[i].port <= 65535 && INT64_MIN <= c.devices[i].lastSeen <= INT64_MAX &&
         c.devices[i].priority == i % UINT32
  }

  predicate AllHaveEndpoints(ds: seq<DeviceConfig>) {
    forall i :: 0 <= i < |ds| ==> HasEndpoint(ds[i])
  }

  /** The configurations that survive being saved and loaded. */
  predicate Normal(c: Config) {
    Tidy(c) && |c.devices| <= UINT32 && AllHaveEndpoints(c.devices)
  }

  predicate GoodDevice(d: DeviceConfig) {
    1 <= d.port <= 65535 && INT64_MIN <= d.lastSeen <= INT64_MAX
  }

  lemma {:induction false} AcceptedAreGood(items: seq<Json>, port: nat)
    requires 1 <= port <= 65535
    ensures forall d :: d in Accepted(items, port) ==> GoodDevice(d)
    decreases |items|
  {
    if items != [] {
      AcceptedAreGood(items[..|items| - 1], port);
    }
  }

  lemma NormalDevicesKeep(o: map<string, Json>)
    ensures var ds := NormalDevices(o);
            Distinct(ds) && forall i :: 0 <= i < |ds| ==> ds[i].priority == i % UINT32 && GoodDevice(ds[i])
  {
    var all := AllDevices(o);
    var sorted := StableSort(all);
    var kept := Deduplicated(sorted);
    SortIsStable(all);
    var at := DeduplicationKeeps(sorted);
    AllAreGood(o);
    hide StableSort, Deduplicated, AllDevices;
    forall i | 0 <= i < |kept| ensures GoodDevice(kept[i]) {
      assert sorted[at[i]] == kept[i];
    }
  }

  lemma AllAreGood(o: map<string, Json>)
    ensures forall d :: d in AllDevices(o) ==> GoodDevice(d)
  {
    if "devices" in o && o["devices"].JArray? {
      AcceptedAreGood(o["devices"].items, PortOf(o));
    }
  }

  lemma ObjectIsTidy(o: map<string, Json>)
    ensures Tidy(ObjectConfig(o))
  {
    NormalDevicesKeep(o);
    hide NormalDevices, Distinct, ModeFrom, ProfileFrom;
  }

  /** Whatever the text, what is loaded is tidy. */
  lemma ParseIsTidy(json: string)
    ensures Tidy(ParseConfig(json))
  {
    match ReadAll(json)
    case Some(JObject(fields)) => ObjectIsTidy(fields);
    case _ =>
  }

  // ----- Which configurations survive -----

  lemma TidyIsInTypes(c: Config)
    requires Tidy(c) && |c.devices| <= UINT32
    ensures InTypes(c)
  {
  }

  /** Save and load give back every normal configuration, with any bytes in its strings. */
  lemma NormalSurvives(c: Config)
    requires Normal(c)
    ensures ParseConfig(ConfigText(c)) == c
  {
    TidyIsInTypes(c);
    TextReadBack(c);
    RootReadBack(c, RootFields(c));
    hide RootFields, ConfigText, RootRows;
  }

  lemma RootReadBack(c: Config, o: map<string, Json>)
    requires Normal(c) && InTypes(c) && PlainRows(RootRows(c)) && Holds(o, RootRows(c)) && "ip" !in o
    ensures ObjectConfig(o) == c
  {
    RootNumbers(c, o);
    RootFlags(c, o);
    RootTexts(c, o);
    RootDevices(c, o);
    ModeReadBack(c.launcherMode);
    ProfileReadBack(c.streamProfile);
    hide RootRows, Holds, PlainRows, NormalDevices, ProfileOf, ModeOf, StringField, BoolField, IntField;
  }

  lemma ModeReadBack(m: LauncherMode)
    ensures ModeOf(ModeCode(m)) == Some(m)
  {
  }

  lemma ProfileReadBack(p: StreamProfile)
    ensures ProfileOf(ProfileCode(p)) == Some(p)
  {
  }

  lemma RootNumbers(c: Config, o: map<string, Json>)
    requires InTypes(c) && PlainRows(RootRows(c)) && Holds(o, RootRows(c))
    ensures IntField(o, "version") == Some(CURRENT_VERSION) && IntField(o, "port") == Some(c.port)
    ensures IntField(o, "fps") == Some(c.fps) && IntField(o, "bitrateMbps") == Some(c.bitrateMbps)
    ensures IntField(o, "streamProfile") == Some(ProfileCode(c.streamProfile))
    ensures IntField(o, "launcherMode") == Some(ModeCode(c.launcherMode))
  {
    var rows := RootRows(c);
    RootRowsAre(c);
    hide RootRows, NumberValue, TextValue, DevicesTree, Holds, PlainRows, RowMembers, IntField;
    NumberLookup(o, rows, 0, CURRENT_VERSION);
    NumberLookup(o, rows, 2, c.port);
    NumberLookup(o, rows, 4, c.fps);
    NumberLookup(o, rows, 5, c.bitrateMbps);
    NumberLookup(o, rows, 6, ProfileCode(c.streamProfile));
    NumberLookup(o, rows, 9, ModeCode(c.launcherMode));
  }

  lemma RootFlags(c: Config, o: map<string, Json>)
    requires InTypes(c) && PlainRows(RootRows(c)) && Holds(o, RootRows(c))
    ensures forall f :: BoolField(o, "autoReconnect", f) == c.autoReconnect
    ensures forall f :: BoolField(o, "requirePrivateNetwork", f) == c.requirePrivateNetwork
    ensures forall f :: BoolField(o, "showLauncher", f) == c.showLauncher
    ensures forall f :: BoolField(o, "darkTheme", f) == c.darkTheme
    ensures forall f :: BoolField(o, "taskbarRouting", f) == c.taskbarRouting
  {
    var rows := RootRows(c);
    RootRowsAre(c);
    hide RootRows, NumberValue, TextValue, DevicesTree, Holds, PlainRows, RowMembers, BoolField;
    BoolLookup(o, rows, 3, c.autoReconnect);
    BoolLookup(o, rows, 7, c.requirePrivateNetwork);
    BoolLookup(o, rows, 8, c.showLauncher);
    BoolLookup(o, rows, 10, c.darkTheme);
    BoolLookup(o, rows, 11, c.taskbarRouting);
  }

  lemma RootTexts(c: Config, o: map<string, Json>)
    requires InTypes(c) && PlainRows(RootRows(c)) && Holds(o, RootRows(c))
    ensures StringField(o, "preferredDeviceId") == c.preferredDeviceId
    ensures StringField(o, "lastConnectionTransport") == c.lastConnectionTransport
    ensures StringField(o, "lastWifiAddress") == c.lastWifiAddress && StringField(o, "lastUsbTarget") == c.lastUsbTarget
  {
    var rows := RootRows(c);
    RootRowsAre(c);
    hide RootRows, NumberValue, TextValue, DevicesTree, Holds, PlainRows, RowMembers, StringField;
    TextLookup(o, rows, 12, c.preferredDeviceId);
    TextLookup(o, rows, 13, c.lastConnectionTransport);
    TextLookup(o, rows, 14, c.lastWifiAddress);
    TextLookup(o, rows, 15, c.lastUsbTarget);
  }

  /** The device list of the written object. */
  lemma ListReadBack(c: Config, o: map<string, Json>)
    requires InTypes(c) && PlainRows(RootRows(c)) && Holds(o, RootRows(c))
    ensures "devices" in o && o["devices"].JArray? && ListOf(o["devices"].items, c.devices)
  {
    var rows := RootRows(c);
    RootRowsAre(c);
    DevicesTreeMeaning(c.devices);
    assert rows[1].name == "devices" && rows[1].value == DevicesTree(c.devices);
    assert PlainRow(rows[1]) && o[rows[1].name] == Meaning(rows[1].value);
    hide RootRows, DevicesTree, ListOf, Meaning, Readable;
  }

  lemma RootDevices(c: Config, o: map<string, Json>)
    requires Normal(c) && InTypes(c) && PlainRows(RootRows(c)) && Holds(o, RootRows(c)) && "ip" !in o
    ensures NormalDevices(o) == c.devices
  {
    hide RootRows, Holds, PlainRows, ListOf, Accepted, Distinct, Renumbered, Deduplicated, StableSort;
    ListReadBack(c, o);
    assert forall i :: 0 <= i < |c.devices| ==> c.devices[i].priority == i && c.devices[i].port != 0;
    AcceptsList(o["devices"].items, c.devices, PortOf(o));
    assert AllDevices(o) == c.devices;
    OrderedListStays(c.devices);
  }

  lemma OrderedListStays(ds: seq<DeviceConfig>)
    requires Distinct(ds) && |ds| <= UINT32 && forall i :: 0 <= i < |ds| ==> ds[i].priority == i
    ensures Renumbered(Deduplicated(StableSort(ds))) == ds
  {
    SortedStays(ds);
    DistinctStays(ds);
    hide StableSort, Deduplicated, Distinct;
    RenumberedStays(ds);
  }

  lemma RenumberedStays(ds: seq<DeviceConfig>)
    requires |ds| <= UINT32 && forall i :: 0 <= i < |ds| ==> ds[i].priority == i
    ensures Renumbered(ds) == ds
  {
    var r := Renumbered(ds);
    forall i | 0 <= i < |ds| ensures r[i] == ds[i] {
      assert r[i] == ds[i].(priority := i % UINT32);
    }
  }

  /** And no other configuration survives: what loads back unchanged was normal already. */
  lemma OnlyNormalSurvives(c: Config)
    requires InTypes(c)
    ensures ParseConfig(ConfigText(c)) == c <==> Normal(c)
  {
    hide ParseConfig, ConfigText, Normal, InTypes;
    if Normal(c) {
      NormalSurvives(c);
    } else if ParseConfig(ConfigText(c)) == c {
      SurvivorIsNormal(c);
    }
  }

  lemma SurvivorIsNormal(c: Config)
    requires InTypes(c) && ParseConfig(ConfigText(c)) == c
    ensures Normal(c)
  {
    TextReadBack(c);
    var o := RootFields(c);
    ListReadBack(c, o);
    ObjectIsTidy(o);
    hide ConfigText, RootRows, RootFields, Tidy, Holds, PlainRows;
    ObjectListEndpoints(o, c.devices);
  }

  lemma ObjectListEndpoints(o: map<string, Json>, ds: seq<DeviceConfig>)
    requires "ip" !in o && "devices" in o && o["devices"].JArray? && ListOf(o["devices"].items, ds)
    ensures AllHaveEndpoints(NormalDevices(o))
  {
    var items := o["devices"].items;
    assert forall i :: 0 <= i < |items| ==> IsDeviceObject(items[i], ds[i], i);
    assert forall i :: 0 <= i < |items| ==> !BlankEntry(items[i]);
    hide IsDeviceObject, ListOf;
    AcceptedEndpoints(items, PortOf(o));
    KeptEndpoints(o);
  }

  // ----- Old entries that begin with blanks -----

  /** An old entry that begins with a space or tab has no address in front of its name. */
  predicate BlankLed(text: string) {
    text != "" && IsGap(text[0])
  }

  predicate BlankEntry(item: Json) {
    item.JString? && BlankLed(item.text)
  }

  /** The object uses such an entry: in its device list, or as its single address when the list
      contributes no device. */
  predicate UsesBlankEntry(o: map<string, Json>) {
    || ("devices" in o && o["devices"].JArray? &&
        exists i :: 0 <= i < |o["devices"].items| && BlankEntry(o["devices"].items[i]))
    || (ListedDevices(o) == [] && BlankLed(StringField(o, "ip")))
  }

  lemma LegacyEndpoint(text: string, port: nat, priority: nat)
    requires text != ""
    ensures HasEndpoint(LegacyDevice(text, port, priority)) <==> !BlankLed(text)
  {
  }

  lemma {:induction false} AcceptedEndpoints(items: seq<Json>, port: nat)
    requires port <= 65535
    ensures AllHaveEndpoints(Accepted(items, port)) <==>
            !exists i :: 0 <= i < |items| && BlankEntry(items[i])
    decreases |items|
  {
    hide ItemDevice, HasEndpoint, BlankEntry, AllHaveEndpoints;
    if items == [] {
      NoneLacksEndpoints();
    } else {
      var n := |items| - 1;
      var before := Accepted(items[..n], port);
      AcceptedEndpoints(items[..n], port);
      ItemEndpoint(items[n], port, |before|);
      EndpointsSplit(before, Accepted(items, port), ItemDevice(items[n], port, |before|));
      EntriesSplit(items);
    }
  }

  lemma NoneLacksEndpoints()
    ensures AllHaveEndpoints([])
  {
  }

  lemma ItemEndpoint(item: Json, port: nat, count: nat)
    requires port <= 65535
    ensures var d := ItemDevice(item, port, count);
            (d.Some? && !HasEndpoint(d.value)) <==> BlankEntry(item)
  {
    hide ObjectDevice;
    if item.JString? && item.text != "" { LegacyEndpoint(item.text, port, count % UINT32); }
  }

  lemma EndpointsSplit(before: seq<DeviceConfig>, all: seq<DeviceConfig>, d: Option<DeviceConfig>)
    requires all == if d.Some? then before + [d.value] else before
    ensures AllHaveEndpoints(all) <==> AllHaveEndpoints(before) && !(d.Some? && !HasEndpoint(d.value))
  {
    if d.Some? {
      assert all[|before|] == d.value;
      assert forall i :: 0 <= i < |before| ==> all[i] == before[i];
    }
  }

  lemma EntriesSplit(items: seq<Json>)
    requires items != []
    ensures var n := |items| - 1;
            (exists i :: 0 <= i < |items| && BlankEntry(items[i])) <==>
            BlankEntry(items[n]) || exists i :: 0 <= i < |items[..n]| && BlankEntry(items[..n][i])
  {
    var n := |items| - 1;
    if i :| 0 <= i < |items| && BlankEntry(items[i]) {
      if i < n { assert BlankEntry(items[..n][i]); }
    }
    if i :| 0 <= i < |items[..n]| && BlankEntry(items[..n][i]) {
      assert BlankEntry(items[i]);
    }
  }

  /** Sorting and removing duplicates lose no device without endpoint: it duplicates nothing. */
  lemma KeptEndpoints(o: map<string, Json>)
    ensures AllHaveEndpoints(NormalDevices(o)) <==> AllHaveEndpoints(AllDevices(o))
  {
    var all := AllDevices(o);
    var sorted := StableSort(all);
    var kept := Deduplicated(sorted);
    SortIsStable(all);
    var at := DeduplicationKeeps(sorted);
    hide StableSort, Deduplicated, AllDevices;
    SameEndpoints(all, sorted, kept, at);
    assert forall i :: 0 <= i < |kept| ==> (HasEndpoint(Renumbered(kept)[i]) <==> HasEndpoint(kept[i]));
  }

  lemma SameEndpoints(all: seq<DeviceConfig>, sorted: seq<DeviceConfig>, kept: seq<DeviceConfig>, at: seq<nat>)
    requires forall e :: e in sorted <==> e in all
    requires Picks(at, kept, sorted)
    requires forall d :: d in sorted ==> d in kept || DuplicatesAny(d, kept)
    ensures AllHaveEndpoints(kept) <==> AllHaveEndpoints(all)
  {
    forall i | 0 <= i < |kept| ensures kept[i] in all {
      assert sorted[at[i]] == kept[i];
    }
    forall i | 0 <= i < |all| && !HasEndpoint(all[i]) ensures all[i] in kept {
      assert all[i] in sorted;
    }
  }

  lemma BlankEntriesShow(o: map<string, Json>)
    ensures AllHaveEndpoints(NormalDevices(o)) <==> !UsesBlankEntry(o)
  {
    KeptEndpoints(o);
    if "devices" in o && o["devices"].JArray? {
      AcceptedEndpoints(o["devices"].items, PortOf(o));
    }
    var ip := StringField(o, "ip");
    if ip != "" { LegacyEndpoint(ip, PortOf(o), 0); }
    hide Accepted, NormalDevices, LegacyDevice, StringField;
    EmptyListBlank(o);
  }

  /** A device list that contributes nothing has no blank-led entry. */
  lemma EmptyListBlank(o: map<string, Json>)
    requires "devices" in o && o["devices"].JArray? ==>
               (AllHaveEndpoints(Accepted(o["devices"].items, PortOf(o))) <==>
                !exists i :: 0 <= i < |o["devices"].items| && BlankEntry(o["devices"].items[i]))
    ensures AllHaveEndpoints(ListedDevices(o)) <==>
            !("devices" in o && o["devices"].JArray? &&
              exists i :: 0 <= i < |o["devices"].items| && BlankEntry(o["devices"].items[i]))
  {
  }

  predicate TextUsesBlankEntry(json: string) {
    match ReadAll(json)
    case Some(JObject(fields)) => UsesBlankEntry(fields)
    case _ => false
  }

  /** Loading, saving and loading again changes nothing, for any text at all, exactly when no old
      entry used begins with a blank.  (The index of a device is kept in 32 bits.) */
  lemma ReloadIsStable(json: string)
    requires |ParseConfig(json).devices| <= UINT32
    ensures ParseConfig(ConfigText(ParseConfig(json))) == ParseConfig(json) <==> !TextUsesBlankEntry(json)
  {
    var c := ParseConfig(json);
    ParseIsTidy(json);
    TidyIsInTypes(c);
    OnlyNormalSurvives(c);
    match ReadAll(json)
    case Some(JObject(fields)) =>
      BlankEntriesShow(fields);
      assert c.devices == NormalDevices(fields);
      hide NormalDevices, UsesBlankEntry, Tidy, ConfigText, ReadAll;
    case _ =>
      hide Tidy, ConfigText, ReadAll;
  }

  /** The smallest text for which it fails: the device loaded has a name only, and is not saved. */
  lemma BlankEntryIsLost()
    ensures var json := "{\"ip\":\" x\"}";
            TextUsesBlankEntry(json) && |ParseConfig(json).devices| == 1 &&
            ParseConfig(ConfigText(ParseConfig(json))) != ParseConfig(json)
  {
    var json := "{\"ip\":\" x\"}";
    var ms := Member("", "ip", "", "", Str(" x"), "", NoMember);
    var o := map["ip" := JString(" x")];
    BlankEntryTree(ms);
    assert IsSpaces("");
    assert "" + json + "" == json;
    ReadsWhole("", Obj("", ms), "");
    BlankAddressLoads(o);
    hide *;
    BlankTextLoads(json, o);
    ReloadIsStable(json);
  }

  lemma BlankTextLoads(json: string, o: map<string, Json>)
    requires ReadAll(json) == Some(JObject(o))
    ensures TextUsesBlankEntry(json) <==> UsesBlankEntry(o)
    ensures ParseConfig(json).devices == NormalDevices(o)
  {
    hide ReadAll, UsesBlankEntry, NormalDevices;
  }

  lemma BlankAddressLoads(o: map<string, Json>)
    requires o == map["ip" := JString(" x")]
    ensures UsesBlankEntry(o) && |NormalDevices(o)| == 1
  {
    assert "devices" !in o && "port" !in o;
    assert StringField(o, "ip") == " x";
    var d := LegacyDevice(" x", PortOf(o), 0);
    assert AllDevices(o) == [d];
    hide LegacyDevice, AllDevices;
    SortedStays([d]);
    DistinctStays([d]);
  }

  lemma BlankEntryTree(ms: Members)
    requires ms == Member("", "ip", "", "", Str(" x"), "", NoMember)
    ensures Readable(Obj("", ms)) && Meaning(Obj("", ms)) == JObject(map["ip" := JString(" x")])
    ensures Text(Obj("", ms)) == "{\"ip\":\" x\"}"
  {
    BlankEntryReadable(ms);
    BlankEntryText(ms);
  }

  lemma BlankEntryReadable(ms: Members)
    requires ms == Member("", "ip", "", "", Str(" x"), "", NoMember)
    ensures Readable(Obj("", ms)) && Meaning(Obj("", ms)) == JObject(map["ip" := JString(" x")])
  {
    PlainDecode("ip");
    PlainDecode(" x");
    assert IsSpaces("");
    hide IsBody, Decode, IsSpaces;
    assert ReadableMembers(ms);
    assert MembersMeaning(ms, map[]) == map["ip" := JString(" x")];
  }

  lemma BlankEntryText(ms: Members)
    requires ms == Member("", "ip", "", "", Str(" x"), "", NoMember)
    ensures Text(Obj("", ms)) == "{\"ip\":\" x\"}"
  {
    assert MemberHead(ms) == "\"ip\":";
    assert MemberText(ms) == "\"ip\":\" x\"";
    assert MembersText(ms) == MemberText(ms);
  }
}
