/** Config::Serialize of src/app/Config.cpp, and the tree its output is the text of. */
module ConfigDocument {
  import opened Wrappers
  import opened JsonGrammar
  import opened FieldScanner
  import opened Decimals
  import opened ConfigJson
  import opened ConfigReading
  import opened ConfigStore

  /** One member to be written: its name and its value. */
  datatype Row = Row(name: string, value: Value)

  /** How members are laid out: what precedes a name, what follows a colon, what follows the last value. */
  datatype Layout = Layout(before: string, gap: string, last: string)

  const COMPACT := Layout("", "", "")
  const LINES := Layout("\n  ", " ", "\n")

  function RowMembers(rows: seq<Row>, l: Layout): Members {
    if rows == [] then NoMember
    else Member(l.before, rows[0].name, "", l.gap, rows[0].value, if |rows| == 1 then l.last else "",
                RowMembers(rows[1..], l))
  }

  function RowText(row: Row, l: Layout): string {
    l.before + Quoted(row.name) + ":" + l.gap + Text(row.value)
  }

  /** The text from row `k` on, with the comma before it. */
  function RestText(rows: seq<Row>, k: nat, l: Layout): string
    requires k <= |rows|
    decreases |rows| - k
  {
    if k == |rows| then l.last else (if k == 0 then "" else ",") + RowText(rows[k], l) + RestText(rows, k + 1, l)
  }

  lemma RowIsMember(rows: seq<Row>, l: Layout)
    requires rows != []
    ensures var m := RowMembers(rows, l);
            MemberText(m) == RowText(rows[0], l) + if |rows| == 1 then l.last else ""
  {
    var m := RowMembers(rows, l);
    assert MemberHead(m) == l.before + Quoted(rows[0].name) + ":" + l.gap;
    assert MemberText(m) == MemberHead(m) + Text(rows[0].value) + m.after;
  }

  lemma {:induction false} RowsText(rows: seq<Row>, k: nat, l: Layout)
    requires k < |rows|
    ensures (if k == 0 then "" else ",") + MembersText(RowMembers(rows[k..], l)) == RestText(rows, k, l)
    decreases |rows| - k
  {
    var m := RowMembers(rows[k..], l);
    assert rows[k..][1..] == rows[k + 1..];
    RowIsMember(rows[k..], l);
    assert MembersText(m) == MemberText(m) + MoreMembersText(m.others);
    if k + 1 < |rows| {
      RowsText(rows, k + 1, l);
      assert MoreMembersText(m.others) == RestText(rows, k + 1, l);
    }
    hide *;
  }

  /** `out` is `whole` as far as row `k`. */
  ghost predicate Reaches(out: string, whole: string, rows: seq<Row>, k: nat, l: Layout) {
    k <= |rows| && out + RestText(rows, k, l) == whole
  }

  /** Appending the next row brings the output one row nearer to the whole text. */
  lemma RowAppended(out: string, whole: string, rows: seq<Row>, k: nat, l: Layout)
    requires k < |rows| && Reaches(out, whole, rows, k, l)
    ensures Reaches(out + ((if k == 0 then "" else ",") + RowText(rows[k], l)), whole, rows, k + 1, l)
  {
    hide RowText;
  }

  // ----- Values -----

  function TextValue(s: string): Value {
    Str(Escape(s))
  }

  function NumberValue(n: int): Value {
    Num(IntegerToken(n))
  }

  function BoolText(b: bool): string {
    if b then "true" else "false"
  }

  function DeviceRows(d: DeviceConfig, index: nat): seq<Row> {
    [Row("id", TextValue(d.id)), Row("name", TextValue(d.name)), Row("lastIpv4", TextValue(d.lastIpv4)),
     Row("bonjourHost", TextValue(d.bonjourHost)), Row("port", NumberValue(d.port)),
     Row("preferredTransport", TextValue(d.preferredTransport)), Row("priority", NumberValue(index)),
     Row("autoConnect", Bool(d.autoConnect)), Row("lastSeen", NumberValue(d.lastSeen)),
     Row("macHint", TextValue(d.macHint))]
  }

  function DeviceTree(d: DeviceConfig, index: nat): Value {
    Obj("", RowMembers(DeviceRows(d, index), COMPACT))
  }

  /** The devices from `i` on, each on its own line. */
  function DeviceElements(ds: seq<DeviceConfig>, i: nat): Elements
    requires i <= |ds|
    decreases |ds| - i
  {
    if i == |ds| then NoElement
    else Element("\n    ", DeviceTree(ds[i], i), if i + 1 == |ds| then "\n  " else "", DeviceElements(ds, i + 1))
  }

  function DevicesTree(ds: seq<DeviceConfig>): Value {
    Arr(if ds == [] then "  " else "", DeviceElements(ds, 0))
  }

  function StreamRows(c: Config): seq<Row> {
    [Row("version", NumberValue(CURRENT_VERSION)), Row("devices", DevicesTree(c.devices)),
     Row("port", NumberValue(c.port)), Row("autoReconnect", Bool(c.autoReconnect)),
     Row("fps", NumberValue(c.fps)), Row("bitrateMbps", NumberValue(c.bitrateMbps)),
     Row("streamProfile", NumberValue(ProfileCode(c.streamProfile))),
     Row("requirePrivateNetwork", Bool(c.requirePrivateNetwork))]
  }

  function DesktopRows(c: Config): seq<Row> {
    [Row("showLauncher", Bool(c.showLauncher)), Row("launcherMode", NumberValue(ModeCode(c.launcherMode))),
     Row("darkTheme", Bool(c.darkTheme)), Row("taskbarRouting", Bool(c.taskbarRouting)),
     Row("preferredDeviceId", TextValue(c.preferredDeviceId)),
     Row("lastConnectionTransport", TextValue(c.lastConnectionTransport)),
     Row("lastWifiAddress", TextValue(c.lastWifiAddress)), Row("lastUsbTarget", TextValue(c.lastUsbTarget))]
  }

  function RootRows(c: Config): seq<Row> {
    StreamRows(c) + DesktopRows(c)
  }

  function RootTree(c: Config): Value {
    Obj("", RowMembers(RootRows(c), LINES))
  }

  // ----- Writing -----

  /** An object of rows is its brace, its rows and its brace. */
  lemma RowObjectText(rows: seq<Row>, l: Layout)
    requires rows != []
    ensures Text(Obj("", RowMembers(rows, l))) == "{" + RestText(rows, 0, l) + "}"
  {
    RowsText(rows, 0, l);
    assert rows[0..] == rows;
    assert Text(Obj("", RowMembers(rows, l))) == "{" + "" + MembersText(RowMembers(rows, l)) + "}";
  }

  /** One member written: comma, layout, name, colon, value.  It has to be row `k`. */
  method Append(out: string, name: string, text: string, k: nat, l: Layout, ghost whole: string, ghost rows: seq<Row>)
    returns (r: string)
    requires k < |rows| && rows[k].name == name && text == Text(rows[k].value) && Reaches(out, whole, rows, k, l)
    ensures Reaches(r, whole, rows, k + 1, l)
  {
    r := out + (if k == 0 then "" else ",");
    r := r + l.before + "\"" + name + "\":" + l.gap + text;
    assert Quoted(name) + ":" == "\"" + name + "\":";
    RowAppended(out, whole, rows, k, l);
    hide JsonGrammar.Text, Reaches;
    AppendGrouping(out, if k == 0 then "" else ",", l.before, "\"" + name + "\":", l.gap, text);
  }

  lemma AppendGrouping(out: string, comma: string, before: string, name: string, gap: string, value: string)
    ensures out + comma + before + name + gap + value == out + (comma + (before + name + gap + value))
  {
  }

  method AppendText(out: string, name: string, value: string, k: nat, l: Layout, ghost whole: string, ghost rows: seq<Row>)
    returns (r: string)
    requires k < |rows| && rows[k] == Row(name, TextValue(value)) && Reaches(out, whole, rows, k, l)
    ensures Reaches(r, whole, rows, k + 1, l)
  {
    var escaped := EscapeJson(value);
    r := Append(out, name, "\"" + escaped + "\"", k, l, whole, rows);
  }

  method AppendNumber(out: string, name: string, value: int, k: nat, l: Layout, ghost whole: string, ghost rows: seq<Row>)
    returns (r: string)
    requires k < |rows| && rows[k] == Row(name, NumberValue(value)) && Reaches(out, whole, rows, k, l)
    ensures Reaches(r, whole, rows, k + 1, l)
  {
    r := Append(out, name, Signed(value), k, l, whole, rows);
  }

  method AppendBool(out: string, name: string, value: bool, k: nat, l: Layout, ghost whole: string, ghost rows: seq<Row>)
    returns (r: string)
    requires k < |rows| && rows[k] == Row(name, Bool(value)) && Reaches(out, whole, rows, k, l)
    ensures Reaches(r, whole, rows, k + 1, l)
  {
    r := Append(out, name, BoolText(value), k, l, whole, rows);
  }

  lemma DeviceRowsAre(d: DeviceConfig, i: nat)
    ensures var rows := DeviceRows(d, i);
            && |rows| == 10 && COMPACT.last == ""
            && DeviceTree(d, i) == Obj("", RowMembers(rows, COMPACT))
            && rows[0] == Row("id", TextValue(d.id))
            && rows[1] == Row("name", TextValue(d.name))
            && rows[2] == Row("lastIpv4", TextValue(d.lastIpv4))
            && rows[3] == Row("bonjourHost", TextValue(d.bonjourHost))
            && rows[4] == Row("port", NumberValue(d.port))
            && rows[5] == Row("preferredTransport", TextValue(d.preferredTransport))
            && rows[6] == Row("priority", NumberValue(i))
            && rows[7] == Row("autoConnect", Bool(d.autoConnect))
            && rows[8] == Row("lastSeen", NumberValue(d.lastSeen))
            && rows[9] == Row("macHint", TextValue(d.macHint))
  {
    hide TextValue, NumberValue, RowMembers;
  }

  /** One device object on one line. */
  method SerializeDevice(d: DeviceConfig, i: nat) returns (out: string)
    ensures out == Text(DeviceTree(d, i))
  {
    hide *;
    ghost var rows := DeviceRows(d, i);
    DeviceRowsAre(d, i);
    RowObjectText(rows, COMPACT);
    out := "{";
    ghost var whole := out + RestText(rows, 0, COMPACT);
    NothingReached(out, rows, COMPACT);
    out := AppendText(out, "id", d.id, 0, COMPACT, whole, rows);
    out := AppendText(out, "name", d.name, 1, COMPACT, whole, rows);
    out := AppendText(out, "lastIpv4", d.lastIpv4, 2, COMPACT, whole, rows);
    out := AppendText(out, "bonjourHost", d.bonjourHost, 3, COMPACT, whole, rows);
    out := AppendNumber(out, "port", d.port, 4, COMPACT, whole, rows);
    out := AppendText(out, "preferredTransport", d.preferredTransport, 5, COMPACT, whole, rows);
    out := AppendNumber(out, "priority", i, 6, COMPACT, whole, rows);
    out := AppendBool(out, "autoConnect", d.autoConnect, 7, COMPACT, whole, rows);
    out := AppendNumber(out, "lastSeen", d.lastSeen, 8, COMPACT, whole, rows);
    out := AppendText(out, "macHint", d.macHint, 9, COMPACT, whole, rows);
    EndReached(out, whole, rows, COMPACT);
    out := out + "}";
  }

  lemma NothingReached(out: string, rows: seq<Row>, l: Layout)
    ensures Reaches(out, out + RestText(rows, 0, l), rows, 0, l)
  {
  }

  lemma EndReached(out: string, whole: string, rows: seq<Row>, l: Layout)
    requires Reaches(out, whole, rows, |rows|, l)
    ensures out + l.last == whole
    ensures l.last == "" ==> out == whole
  {
  }

  /** The text of the devices from `i` on, with the comma or line break before each. */
  function DevicesRest(ds: seq<DeviceConfig>, i: nat): string
    requires i <= |ds|
    decreases |ds| - i
  {
    if i == |ds| then (if ds == [] then "" else "\n")
    else (if i == 0 then "\n" else ",\n") + "    " + Text(DeviceTree(ds[i], i)) + DevicesRest(ds, i + 1)
  }

  lemma {:induction false} ElementsAreRest(ds: seq<DeviceConfig>, i: nat)
    requires i < |ds|
    ensures (if i == 0 then "" else ",") + ElementsText(DeviceElements(ds, i)) == DevicesRest(ds, i) + "  "
    decreases |ds| - i
  {
    hide JsonGrammar.Text, DeviceTree;
    var es := DeviceElements(ds, i);
    var d := Text(DeviceTree(ds[i], i));
    var rest := DevicesRest(ds, i + 1);
    var more := MoreElementsText(es.more);
    assert ElementsText(es) == "\n    " + d + es.trail + more;
    if i + 1 < |ds| {
      ElementsAreRest(ds, i + 1);
      assert es.trail == "" && more == rest + "  ";
    } else {
      assert DeviceElements(ds, i + 1) == NoElement;
      assert es.trail == "\n  " && more == "" && rest == "\n";
    }
    DeviceGrouping(i == 0, d, es.trail, more, rest);
    hide *;
  }

  lemma DeviceGrouping(first: bool, d: string, trail: string, more: string, rest: string)
    requires trail + more == rest + "  "
    ensures (if first then "" else ",") + ("\n    " + d + trail + more) ==
            (if first then "\n" else ",\n") + "    " + d + rest + "  "
  {
    assert "\n    " + d + trail + more == "\n    " + d + (trail + more);
    assert "," + "\n    " == ",\n" + "    ";
    assert "\n    " == "\n" + "    ";
  }

  lemma DevicesText(ds: seq<DeviceConfig>)
    ensures Text(DevicesTree(ds)) == "[" + DevicesRest(ds, 0) + "  ]"
  {
    var t := ElementsText(DeviceElements(ds, 0));
    var rest := DevicesRest(ds, 0);
    assert Text(DevicesTree(ds)) == "[" + (if ds == [] then "  " else "") + t + "]";
    if ds == [] {
      assert t == "" && rest == "";
    } else {
      ElementsAreRest(ds, 0);
      assert t == rest + "  ";
    }
    hide *;
    BracketGrouping(ds == [], t, rest);
  }

  lemma BracketGrouping(empty: bool, t: string, rest: string)
    requires if empty then t == "" && rest == "" else t == rest + "  "
    ensures "[" + (if empty then "  " else "") + t + "]" == "[" + rest + "  ]"
  {
    assert "  ]" == "  " + "]";
  }

  method SerializeDevices(ds: seq<DeviceConfig>) returns (out: string)
    ensures out == Text(DevicesTree(ds))
  {
    DevicesText(ds);
    hide JsonGrammar.Text;
    out := "[";
    ghost var whole := out + DevicesRest(ds, 0);
    var i := 0;
    while i < |ds|
      invariant 0 <= i <= |ds|
      invariant out + DevicesRest(ds, i) == whole
    {
      DeviceAppended(out, whole, ds, i);
      var d := SerializeDevice(ds[i], i);
      out := out + (if i == 0 then "\n" else ",\n") + "    " + d;
      i := i + 1;
    }
    if ds != [] {
      out := out + "\n";
    }
    assert out == whole;
    out := out + "  ]";
  }

  lemma DeviceAppended(out: string, whole: string, ds: seq<DeviceConfig>, i: nat)
    requires i < |ds| && out + DevicesRest(ds, i) == whole
    ensures out + (if i == 0 then "\n" else ",\n") + "    " + Text(DeviceTree(ds[i], i)) + DevicesRest(ds, i + 1) == whole
  {
    hide JsonGrammar.Text, DeviceTree;
  }

  lemma RootRowsAre(c: Config)
    ensures var rows := RootRows(c);
            && |rows| == 16 && LINES.last == "\n"
            && RootTree(c) == Obj("", RowMembers(rows, LINES))
            && rows[0] == Row("version", NumberValue(CURRENT_VERSION))
            && rows[1] == Row("devices", DevicesTree(c.devices))
            && rows[2] == Row("port", NumberValue(c.port))
            && rows[3] == Row("autoReconnect", Bool(c.autoReconnect))
            && rows[4] == Row("fps", NumberValue(c.fps))
            && rows[5] == Row("bitrateMbps", NumberValue(c.bitrateMbps))
            && rows[6] == Row("streamProfile", NumberValue(ProfileCode(c.streamProfile)))
            && rows[7] == Row("requirePrivateNetwork", Bool(c.requirePrivateNetwork))
            && rows[8] == Row("showLauncher", Bool(c.showLauncher))
            && rows[9] == Row("launcherMode", NumberValue(ModeCode(c.launcherMode)))
            && rows[10] == Row("darkTheme", Bool(c.darkTheme))
            && rows[11] == Row("taskbarRouting", Bool(c.taskbarRouting))
            && rows[12] == Row("preferredDeviceId", TextValue(c.preferredDeviceId))
            && rows[13] == Row("lastConnectionTransport", TextValue(c.lastConnectionTransport))
            && rows[14] == Row("lastWifiAddress", TextValue(c.lastWifiAddress))
            && rows[15] == Row("lastUsbTarget", TextValue(c.lastUsbTarget))
  {
    hide TextValue, NumberValue, DevicesTree, RowMembers, ProfileCode, ModeCode;
  }

  /** The whole file: the text of the tree, and a line break. */
  method Serialize(c: Config) returns (out: string)
    ensures out == "" + Text(RootTree(c)) + "\n"
  {
    hide *;
    ghost var rows := RootRows(c);
    RootRowsAre(c);
    RowObjectText(rows, LINES);
    out := "{";
    ghost var whole := out + RestText(rows, 0, LINES);
    NothingReached(out, rows, LINES);
    out := AppendNumber(out, "version", CURRENT_VERSION, 0, LINES, whole, rows);
    var devices := SerializeDevices(c.devices);
    out := Append(out, "devices", devices, 1, LINES, whole, rows);
    out := AppendNumber(out, "port", c.port, 2, LINES, whole, rows);
    out := AppendBool(out, "autoReconnect", c.autoReconnect, 3, LINES, whole, rows);
    out := AppendNumber(out, "fps", c.fps, 4, LINES, whole, rows);
    out := AppendNumber(out, "bitrateMbps", c.bitrateMbps, 5, LINES, whole, rows);
    out := AppendNumber(out, "streamProfile", ProfileCode(c.streamProfile), 6, LINES, whole, rows);
    out := AppendBool(out, "requirePrivateNetwork", c.requirePrivateNetwork, 7, LINES, whole, rows);
    out := AppendBool(out, "showLauncher", c.showLauncher, 8, LINES, whole, rows);
    out := AppendNumber(out, "launcherMode", ModeCode(c.launcherMode), 9, LINES, whole, rows);
    out := AppendBool(out, "darkTheme", c.darkTheme, 10, LINES, whole, rows);
    out := AppendBool(out, "taskbarRouting", c.taskbarRouting, 11, LINES, whole, rows);
    out := AppendText(out, "preferredDeviceId", c.preferredDeviceId, 12, LINES, whole, rows);
    out := AppendText(out, "lastConnectionTransport", c.lastConnectionTransport, 13, LINES, whole, rows);
    out := AppendText(out, "lastWifiAddress", c.lastWifiAddress, 14, LINES, whole, rows);
    out := AppendText(out, "lastUsbTarget", c.lastUsbTarget, 15, LINES, whole, rows);
    EndReached(out, whole, rows, LINES);
    Closing(out, whole);
    out := out + "\n}\n";
  }

  lemma Closing(out: string, whole: string)
    requires out + "\n" == whole
    ensures out + "\n}\n" == "" + (whole + "}") + "\n"
  {
  }
}
