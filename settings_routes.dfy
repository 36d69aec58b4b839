// The settings API: reading and upserting the key/value Settings table,
// resetting it to the defaults, and listing and refreshing the
// CaptureInterface table.

module SettingsRoutes {
  import opened Common
  import opened PacketCapture

  // ---------------------------------------------------------------------
  // The Settings table

  /** A Settings row; `key` is declared unique. */
  datatype Setting = Setting(key: string, value: string, description: Option<string>)

  predicate HasSetting(rows: seq<Setting>, key: string)
  {
    exists i :: 0 <= i < |rows| && rows[i].key == key
  }

  predicate KeysUnique(rows: seq<Setting>)
  {
    forall i, j :: 0 <= i < j < |rows| ==> rows[i].key != rows[j].key
  }

  /** The first row with `key`: what `filter_by(key=key).first()` finds. */
  function FindKey(rows: seq<Setting>, key: string): (r: Option<nat>)
    ensures r.Some? ==> r.value < |rows| && rows[r.value].key == key &&
                        forall j :: 0 <= j < r.value ==> rows[j].key != key
    ensures r.None? <==> !HasSetting(rows, key)
  {
    if rows == [] then None
    else if rows[0].key == key then Some(0)
    else match FindKey(rows[1..], key)
      case None =>
        assert forall j :: 1 <= j < |rows| ==> rows[j] == rows[1..][j - 1];
        None
      case Some(k) => Some(k + 1)
  }

  function Lookup(rows: seq<Setting>, key: string): Option<Setting>
  {
    match FindKey(rows, key)
    case None => None
    case Some(i) => Some(rows[i])
  }

  /** Where a row is found depends on the keys alone. */
  lemma FindKeyByKeys(a: seq<Setting>, b: seq<Setting>, key: string)
    requires |a| == |b| && forall j :: 0 <= j < |a| ==> a[j].key == b[j].key
    ensures FindKey(a, key) == FindKey(b, key)
  {
    if FindKey(a, key).Some? {
      assert b[FindKey(a, key).value].key == key;
    }
    if FindKey(b, key).Some? {
      assert a[FindKey(b, key).value].key == key;
    }
  }

  /** One iteration of update_settings: change the value of the row found, or add a row with no description. */
  function Upsert(rows: seq<Setting>, key: string, value: string): seq<Setting>
  {
    match FindKey(rows, key)
    case Some(i) => rows[i := rows[i].(value := value)]
    case None => rows + [Setting(key, value, None)]
  }

  /** The table after the whole loop over the request's items. */
  function Updated(rows: seq<Setting>, items: seq<(string, string)>): seq<Setting>
  {
    if items == [] then rows
    else
      var last := items[|items| - 1];
      Upsert(Updated(rows, items[..|items| - 1]), last.0, last.1)
  }

  /** The value the request gives `key`: the last item for that key. */
  function LastValue(items: seq<(string, string)>, key: string): Option<string>
  {
    if items == [] then None
    else if items[|items| - 1].0 == key then Some(items[|items| - 1].1)
    else LastValue(items[..|items| - 1], key)
  }

  /** The row an upsert of `value` makes of what was found for the key. */
  function UpsertedRow(found: Option<Setting>, key: string, value: string): Setting
  {
    match found
    case Some(s) => s.(value := value)
    case None => Setting(key, value, None)
  }

  /** An upsert changes what the written key finds and nothing else. */
  lemma UpsertLookup(rows: seq<Setting>, k: string, v: string, key: string)
    ensures Lookup(Upsert(rows, k, v), key) ==
      if key == k then Some(UpsertedRow(Lookup(rows, k), k, v)) else Lookup(rows, key)
  {
    var r := Upsert(rows, k, v);
    match FindKey(rows, k) {
      case Some(i) =>
        FindKeyByKeys(rows, r, key);
      case None =>
        if FindKey(rows, key).Some? {
          assert r[FindKey(rows, key).value] == rows[FindKey(rows, key).value];
          assert forall j :: 0 <= j < FindKey(rows, key).value ==> r[j] == rows[j];
        } else {
          assert forall j :: 0 <= j < |rows| ==> r[j] == rows[j];
          if key == k {
            assert r[|rows|].key == key;
          } else {
            assert !HasSetting(r, key) by {
              assert forall j :: 0 <= j < |r| ==> r[j].key != key;
            }
          }
        }
    }
  }

  /**
   * update_settings: a key of the request finds its last value there, keeping
   * its description, or null for a new key; any other key finds what it found before.
   */
  lemma {:induction false} UpdatedLookup(rows: seq<Setting>, items: seq<(string, string)>, key: string)
    ensures LastValue(items, key).None? ==> Lookup(Updated(rows, items), key) == Lookup(rows, key)
    ensures LastValue(items, key).Some? ==>
      Lookup(Updated(rows, items), key) == Some(UpsertedRow(Lookup(rows, key), key, LastValue(items, key).value))
  {
    if items != [] {
      var init := items[..|items| - 1];
      var last := items[|items| - 1];
      UpdatedLookup(rows, init, key);
      UpsertLookup(Updated(rows, init), last.0, last.1, key);
    }
  }

  lemma UpsertKeepsKeysUnique(rows: seq<Setting>, k: string, v: string)
    requires KeysUnique(rows)
    ensures KeysUnique(Upsert(rows, k, v))
  {
  }

  /** The unique key of the table survives any update. */
  lemma {:induction false} UpdatedKeepsKeysUnique(rows: seq<Setting>, items: seq<(string, string)>)
    requires KeysUnique(rows)
    ensures KeysUnique(Updated(rows, items))
  {
    if items != [] {
      var last := items[|items| - 1];
      UpdatedKeepsKeysUnique(rows, items[..|items| - 1]);
      UpsertKeepsKeysUnique(Updated(rows, items[..|items| - 1]), last.0, last.1);
    }
  }

  /** `default_settings` in its written order. */
  const DEFAULT_SETTINGS: seq<(string, string)> := [
    ("capture_timeout", "60"),
    ("max_packet_buffer", "10000"),
    ("flow_collector_port", "9995"),
    ("flow_analysis_interval", "60"),
    ("anomaly_check_interval", "300"),
    ("anomaly_threshold", "3.0"),
    ("items_per_page", "50"),
    ("chart_refresh_interval", "5000")
  ]

  function DefaultRows(): (r: seq<Setting>)
    ensures |r| == |DEFAULT_SETTINGS|
    ensures forall i :: 0 <= i < |r| ==> r[i] == Setting(DEFAULT_SETTINGS[i].0, DEFAULT_SETTINGS[i].1, None)
  {
    seq(|DEFAULT_SETTINGS|, i requires 0 <= i < |DEFAULT_SETTINGS| =>
      Setting(DEFAULT_SETTINGS[i].0, DEFAULT_SETTINGS[i].1, None))
  }

  /** Four letters of a key that already tell the eight default keys apart. */
  function Signature(s: string): seq<char>
    requires |s| >= 9
  {
    [s[0], s[1], s[5], s[8]]
  }

  lemma DefaultKeysUnique()
    ensures |DefaultRows()| == 8 && KeysUnique(DefaultRows())
  {
    var r := DefaultRows();
    var sigs := ["cart", "maae", "flcl", "flal", "anlc", "anlt", "it_r", "ch_f"];
    forall i | 0 <= i < 8 ensures |r[i].key| >= 9 && Signature(r[i].key) == sigs[i] {
      assert r[i].key == DEFAULT_SETTINGS[i].0;
    }
    forall i, j | 0 <= i < j < 8 ensures r[i].key != r[j].key {
      assert sigs[i] != sigs[j];
    }
  }

  /** The reset table holds the eight defaults, each key once, each with its default value. */
  lemma DefaultRowsLookup()
    ensures |DefaultRows()| == 8
    ensures KeysUnique(DefaultRows())
    ensures forall i :: 0 <= i < 8 ==>
      Lookup(DefaultRows(), DEFAULT_SETTINGS[i].0) == Some(Setting(DEFAULT_SETTINGS[i].0, DEFAULT_SETTINGS[i].1, None))
    ensures Lookup(DefaultRows(), "flow_collector_port").Some? &&
            Lookup(DefaultRows(), "flow_collector_port").value.value == "9995"
  {
    var r := DefaultRows();
    DefaultKeysUnique();
    forall i | 0 <= i < 8
      ensures Lookup(r, DEFAULT_SETTINGS[i].0) == Some(Setting(DEFAULT_SETTINGS[i].0, DEFAULT_SETTINGS[i].1, None))
    {
      assert FindKey(r, DEFAULT_SETTINGS[i].0) == Some(i);
    }
    assert DEFAULT_SETTINGS[2].0 == "flow_collector_port";
  }

  /** Where a database commit of the route raises, if anywhere. */
  datatype CommitFailure = NoFailure | DeleteFails | InsertFails

  /** The JSON answer `{'success': ...}` and its HTTP status. */
  datatype Response = Response(success: bool, status: int)

  /** What `settings_dict` holds for a row. */
  datatype SettingEntry = SettingEntry(value: string, description: Option<string>)

  function EntryOf(s: Setting): SettingEntry
  {
    SettingEntry(s.value, s.description)
  }

  class SettingsTable {
    var rows: seq<Setting>

    constructor ()
      ensures rows == []
    {
      rows := [];
    }

    /**
     * update_settings: the loop works on the session; the commit makes it the
     * table, and a commit that raises leaves the table as it was. The body's
     * `items()` are the key and value pairs; a body that is not a JSON object fails
     * before the loop and leaves the table as it was.
     */
    method UpdateSettings(body: Body<seq<(string, string)>>, commits: bool) returns (response: Response)
      modifies this
      ensures !body.JsonObject? ==> rows == old(rows) && response == Response(false, BodyErrorStatus(body))
      ensures body.JsonObject? && commits ==> rows == Updated(old(rows), body.fields) && response == Response(true, 200)
      ensures body.JsonObject? && !commits ==> rows == old(rows) && response == Response(false, 500)
    {
      if !body.JsonObject? {
        return Response(false, BodyErrorStatus(body));
      }
      var items := body.fields;
      var session := rows;
      for k := 0 to |items|
        invariant session == Updated(rows, items[..k])
      {
        assert items[..k + 1][..k] == items[..k];
        var found := FindKey(session, items[k].0);
        if found.Some? {
          session := session[found.value := session[found.value].(value := items[k].1)];
        } else {
          session := session + [Setting(items[k].0, items[k].1, None)];
        }
      }
      assert items[..|items|] == items;
      if !commits {
        return Response(false, 500);
      }
      rows := session;
      response := Response(true, 200);
    }

    /**
     * reset_settings: the delete is committed before the defaults are added, so
     * a failure of the second commit leaves the table empty.
     */
    method ResetSettings(failure: CommitFailure) returns (response: Response)
      modifies this
      ensures failure == NoFailure ==> rows == DefaultRows() && response == Response(true, 200)
      ensures failure == DeleteFails ==> rows == old(rows) && response == Response(false, 500)
      ensures failure == InsertFails ==> rows == [] && response == Response(false, 500)
    {
      if failure == DeleteFails {
        return Response(false, 500);
      }
      rows := [];
      var session: seq<Setting> := [];
      for k := 0 to |DEFAULT_SETTINGS|
        invariant session == DefaultRows()[..k]
      {
        session := session + [Setting(DEFAULT_SETTINGS[k].0, DEFAULT_SETTINGS[k].1, None)];
      }
      if failure == InsertFails {
        return Response(false, 500);
      }
      rows := session;
      response := Response(true, 200);
    }

    /** get_settings: the loop over the rows, each writing its key's entry. */
    method GetSettings() returns (d: map<string, SettingEntry>)
      ensures d == SettingsDict(rows)
    {
      d := map[];
      for k := 0 to |rows|
        invariant d == SettingsDict(rows[..k])
      {
        assert rows[..k + 1][..k] == rows[..k];
        d := d[rows[k].key := EntryOf(rows[k])];
      }
      assert rows[..|rows|] == rows;
    }
  }

  /** The dictionary get_settings builds from `rows`: a later row overwrites an earlier one's key. */
  function SettingsDict(rows: seq<Setting>): map<string, SettingEntry>
  {
    if rows == [] then map[]
    else SettingsDict(rows[..|rows| - 1])[rows[|rows| - 1].key := EntryOf(rows[|rows| - 1])]
  }

  /** One entry per key of the table. */
  lemma {:induction false} SettingsDictKeys(rows: seq<Setting>)
    ensures forall key :: key in SettingsDict(rows) <==> HasSetting(rows, key)
  {
    if rows != [] {
      var init := rows[..|rows| - 1];
      var last := rows[|rows| - 1];
      SettingsDictKeys(init);
      assert SettingsDict(rows) == SettingsDict(init)[last.key := EntryOf(last)];
      forall key ensures key in SettingsDict(rows) <==> HasSetting(rows, key) {
        if HasSetting(init, key) {
          var i :| 0 <= i < |init| && init[i].key == key;
          assert rows[i].key == key;
        }
        if HasSetting(rows, key) && key != last.key {
          var i :| 0 <= i < |rows| && rows[i].key == key;
          assert init[i].key == key;
        }
      }
    }
  }

  /** A key's entry holds the last row with that key. */
  lemma {:induction false} SettingsDictLast(rows: seq<Setting>, i: int)
    requires 0 <= i < |rows| && forall j :: i < j < |rows| ==> rows[j].key != rows[i].key
    ensures rows[i].key in SettingsDict(rows) && SettingsDict(rows)[rows[i].key] == EntryOf(rows[i])
  {
    var init := rows[..|rows| - 1];
    if i < |init| {
      assert init[i] == rows[i];
      assert forall j :: i < j < |init| ==> init[j] == rows[j];
      SettingsDictLast(init, i);
    }
  }

  /** With unique keys, which get_settings relies on, every row has its entry. */
  lemma SettingsDictComplete(rows: seq<Setting>)
    requires KeysUnique(rows)
    ensures forall key :: HasSetting(rows, key) ==>
      (key in SettingsDict(rows) &&
       Lookup(rows, key) == Some(Setting(key, SettingsDict(rows)[key].value, SettingsDict(rows)[key].description)))
  {
    var d := SettingsDict(rows);
    forall key | HasSetting(rows, key)
      ensures key in d && Lookup(rows, key) == Some(Setting(key, d[key].value, d[key].description))
    {
      var i := FindKey(rows, key).value;
      SettingsDictLast(rows, i);
    }
  }

  // ---------------------------------------------------------------------
  // The CaptureInterface table

  /** get_interfaces: every row, in row order, with every modelled field copied (the `id` column is not modelled). */
  method GetInterfaces(table: InterfaceTable) returns (list: seq<InterfaceRow>)
    ensures |list| == |table.rows|
    ensures forall k :: 0 <= k < |list| ==> list[k] == table.rows[k]
  {
    list := [];
    for k := 0 to |table.rows|
      invariant |list| == k
      invariant forall i :: 0 <= i < k ==> list[i] == table.rows[i]
    {
      var row := table.rows[k];
      list := list + [InterfaceRow(row.name, row.description, row.ipAddress, row.macAddress, row.isUp, row.isLoopback)];
    }
  }

  /** The answer of refresh_network_interfaces; `count` is sent only on success. */
  datatype RefreshResponse = RefreshResponse(success: bool, count: Option<int>, status: int)

  /**
   * refresh_network_interfaces: delete and commit, list the interfaces, add one
   * row each with the `get` defaults ('' for address fields, is_loopback False)
   * and commit again. `available` is the list get_available_interfaces gave.
   */
  method RefreshNetworkInterfaces(table: InterfaceTable, scapyNames: Option<seq<string>>,
                                  systemNames: Option<seq<SystemInterface>>, failure: CommitFailure)
    returns (response: RefreshResponse, available: seq<Interface>)
    modifies table
    ensures failure == DeleteFails ==> table.rows == old(table.rows) && response == RefreshResponse(false, None, 500)
    ensures failure == InsertFails ==> table.rows == [] && response == RefreshResponse(false, None, 500)
    ensures failure != DeleteFails ==> AvailableFrom(scapyNames, systemNames, available)
    ensures failure == NoFailure ==>
      response == RefreshResponse(true, Some(|available|), 200) && |available| > 0 &&
      |table.rows| == |available| &&
      forall k :: 0 <= k < |available| ==> table.rows[k] == RowOfInterface(available[k])
    ensures failure == NoFailure ==>
      forall k :: 0 <= k < |table.rows| ==>
        (table.rows[k].ipAddress == "" && table.rows[k].macAddress == "" &&
         table.rows[k].isLoopback == (available[k].isLoopback == Some(true)))
  {
    if failure == DeleteFails {
      return RefreshResponse(false, None, 500), [];
    }
    table.rows := [];
    available := GetAvailableInterfaces(scapyNames, systemNames);
    var session: seq<InterfaceRow> := [];
    for k := 0 to |available|
      invariant |session| == k
      invariant forall i :: 0 <= i < k ==> session[i] == RowOfInterface(available[i])
    {
      session := session + [RowOfInterface(available[k])];
    }
    if failure == InsertFails {
      return RefreshResponse(false, None, 500), available;
    }
    table.rows := session;
    response := RefreshResponse(true, Some(|available|), 200);
  }
}
