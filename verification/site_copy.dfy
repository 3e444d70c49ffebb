/**
 * The editable copy of the landing and completion screens. Both screens
 * query `site_settings` for a fixed list of keys, copy the returned rows into
 * a key-to-value record one row at a time, and show each stored value unless
 * it is missing or empty, in which case the line already on screen stays.
 */
module SiteCopy {
  import opened Wrappers
  import opened Tables

  /** A row of `select('setting_key, setting_value')`. */
  datatype KeyValue = KeyValue(key: string, value: string)

  /** `.in('setting_key', keys)`: the rows whose key is listed, in stored order, reduced to key and value. */
  function Selected(settings: seq<SettingRow>, keys: seq<string>): (r: seq<KeyValue>)
    ensures |r| <= |settings|
    ensures forall i :: 0 <= i < |r| ==> r[i].key in keys
    decreases |settings|
  {
    if settings == [] then []
    else
      var last := settings[|settings| - 1];
      Selected(settings[..|settings| - 1], keys) + (if last.key in keys then [KeyValue(last.key, last.value)] else [])
  }

  /** The value of the last stored row with key `k`, if any: the reference reading of the table. */
  function LastSetting(settings: seq<SettingRow>, k: string): (r: Option<string>)
    ensures r.None? <==> forall i :: 0 <= i < |settings| ==> settings[i].key != k
    decreases |settings|
  {
    if settings == [] then None
    else if settings[|settings| - 1].key == k then Some(settings[|settings| - 1].value)
    else LastSetting(settings[..|settings| - 1], k)
  }

  /** The last stored value under a key is the value of some stored row with that key. */
  lemma {:induction false} LastSettingIsStored(settings: seq<SettingRow>, k: string)
    ensures LastSetting(settings, k).Some? ==>
              exists i :: 0 <= i < |settings| && settings[i].key == k && settings[i].value == LastSetting(settings, k).value
    decreases |settings|
  {
    if settings != [] && settings[|settings| - 1].key != k {
      var init := settings[..|settings| - 1];
      LastSettingIsStored(init, k);
      if LastSetting(settings, k).Some? {
        var i :| 0 <= i < |init| && init[i].key == k && init[i].value == LastSetting(init, k).value;
        assert settings[i] == init[i];
      }
    }
  }

  /** The value of the last row with key `k` among the fetched rows: nothing iff no row carries `k`. */
  function LastValue(rows: seq<KeyValue>, k: string): (r: Option<string>)
    ensures r.None? <==> forall i :: 0 <= i < |rows| ==> rows[i].key != k
    ensures r.Some? ==> exists i :: 0 <= i < |rows| && rows[i] == KeyValue(k, r.value)
    decreases |rows|
  {
    if rows == [] then None
    else if rows[|rows| - 1].key == k then Some(rows[|rows| - 1].value)
    else
      var init := rows[..|rows| - 1];
      assert forall i :: 0 <= i < |init| ==> init[i] == rows[i];
      LastValue(init, k)
  }

  /**
   * The record `data.forEach(item => { settings[item.setting_key] = item.setting_value })`
   * builds: each row overwrites what an earlier row with the same key wrote.
   */
  function Collected(rows: seq<KeyValue>): (m: map<string, string>)
    ensures forall i :: 0 <= i < |rows| ==> rows[i].key in m
    decreases |rows|
  {
    if rows == [] then map[]
    else Collected(rows[..|rows| - 1])[rows[|rows| - 1].key := rows[|rows| - 1].value]
  }

  /** The `forEach` loop itself, proved to build `Collected(rows)`. */
  method CollectSettings(rows: seq<KeyValue>) returns (m: map<string, string>)
    ensures m == Collected(rows)
    ensures forall k :: k in m ==> LastValue(rows, k) == Some(m[k])
    ensures forall k :: k !in m ==> LastValue(rows, k).None?
  {
    m := map[];
    var i := 0;
    while i < |rows|
      invariant 0 <= i <= |rows|
      invariant m == Collected(rows[..i])
    {
      assert rows[..i + 1][..i] == rows[..i];
      m := m[rows[i].key := rows[i].value];
      i := i + 1;
    }
    assert rows[..i] == rows;
    CollectedIsLastValue(rows);
  }

  /** The record holds a key exactly when some row carries it, and then the last such row's value. */
  lemma {:induction false} CollectedIsLastValue(rows: seq<KeyValue>)
    ensures forall k :: k in Collected(rows) <==> LastValue(rows, k).Some?
    ensures forall k :: k in Collected(rows) ==> LastValue(rows, k) == Some(Collected(rows)[k])
    decreases |rows|
  {
    if rows != [] {
      CollectedIsLastValue(rows[..|rows| - 1]);
    }
  }

  /** Restricting the query to the listed keys loses nothing the screens read: for a listed key the last fetched value is the last stored one. */
  lemma {:induction false} SelectedKeepsLast(settings: seq<SettingRow>, keys: seq<string>, k: string)
    requires k in keys
    ensures LastValue(Selected(settings, keys), k) == LastSetting(settings, k)
    decreases |settings|
  {
    if settings != [] {
      var init := settings[..|settings| - 1];
      var last := settings[|settings| - 1];
      SelectedKeepsLast(init, keys, k);
      if last.key in keys {
        var r := Selected(settings, keys);
        assert r[..|r| - 1] == Selected(init, keys);
      } else {
        assert Selected(settings, keys) == Selected(init, keys);
      }
    }
  }

  /** An unlisted key never reaches the record. */
  lemma UnlistedKeyIsAbsent(settings: seq<SettingRow>, keys: seq<string>, k: string)
    requires k !in keys
    ensures k !in Collected(Selected(settings, keys))
  {
    CollectedIsLastValue(Selected(settings, keys));
  }

  /** `settings.key || fallback`: a missing key or an empty string falls back. */
  function Pick(m: map<string, string>, k: string, fallback: string): (r: string)
    ensures k !in m ==> r == fallback
    ensures k in m && m[k] == "" ==> r == fallback
    ensures k in m && m[k] != "" ==> r == m[k]
  {
    if k in m && m[k] != "" then m[k] else fallback
  }

  /** What a screen line shows, read straight off the stored table: the value of the last stored row with key `k` when that value is non-empty, else the fallback. */
  function Shown(settings: seq<SettingRow>, k: string, fallback: string): (r: string)
    ensures r == fallback || exists i :: 0 <= i < |settings| && settings[i].key == k && settings[i].value == r
    ensures (forall i :: 0 <= i < |settings| && settings[i].key == k ==> settings[i].value == "") ==> r == fallback
  {
    LastSettingIsStored(settings, k);
    match LastSetting(settings, k)
    case Some(v) => if v != "" then v else fallback
    case None => fallback
  }

  /** Query, `forEach` and `||` together give the line read straight off the table. */
  lemma PickIsShown(settings: seq<SettingRow>, keys: seq<string>, k: string, fallback: string)
    requires k in keys
    ensures Pick(Collected(Selected(settings, keys)), k, fallback) == Shown(settings, k, fallback)
  {
    CollectedIsLastValue(Selected(settings, keys));
    SelectedKeepsLast(settings, keys, k);
  }

  /** Rows for other keys appended after some stored rows do not change the last value read under `k`. */
  lemma {:induction false} AppendedRowsIgnored(settings: seq<SettingRow>, extra: seq<SettingRow>, k: string)
    requires forall i :: 0 <= i < |extra| ==> extra[i].key != k
    ensures LastSetting(settings + extra, k) == LastSetting(settings, k)
    decreases |extra|
  {
    if extra != [] {
      var init := extra[..|extra| - 1];
      assert (settings + extra)[..|settings + extra| - 1] == settings + init;
      AppendedRowsIgnored(settings, init, k);
    } else {
      assert settings + extra == settings;
    }
  }

  /** Rows for other keys stored anywhere in the table do not change the last value read under `k`. */
  lemma {:induction false} InsertedRowsIgnored(before: seq<SettingRow>, extra: seq<SettingRow>, after: seq<SettingRow>,
                                               k: string)
    requires forall i :: 0 <= i < |extra| ==> extra[i].key != k
    ensures LastSetting(before + extra + after, k) == LastSetting(before + after, k)
    decreases |after|
  {
    if after == [] {
      assert before + extra + after == before + extra;
      assert before + after == before;
      AppendedRowsIgnored(before, extra, k);
    } else {
      var init := after[..|after| - 1];
      var last := after[|after| - 1];
      assert (before + extra + after)[..|before + extra + after| - 1] == before + extra + init;
      assert (before + after)[..|before + after| - 1] == before + init;
      assert (before + extra + after)[|before + extra + after| - 1] == last;
      assert (before + after)[|before + after| - 1] == last;
      InsertedRowsIgnored(before, extra, init, k);
    }
  }

  /** Rows for other keys, wherever they are stored, do not change a line. */
  lemma OtherRowsIgnored(before: seq<SettingRow>, extra: seq<SettingRow>, after: seq<SettingRow>, k: string,
                         fallback: string)
    requires forall i :: 0 <= i < |extra| ==> extra[i].key != k
    ensures Shown(before + extra + after, k, fallback) == Shown(before + after, k, fallback)
  {
    InsertedRowsIgnored(before, extra, after, k);
  }

  /** A stored empty value, as left by clearing a field in the dashboard, shows the fallback. */
  lemma EmptyValueFallsBack(settings: seq<SettingRow>, row: SettingRow, fallback: string)
    requires row.value == ""
    ensures Shown(settings + [row], row.key, fallback) == fallback
  {
    assert (settings + [row])[|settings + [row]| - 1] == row;
  }
}
