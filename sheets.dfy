/** The two sheets the script reads and writes, below their header rows, and
    the code that moves data between them and the in-memory store and
    ledger: loading the master sheet into `emailMap`, loading the log sheet
    into `processedForms`, writing `emailMap` back over the master sheet, and
    appending the run's new ids to the log sheet. */
module Sheets {
  import opened Text
  import opened Identity
  import opened Ledger

  /** One data row of the master sheet: Name, Email, Count. */
  datatype Row = Row(name: string, email: string, count: int)

  /** A row whose content was cleared. */
  const Blank := Row("", "", 0)

  function Blanks(n: nat): (r: seq<Row>)
    ensures |r| == n && forall i :: 0 <= i < n ==> r[i] == Blank
  {
    seq(n, i => Blank)
  }

  /** The master sheet: `body` holds rows 2 to `getLastRow()`; the header row
      `["Name", "Email", "Count"]` is never written by a run. */
  class OutputSheet {
    var body: seq<Row>

    constructor (body: seq<Row>)
      ensures this.body == body
    {
      this.body := body;
    }
  }

  /** The hidden log sheet: `ids` holds rows 2 to `getLastRow()`, one form id
      per row, below the header `["Processed Form IDs"]`. */
  class LogSheet {
    var ids: seq<string>

    constructor (ids: seq<string>)
      ensures this.ids == ids
    {
      this.ids := ids;
    }
  }

  // ---------------------------------------------------------------------------
  // Loading the master sheet.

  /** The store loaded from the rows: each row's email is lower-cased and
      trimmed; a row whose email is then empty is dropped; a later row with
      the same email overwrites the earlier one's entry but keeps its place. */
  function LoadRows(rows: seq<Row>): Store
    decreases |rows|
  {
    if rows == [] then Empty
    else
      var n := |rows| - 1;
      var email := Normalize(rows[n].email);
      if email != "" then Put(LoadRows(rows[..n]), email, Entry(rows[n].name, rows[n].count))
      else LoadRows(rows[..n])
  }

  /** Every key is a non-empty email that normalising leaves unchanged. */
  predicate Clean(s: Store) {
    forall k :: k in s.entries ==> k != "" && Normalize(k) == k
  }

  /** The loaded store is well formed and clean. */
  lemma {:induction false} LoadRowsClean(rows: seq<Row>)
    ensures LoadRows(rows).Valid() && Clean(LoadRows(rows))
    decreases |rows|
  {
    if rows != [] {
      var n := |rows| - 1;
      LoadRowsClean(rows[..n]);
      if Normalize(rows[n].email) != "" {
        NormalizeIdempotent(rows[n].email);
      }
    }
  }

  /** Every key of the loaded store comes from some row. */
  lemma {:induction false} LoadRowsKeysFromRows(rows: seq<Row>, k: string)
    requires k in LoadRows(rows).entries
    ensures k != "" && exists i :: 0 <= i < |rows| && Normalize(rows[i].email) == k
    decreases |rows|
  {
    var n := |rows| - 1;
    var prefix := rows[..n];
    if k in LoadRows(prefix).entries {
      LoadRowsKeysFromRows(prefix, k);
      var i :| 0 <= i < |prefix| && Normalize(prefix[i].email) == k;
      assert Normalize(rows[i].email) == k;
    } else {
      LoadRowsClean(rows);
      assert Normalize(rows[n].email) == k;
    }
  }

  /** Every row with a non-empty normalised email gives a key. */
  lemma {:induction false} LoadRowsKeysOfRows(rows: seq<Row>, k: string, i: nat)
    requires i < |rows| && Normalize(rows[i].email) == k && k != ""
    ensures k in LoadRows(rows).entries
    decreases |rows|
  {
    var n := |rows| - 1;
    if i < n {
      assert Normalize(rows[..n][i].email) == k;
      LoadRowsKeysOfRows(rows[..n], k, i);
    }
  }

  /** An email is a key of the loaded store exactly when some row's email
      normalises to it. */
  lemma LoadRowsKeys(rows: seq<Row>, k: string)
    ensures k in LoadRows(rows).entries <==> k != "" && exists i :: 0 <= i < |rows| && Normalize(rows[i].email) == k
  {
    if k in LoadRows(rows).entries {
      LoadRowsKeysFromRows(rows, k);
    }
    if k != "" && exists i :: 0 <= i < |rows| && Normalize(rows[i].email) == k {
      var i :| 0 <= i < |rows| && Normalize(rows[i].email) == k;
      LoadRowsKeysOfRows(rows, k, i);
    }
  }

  /** A key's entry in the loaded store is the name and count of the LAST
      row whose email normalises to it. */
  lemma {:induction false} LoadRowsLastWins(rows: seq<Row>, k: string, i: nat)
    requires i < |rows| && Normalize(rows[i].email) == k && k != ""
    requires forall j :: i < j < |rows| ==> Normalize(rows[j].email) != k
    ensures k in LoadRows(rows).entries && LoadRows(rows).entries[k] == Entry(rows[i].name, rows[i].count)
    decreases |rows|
  {
    var n := |rows| - 1;
    var prefix := rows[..n];
    var email := Normalize(rows[n].email);
    assert LoadRows(rows) == if email != "" then Put(LoadRows(prefix), email, Entry(rows[n].name, rows[n].count))
                             else LoadRows(prefix);
    if i < n {
      assert Normalize(prefix[i].email) == k;
      assert forall j :: i < j < n ==> prefix[j] == rows[j];
      LoadRowsLastWins(prefix, k, i);
      assert email != k;
    }
  }

  /** The loop that fills `emailMap` from the master sheet. */
  method LoadStore(sheet: OutputSheet) returns (emailMap: IdentityMap)
    ensures fresh(emailMap) && emailMap.Valid()
    ensures emailMap.Value() == LoadRows(sheet.body)
  {
    emailMap := new IdentityMap();
    var existingData := sheet.body;
    var i := 0;
    while i < |existingData|
      invariant 0 <= i <= |existingData|
      invariant fresh(emailMap) && emailMap.Valid()
      invariant emailMap.Value() == LoadRows(existingData[..i])
    {
      var row := existingData[i];
      var email := Trim(Lower(row.email));
      if email != "" {
        emailMap.Set(email, Entry(row.name, row.count));
      }
      assert existingData[..i + 1][..i] == existingData[..i];
      i := i + 1;
    }
    assert existingData[..i] == existingData;
  }

  // ---------------------------------------------------------------------------
  // Writing the master sheet.

  /** One row per entry, in the store's key order. */
  function RowsOf(s: Store): (rows: seq<Row>)
    requires s.Valid()
  {
    seq(|s.keys|, i requires 0 <= i < |s.keys| => Row(s.entries[s.keys[i]].name, s.keys[i], s.entries[s.keys[i]].count))
  }

  /** The loop that turns `emailMap` into `allRows`. */
  method BuildRows(emailMap: IdentityMap) returns (allRows: seq<Row>)
    requires emailMap.Valid()
    ensures allRows == RowsOf(emailMap.Value())
  {
    allRows := [];
    var keys := emailMap.keys;
    var i := 0;
    while i < |keys|
      invariant 0 <= i <= |keys|
      invariant |allRows| == i
      invariant forall j :: 0 <= j < i ==>
                  allRows[j] == Row(emailMap.entries[keys[j]].name, keys[j], emailMap.entries[keys[j]].count)
    {
      var email := keys[i];
      var data := emailMap.Get(email);
      allRows := allRows + [Row(data.name, email, data.count)];
      i := i + 1;
    }
  }

  /** The master sheet after the export: the new rows from row 2 on, and the
      old rows beyond them cleared. */
  function Overwrite(body: seq<Row>, rows: seq<Row>): (r: seq<Row>)
    ensures |r| == if |body| > |rows| then |body| else |rows|
    ensures r[..|rows|] == rows
    ensures forall i :: |rows| <= i < |r| ==> r[i] == Blank
  {
    if |body| > |rows| then rows + Blanks(|body| - |rows|) else rows
  }

  /** `getRange(2, 1, rows.length, 3).setValues(rows)`. */
  function SetValues(body: seq<Row>, rows: seq<Row>): seq<Row> {
    if |body| > |rows| then rows + body[|rows|..] else rows
  }

  /** `getRange(first + 2, 1, |body| - first, ...).clearContent()`. */
  function ClearFrom(body: seq<Row>, first: nat): seq<Row>
    requires first <= |body|
  {
    body[..first] + Blanks(|body| - first)
  }

  /** The export of the master sheet: write the rows, then clear what is left
      of the old ones; with no rows, clear every old row. */
  method WriteRows(sheet: OutputSheet, allRows: seq<Row>)
    modifies sheet
    ensures sheet.body == Overwrite(old(sheet.body), allRows)
  {
    var oldLastRow := |sheet.body| + 1;
    if |allRows| > 0 {
      sheet.body := SetValues(sheet.body, allRows);
      var newLastRow := |allRows| + 1;
      if oldLastRow > newLastRow {
        sheet.body := ClearFrom(sheet.body, newLastRow - 1);
      }
    } else {
      if oldLastRow > 1 {
        sheet.body := ClearFrom(sheet.body, 0);
      }
    }
  }

  /** Writing the same rows twice leaves what writing them once left. */
  lemma OverwriteTwice(body: seq<Row>, rows: seq<Row>)
    ensures Overwrite(Overwrite(body, rows), rows) == Overwrite(body, rows)
  {
  }

  /** Cleared rows are dropped when the sheet is loaded again. */
  lemma {:induction false} LoadIgnoresBlanks(rows: seq<Row>, n: nat)
    ensures LoadRows(rows + Blanks(n)) == LoadRows(rows)
    decreases n
  {
    if n > 0 {
      var all := rows + Blanks(n);
      assert all[..|all| - 1] == rows + Blanks(n - 1);
      assert all[|all| - 1] == Blank;
      assert Lower("") == "";
      assert Normalize(Blank.email) == "";
      LoadIgnoresBlanks(rows, n - 1);
    } else {
      assert rows + Blanks(n) == rows;
    }
  }

  /** The first `i` entries of a store. */
  function Prefix(s: Store, i: nat): Store
    requires s.Valid() && i <= |s.keys|
  {
    Store(s.keys[..i], map k | k in s.keys[..i] :: s.entries[k])
  }

  /** One more entry of the store is one more `set` on its prefix. */
  lemma PrefixStep(s: Store, i: nat)
    requires s.Valid() && 0 < i <= |s.keys|
    ensures Prefix(s, i) == Put(Prefix(s, i - 1), s.keys[i - 1], s.entries[s.keys[i - 1]])
  {
    var k := s.keys[i - 1];
    assert k !in s.keys[..i - 1];
    assert s.keys[..i] == s.keys[..i - 1] + [k];
    assert Prefix(s, i).entries == Prefix(s, i - 1).entries[k := s.entries[k]];
  }

  /** Loading one more row of a clean store's rows is one more `set`. */
  lemma LoadRowsOfStep(s: Store, i: nat)
    requires s.Valid() && Clean(s) && 0 < i <= |s.keys|
    ensures LoadRows(RowsOf(s)[..i]) == Put(LoadRows(RowsOf(s)[..i - 1]), s.keys[i - 1], s.entries[s.keys[i - 1]])
  {
    var rows := RowsOf(s)[..i];
    assert rows[..i - 1] == RowsOf(s)[..i - 1];
    assert Normalize(rows[i - 1].email) == s.keys[i - 1];
  }

  lemma {:induction false} LoadRowsOfPrefix(s: Store, i: nat)
    requires s.Valid() && Clean(s) && i <= |s.keys|
    ensures LoadRows(RowsOf(s)[..i]) == Prefix(s, i)
    decreases i
  {
    if i > 0 {
      LoadRowsOfPrefix(s, i - 1);
      LoadRowsOfStep(s, i);
      PrefixStep(s, i);
    }
  }

  /** The rows of a clean store load back to the store. */
  lemma LoadRowsOf(s: Store)
    requires s.Valid() && Clean(s)
    ensures LoadRows(RowsOf(s)) == s
  {
    var rows := RowsOf(s);
    LoadRowsOfPrefix(s, |s.keys|);
    assert rows[..|s.keys|] == rows;
    var p := Prefix(s, |s.keys|);
    assert s.keys[..|s.keys|] == s.keys;
    assert p.keys == s.keys;
    assert p.entries == s.entries;
  }

  /** Loading an overwritten sheet sees only the rows written. */
  lemma LoadOverwrite(body: seq<Row>, rows: seq<Row>)
    ensures LoadRows(Overwrite(body, rows)) == LoadRows(rows)
  {
    if |body| > |rows| {
      LoadIgnoresBlanks(rows, |body| - |rows|);
    }
  }

  /** Round trip: a clean store written over any master sheet is loaded
      back unchanged, keys in the same order. */
  lemma ExportThenLoad(s: Store, body: seq<Row>)
    requires s.Valid() && Clean(s)
    ensures LoadRows(Overwrite(body, RowsOf(s))) == s
  {
    LoadOverwrite(body, RowsOf(s));
    LoadRowsOf(s);
  }

  // ---------------------------------------------------------------------------
  // The log sheet.

  /** The loop that fills `processedForms` from the log sheet. */
  method LoadLedger(sheet: LogSheet) returns (processedForms: IdSet)
    ensures fresh(processedForms) && processedForms.Valid()
    ensures forall id :: processedForms.Has(id) <==> id in sheet.ids
  {
    processedForms := new IdSet();
    var existingIds := sheet.ids;
    var i := 0;
    while i < |existingIds|
      invariant 0 <= i <= |existingIds|
      invariant fresh(processedForms) && processedForms.Valid()
      invariant forall id :: id in processedForms.ids <==> id in existingIds[..i]
    {
      ghost var before := processedForms.ids;
      processedForms.Add(existingIds[i]);
      assert processedForms.ids == AddId(before, existingIds[i]);
      assert existingIds[..i + 1] == existingIds[..i] + [existingIds[i]];
      i := i + 1;
    }
    assert existingIds[..i] == existingIds;
  }

  /** Appending the run's new ids after the log sheet's last row. */
  method AppendLedger(sheet: LogSheet, newIds: IdSet)
    modifies sheet
    ensures sheet.ids == old(sheet.ids) + newIds.ids
  {
    if newIds.Size() > 0 {
      var newIdsArray := newIds.ids;
      sheet.ids := sheet.ids + newIdsArray;
    }
  }
}
