/**
 * `onNewFileUpload` of ta_app_script.js, the Apps Script trigger: for every file of the
 * folder whose id is not yet in column B of the "Log" sheet, it calls the Cloud Function
 * and, when the call does not throw, appends `[index, fileId, cleanName, timestamp]`.
 * The folder iterator is the sequence of its files; whether the i-th file's call throws
 * and the time of its append are given by position.
 */
module UploadLog {
  import opened Text

  /** A file of the watched folder. */
  datatype FolderFile = FolderFile(id: string, name: string)

  /** A cell of the log sheet. */
  datatype LogCell = Text(s: string) | Time(t: int)

  type LogRow = seq<LogCell>

  /** The "Log" sheet. */
  class LogSheet {
    var rows: seq<LogRow>

    constructor (initial: seq<LogRow>)
      ensures rows == initial
    {
      rows := initial;
    }

    /** `getRange("B:B").getValues().flat()`: the second cell of every row, empty for a
        row that has none. */
    function ColumnB(): seq<LogCell>
      reads this
    {
      seq(|rows|, i requires 0 <= i < |rows| reads this => if |rows[i]| > 1 then rows[i][1] else Text(""))
    }

    /** `sheet.appendRow(row)`. */
    method AppendRow(row: LogRow)
      modifies this
      ensures rows == old(rows) + [row]
    {
      rows := rows + [row];
    }
  }

  /** A non-empty id is in the snapshot exactly when some row of the sheet holds it in
      its second cell, so `IsNew` means "not logged yet". */
  lemma LoggedIdsInColumnB(sheet: LogSheet, id: string)
    requires id != ""
    ensures Text(id) in sheet.ColumnB() <==>
      exists i :: 0 <= i < |sheet.rows| && |sheet.rows[i]| > 1 && sheet.rows[i][1] == Text(id)
  {
    var col := sheet.ColumnB();
    if Text(id) in col {
      var i :| 0 <= i < |col| && col[i] == Text(id);
      assert |sheet.rows[i]| > 1 && sheet.rows[i][1] == Text(id);
    }
    if exists i :: 0 <= i < |sheet.rows| && |sheet.rows[i]| > 1 && sheet.rows[i][1] == Text(id) {
      var i :| 0 <= i < |sheet.rows| && |sheet.rows[i]| > 1 && sheet.rows[i][1] == Text(id);
      assert col[i] == Text(id);
    }
  }

  /** `fileName.match(/^(\d+)\.\s*\/)`, group 1, or "" when there is no match. The match
      is on the whole file name; the trailing `\s*` can match nothing and does not
      affect the group. */
  function JsIndex(name: string): (index: string)
  {
    var n := DigitRun(name);
    if 0 < n < |name| && name[n] == '.' then name[..n] else ""
  }

  /** The index is the run of digits that directly precedes a '.' at the start of the
      name, and empty exactly when the name does not start that way. */
  lemma JsIndexCases(name: string)
    ensures (JsIndex(name) != "") <==>
      (exists n :: 0 < n < |name| && AllDigits(name[..n]) && name[n] == '.')
    ensures JsIndex(name) != "" ==>
      var n := |JsIndex(name)|;
      0 < n < |name| && JsIndex(name) == name[..n] && AllDigits(name[..n]) && name[n] == '.'
  {
    if exists n :: 0 < n < |name| && AllDigits(name[..n]) && name[n] == '.' {
      var n :| 0 < n < |name| && AllDigits(name[..n]) && name[n] == '.';
      DigitRunStopsAt(name, n);
    }
  }

  /** The index keeps the digits as written, leading zeros included. */
  lemma JsIndexOfIndexedName(digits: string, rest: string)
    requires digits != [] && AllDigits(digits)
    ensures JsIndex(digits + "." + rest) == digits
  {
    var name := digits + "." + rest;
    assert name[..|digits|] == digits;
    DigitRunStopsAt(name, |digits|);
  }

  /** A '.' preceded by `p`, `d`, `f` in either case, at the very end (`/\.pdf$/i`). */
  predicate EndsWithPdf(name: string)
  {
    |name| >= 4 && name[|name| - 4] == '.'
    && (name[|name| - 3] == 'p' || name[|name| - 3] == 'P')
    && (name[|name| - 2] == 'd' || name[|name| - 2] == 'D')
    && (name[|name| - 1] == 'f' || name[|name| - 1] == 'F')
  }

  /** `fileName.replace(/\.pdf$/i, "")`. */
  function CleanName(name: string): (clean: string)
  {
    if EndsWithPdf(name) then name[..|name| - 4] else name
  }

  /** The clean name is the file name less one `.pdf` suffix when it has one, and the file
      name itself otherwise. */
  lemma CleanNameRemovesOneSuffix(name: string)
    ensures var clean := CleanName(name);
      && clean == name[..|clean|]
      && (EndsWithPdf(name) <==> |clean| == |name| - 4)
      && (!EndsWithPdf(name) <==> clean == name)
  {
  }

  /** Only one suffix goes: "a.pdf.PDF" becomes "a.pdf". */
  lemma CleanNameOnce(base: string, suffix: string)
    requires |suffix| == 4 && EndsWithPdf(suffix)
    ensures CleanName(base + ".pdf" + suffix) == base + ".pdf"
  {
    var name := base + ".pdf" + suffix;
    assert name[|name| - 4..] == suffix;
    assert name[..|name| - 4] == base + ".pdf";
  }

  /** The row logged for a file. */
  function LogRowFor(f: FolderFile, time: int): LogRow
  {
    [Text(JsIndex(f.name)), Text(f.id), Text(CleanName(f.name)), Time(time)]
  }

  /** `loggedIds.indexOf(fileId) === -1`. */
  predicate IsNew(snapshot: seq<LogCell>, f: FolderFile)
  {
    Text(f.id) !in snapshot
  }

  /** The positions of the first `n` files that are new and whose call did not throw. */
  function LoggedPositions(snapshot: seq<LogCell>, files: seq<FolderFile>, n: nat, fetchOk: nat -> bool): seq<nat>
    requires n <= |files|
  {
    if n == 0 then []
    else
      LoggedPositions(snapshot, files, n - 1, fetchOk)
        + (if IsNew(snapshot, files[n - 1]) && fetchOk(n - 1) then [n - 1] else [])
  }

  /** The ids the Cloud Function is called with, for the first `n` files. */
  function TriggeredIds(snapshot: seq<LogCell>, files: seq<FolderFile>, n: nat): seq<string>
    requires n <= |files|
  {
    if n == 0 then []
    else
      TriggeredIds(snapshot, files, n - 1)
        + (if IsNew(snapshot, files[n - 1]) then [files[n - 1].id] else [])
  }

  /** The rows appended for the first `n` files. */
  function LogRows(snapshot: seq<LogCell>, files: seq<FolderFile>, n: nat,
                   fetchOk: nat -> bool, clock: nat -> int): seq<LogRow>
    requires n <= |files|
  {
    if n == 0 then []
    else
      LogRows(snapshot, files, n - 1, fetchOk, clock)
        + (if IsNew(snapshot, files[n - 1]) && fetchOk(n - 1) then [LogRowFor(files[n - 1], clock(n - 1))] else [])
  }

  /** `onNewFileUpload`: `fetchOk(i)` says whether `UrlFetchApp.fetch` returns for the
      i-th file of the folder, `clock(i)` is the time of that file's append. Returns the
      ids sent to the Cloud Function, in order. */
  method OnNewFileUpload(sheet: LogSheet, files: seq<FolderFile>, fetchOk: nat -> bool, clock: nat -> int)
    returns (triggered: seq<string>)
    modifies sheet
    ensures sheet.rows == old(sheet.rows) + LogRows(old(sheet.ColumnB()), files, |files|, fetchOk, clock)
    ensures triggered == TriggeredIds(old(sheet.ColumnB()), files, |files|)
  {
    var loggedIds := sheet.ColumnB();
    ghost var start := sheet.rows;
    triggered := [];
    var i := 0;
    while i < |files|
      invariant i <= |files|
      invariant sheet.rows == start + LogRows(loggedIds, files, i, fetchOk, clock)
      invariant triggered == TriggeredIds(loggedIds, files, i)
    {
      var file := files[i];
      if Text(file.id) !in loggedIds {
        var index := JsIndex(file.name);
        var cleanName := CleanName(file.name);
        triggered := triggered + [file.id];
        if fetchOk(i) {
          sheet.AppendRow([Text(index), Text(file.id), Text(cleanName), Time(clock(i))]);
        }
      }
      i := i + 1;
    }
  }

  /** The logged positions are increasing, and a position is logged exactly when its file
      is new and its call did not throw: files already in the snapshot are skipped, and a
      call that throws loses only its own row. */
  lemma {:induction false} LoggedPositionsExact(snapshot: seq<LogCell>, files: seq<FolderFile>, n: nat,
                                                fetchOk: nat -> bool)
    requires n <= |files|
    ensures var ps := LoggedPositions(snapshot, files, n, fetchOk);
      && (forall k :: 0 <= k < |ps| ==> ps[k] < n)
      && (forall k, l :: 0 <= k < l < |ps| ==> ps[k] < ps[l])
      && (forall i :: 0 <= i < n ==> (i in ps <==> IsNew(snapshot, files[i]) && fetchOk(i)))
    decreases n
  {
    if n > 0 {
      LoggedPositionsExact(snapshot, files, n - 1, fetchOk);
    }
  }

  /** The k-th appended row is the row of the k-th logged file: rows follow the folder's
      iteration order, one per logged file. */
  lemma {:induction false} LogRowsFollowPositions(snapshot: seq<LogCell>, files: seq<FolderFile>, n: nat,
                                                  fetchOk: nat -> bool, clock: nat -> int)
    requires n <= |files|
    ensures var ps := LoggedPositions(snapshot, files, n, fetchOk);
      var rows := LogRows(snapshot, files, n, fetchOk, clock);
      && |rows| == |ps|
      && (forall k :: 0 <= k < |ps| ==> ps[k] < |files| && rows[k] == LogRowFor(files[ps[k]], clock(ps[k])))
    decreases n
  {
    if n > 0 {
      LogRowsFollowPositions(snapshot, files, n - 1, fetchOk, clock);
      LoggedPositionsExact(snapshot, files, n - 1, fetchOk);
    }
  }

  /** The Cloud Function is called for exactly the new files, in order, whether or not
      the call then throws. */
  lemma {:induction false} TriggeredExactlyNew(snapshot: seq<LogCell>, files: seq<FolderFile>, n: nat, id: string)
    requires n <= |files|
    ensures id in TriggeredIds(snapshot, files, n) <==>
      exists i :: 0 <= i < n && files[i].id == id && IsNew(snapshot, files[i])
    decreases n
  {
    if n > 0 {
      TriggeredExactlyNew(snapshot, files, n - 1, id);
    }
  }

  /** New files are judged against the snapshot alone, never against the rows the loop
      appends: by `LogRows`, an id that is new and occurs twice in `files` is logged twice,
      in order, when both calls succeed. One `getFiles()` pass gives each id once, so this
      says what the membership test is applied to rather than a case a folder produces.
      That the snapshot is read once, before the loop, is `OnNewFileUpload`'s
      `old(sheet.ColumnB())`. */
  lemma SnapshotNotRefreshed(snapshot: seq<LogCell>, files: seq<FolderFile>, i: nat, j: nat,
                             fetchOk: nat -> bool, clock: nat -> int)
    requires i < j < |files| && files[i].id == files[j].id
    requires IsNew(snapshot, files[i]) && fetchOk(i) && fetchOk(j)
    ensures var rows := LogRows(snapshot, files, |files|, fetchOk, clock);
      exists k, l :: 0 <= k < l < |rows|
        && rows[k] == LogRowFor(files[i], clock(i)) && rows[l] == LogRowFor(files[j], clock(j))
  {
    var ps := LoggedPositions(snapshot, files, |files|, fetchOk);
    LoggedPositionsExact(snapshot, files, |files|, fetchOk);
    LogRowsFollowPositions(snapshot, files, |files|, fetchOk, clock);
    var k :| 0 <= k < |ps| && ps[k] == i;
    var l :| 0 <= l < |ps| && ps[l] == j;
  }

  /** Every appended row is the row of a file that was new and whose call returned. */
  lemma LoggedRowsWereNew(snapshot: seq<LogCell>, files: seq<FolderFile>, fetchOk: nat -> bool,
                          clock: nat -> int, k: nat)
    requires k < |LogRows(snapshot, files, |files|, fetchOk, clock)|
    ensures exists i :: (0 <= i < |files| && IsNew(snapshot, files[i]) && fetchOk(i)
      && LogRows(snapshot, files, |files|, fetchOk, clock)[k] == LogRowFor(files[i], clock(i)))
  {
    LogRowsFollowPositions(snapshot, files, |files|, fetchOk, clock);
    LoggedPositionsExact(snapshot, files, |files|, fetchOk);
    var ps := LoggedPositions(snapshot, files, |files|, fetchOk);
    assert ps[k] in ps;
  }
}
