/**
 * The rotating log store LogFile2 (src/LogFile2.cpp).
 *
 * The embedded database and the filesystem are the state of the class: the
 * map `files` from path to what the path holds, the connection flag `dbOpen`
 * (m_db), the two cached statements (m_stmt, m_insert_stmt), and the open
 * transaction with the rows it has inserted but not committed. Every public
 * call is one atomic step (the mutex is not modelled). The clock, the result
 * of `rename` and the two pragmas are parameters.
 */
module LogStore {
  import opened CInt
  import opened Sqlite
  import opened LogMsg

  /** The exceptions the store raises. */
  datatype Error =
    | Misuse                                  // "Programming problem using the sqlite3 interface."
    | Engine(code: int)                       // "Sqlite3 Error: ..." for every other failing code
    | RenameFailed(from: string, to: string)  // "Error renaming existing log file ..."

  datatype Outcome = Pass | Fail(error: Error)

  datatype Result<T> = Ok(value: T) | Err(error: Error)

  /** The externally visible steps of the store, in the order it takes them. */
  datatype Step =
    | Begin
    | Insert(rowid: nat)
    | Commit
    | SizeCheck(total: nat)
    | CloseHandles
    | Rename(from: string, to: string)
    | Zip(entry: string, archive: string)
    | Delete(path: string)
    | Setup(path: string)

  /** LogFile2::check_err: "ok" and "no more rows" give 0, "a row" gives 1, misuse and every other code raise. */
  function CheckErr(rc: int): (r: Result<int>)
    ensures r.Ok? <==> rc == SQLITE_OK || rc == SQLITE_ROW || rc == SQLITE_DONE
    ensures r.Ok? ==> (r.value == 1 <==> rc == SQLITE_ROW) && (r.value == 0 <==> rc != SQLITE_ROW)
    ensures r.Err? ==> (r.error == Misuse <==> rc == SQLITE_MISUSE)
    ensures r.Err? && rc != SQLITE_MISUSE ==> r.error == Engine(rc)
  {
    if rc == SQLITE_OK then Ok(0)
    else if rc == SQLITE_ROW then Ok(1)
    else if rc == SQLITE_DONE then Ok(0)
    else if rc == SQLITE_MISUSE then Err(Misuse)
    else Err(Engine(rc))
  }

  /** The outcome of a CheckErr whose result the caller ignores. */
  function Checked(rc: int): Outcome
  {
    match CheckErr(rc)
    case Ok(_) => Pass
    case Err(e) => Fail(e)
  }

  // ---------------------------------------------------------------------
  // Binding a record to the insert statement and reading a row back
  // ---------------------------------------------------------------------

  /**
   * A text bind succeeds unless the text is longer than the engine's length
   * limit. The `(int)` cast of the length changes nothing: a twine's length
   * is already an int.
   */
  predicate TextFits(s: Twine)
  {
    |s| <= MAX_LENGTH
  }

  /** The four text binds of an insert succeed (the file name, the application, the machine and the message). */
  predicate TextsFit(r: Record)
  {
    TextFits(r.file) && TextFits(r.appName) && TextFits(r.machineName) && TextFits(r.msg)
  }

  /** The row the insert stores: parameters 1..9 in column order, the wide integers cast to int. */
  function Encode(r: Record, rowid: nat): Row
  {
    Row(rowid, r.file, r.line, ToInt32(r.tid), ToInt32(r.seconds), ToInt32(r.micros),
        r.channel, r.appName, r.machineName, r.msg)
  }

  /**
   * The insert of a record succeeds: every text bind passes, and the step
   * then builds a row record within the length limit (the row id does not
   * enter the record).
   */
  predicate Insertable(r: Record)
  {
    TextsFit(r) && RecordSize(Encode(r, 0)) <= MAX_LENGTH
  }

  /** The record getMessage(s) builds from a row: a default LogMsg with columns 0..9 assigned. */
  function Decode(row: Row): (d: Record)
    ensures row.id <= INT32_MAX ==> d.id == row.id
    ensures d.file == row.file && d.appName == row.appName && d.machineName == row.machineName && d.msg == row.msg
    ensures !d.msgStatic
  {
    Record(ToInt32(row.id), row.file, row.line, row.tid, row.timestampA, row.timestampB,
           row.channel, row.appName, row.machineName, row.msg, false)
  }

  /** The rows a batch inserts when the first gets row id `base`. */
  function BatchRows(recs: seq<Record>, base: nat): (rows: seq<Row>)
    ensures |rows| == |recs|
    ensures forall k :: 0 <= k < |recs| ==> rows[k] == Encode(recs[k], base + k)
  {
    seq(|recs|, k requires 0 <= k < |recs| => Encode(recs[k], base + k))
  }

  /** The steps of `n` inserts whose first row id is `base`. */
  function InsertSteps(base: nat, n: nat): (steps: seq<Step>)
    ensures |steps| == n
    ensures forall k :: 0 <= k < n ==> steps[k] == Insert(base + k)
  {
    seq(n, k requires 0 <= k < n => Insert(base + k))
  }

  /** How many records of a batch insert before the first one the engine refuses. */
  function FirstRefused(recs: seq<Record>): (n: nat)
    ensures n <= |recs|
    ensures forall k :: 0 <= k < n ==> Insertable(recs[k])
    ensures n < |recs| ==> !Insertable(recs[n])
  {
    if recs == [] || !Insertable(recs[0]) then 0 else 1 + FirstRefused(recs[1..])
  }

  /** The last position before `n` that holds the object `m`, if any does. */
  function LastIndex(ms: seq<LogMsg>, m: LogMsg, n: nat): (r: Option<nat>)
    requires n <= |ms|
    ensures r.Some? ==> r.value < n && ms[r.value] == m && forall i :: r.value < i < n ==> ms[i] != m
    ensures r.None? ==> forall i :: 0 <= i < n ==> ms[i] != m
  {
    if n == 0 then None
    else if ms[n - 1] == m then Some(n - 1)
    else LastIndex(ms, m, n - 1)
  }

  /** The ids of a batch after writing `id` into the object `m`: every position holding `m` changes. */
  function Stamp(ms: seq<LogMsg>, ids: seq<Int32>, m: LogMsg, id: Int32): (r: seq<Int32>)
    requires |ids| == |ms|
    ensures |r| == |ms|
    ensures forall j {:trigger r[j]} :: 0 <= j < |ms| ==> r[j] == if ms[j] == m then id else ids[j]
  {
    seq(|ms|, j requires 0 <= j < |ms| => if ms[j] == m then id else ids[j])
  }

  lemma BatchStep(recs: seq<Record>, base: nat, i: nat)
    requires i < |recs|
    ensures BatchRows(recs[..i + 1], base) == BatchRows(recs[..i], base) + [Encode(recs[i], base + i)]
  {
  }

  lemma InsertStepsStep(base: nat, i: nat)
    ensures InsertSteps(base, i + 1) == InsertSteps(base, i) + [Insert(base + i)]
  {
  }

  /** The ids of a batch after its first `n` inserts from row id `base`, each stamping its row id into its object. */
  function StampAll(ms: seq<LogMsg>, ids: seq<Int32>, base: nat, n: nat): (r: seq<Int32>)
    requires |ids| == |ms| && n <= |ms|
    ensures |r| == |ms|
    decreases n
  {
    if n == 0 then ids else Stamp(ms, StampAll(ms, ids, base, n - 1), ms[n - 1], ToInt32(base + n - 1))
  }

  // ---------------------------------------------------------------------
  // What Setup, createNewFile and the constructor do to the files
  // ---------------------------------------------------------------------

  /** The table `logtable` at `name`, if the path holds a database that has one. */
  function ActiveTable(fs: FileMap, name: string): Option<Table>
  {
    if name in fs && fs[name].Database? then fs[name].logtable else None
  }

  /** Setup's effect: open (creating an empty database at a free path), then create `logtable` if absent. */
  function SetupFiles(fs: FileMap, name: string): FileMap
  {
    var content := if name in fs then fs[name] else Database(None);
    if content.Database? && content.logtable.None? then fs[name := Database(Some(NewTable()))]
    else fs[name := content]
  }

  /** Setup raises when the catalog query cannot be prepared because the file is no database. */
  function SetupOutcome(fs: FileMap, name: string): Outcome
  {
    if name in fs && !fs[name].Database? then Checked(SQLITE_NOTADB) else Pass
  }

  /** Setup created the table (and then keeps the create statement in m_stmt). */
  predicate SetupCreates(fs: FileMap, name: string)
  {
    name !in fs || fs[name] == Database(None)
  }

  function RotatedName(name: string, stamp: string): string
  {
    name + "." + stamp
  }

  function ArchiveName(name: string, stamp: string): string
  {
    RotatedName(name, stamp) + ".zip"
  }

  /** rename() fails when the oracle says so or when there is nothing at the path. */
  predicate RenameSucceeds(fs: FileMap, name: string, renameOk: bool)
  {
    renameOk && name in fs
  }

  /** The files after a successful rename, zip and delete, before the final Setup. */
  function ArchivedFiles(fs: FileMap, name: string, stamp: string): FileMap
    requires name in fs
  {
    var newName := RotatedName(name, stamp);
    var renamed := (fs - {name})[newName := fs[name]];
    var zipped := renamed[newName + ".zip" := Archive(newName, renamed[newName])];
    zipped - {newName}
  }

  /** createNewFile's effect on the files (the handles are closed first). */
  function RotateFiles(fs: FileMap, name: string, stamp: string, renameOk: bool): FileMap
  {
    if !RenameSucceeds(fs, name, renameOk) then SetupFiles(fs, name)
    else SetupFiles(ArchivedFiles(fs, name, stamp), name)
  }

  /** createNewFile raises Setup's error, or else the rename error, when the rename fails. */
  function RotateOutcome(fs: FileMap, name: string, stamp: string, renameOk: bool): Outcome
  {
    if !RenameSucceeds(fs, name, renameOk) then
      if SetupOutcome(fs, name).Fail? then SetupOutcome(fs, name)
      else Fail(RenameFailed(name, RotatedName(name, stamp)))
    else SetupOutcome(ArchivedFiles(fs, name, stamp), name)
  }

  function RotateSteps(fs: FileMap, name: string, stamp: string, renameOk: bool): seq<Step>
  {
    var newName := RotatedName(name, stamp);
    [CloseHandles]
    + (if RenameSucceeds(fs, name, renameOk)
       then [Rename(name, newName), Zip(newName, newName + ".zip"), Delete(newName)]
       else [])
    + [Setup(name)]
  }

  /** CheckSize's effect on the files: createNewFile exactly when the database has grown beyond the maximum. */
  function CheckedFiles(fs: FileMap, name: string, total: nat, maxSize: nat, stamp: string, renameOk: bool): FileMap
  {
    if total > maxSize then RotateFiles(fs, name, stamp, renameOk) else fs
  }

  function CheckedOutcome(fs: FileMap, name: string, total: nat, maxSize: nat, stamp: string, renameOk: bool): Outcome
  {
    if total > maxSize then RotateOutcome(fs, name, stamp, renameOk) else Pass
  }

  function CheckedSteps(fs: FileMap, name: string, total: nat, maxSize: nat, stamp: string, renameOk: bool): seq<Step>
  {
    [SizeCheck(total)] + (if total > maxSize then RotateSteps(fs, name, stamp, renameOk) else [])
  }

  /** A call CheckSize makes on its local statement handle: prepare or finalize one of its two pragmas. */
  datatype StmtCall = Prepare(pragma: Pragma) | Finalize(pragma: Pragma)

  datatype Pragma = PageSize | PageCount

  /** Every finalize is of a statement prepared earlier and not finalized since; `live` holds those. */
  predicate FinalizesLive(calls: seq<StmtCall>, live: set<Pragma>)
    decreases |calls|
  {
    calls == []
    || match calls[0]
       case Prepare(p) => FinalizesLive(calls[1..], live + {p})
       case Finalize(p) => p in live && FinalizesLive(calls[1..], live - {p})
  }

  /**
   * CheckSize's statement calls as written: each pragma is prepared, stepped
   * and finalized, but `stmt` is not set back to null after the second
   * finalize, so when createNewFile then raises, the catch finalizes the
   * page_count statement once more before rethrowing.
   */
  function CheckSizeStmtCallsAsWritten(raised: bool): (calls: seq<StmtCall>)
    ensures |calls| == if raised then 5 else 4
  {
    [Prepare(PageSize), Finalize(PageSize), Prepare(PageCount), Finalize(PageCount)]
    + (if raised then [Finalize(PageCount)] else [])
  }

  /** CheckSize's statement calls with `stmt` nulled after each finalize: the catch then has nothing left to finalize. */
  function CheckSizeStmtCalls(): (calls: seq<StmtCall>)
    ensures FinalizesLive(calls, {})
  {
    [Prepare(PageSize), Finalize(PageSize), Prepare(PageCount), Finalize(PageCount)]
  }

  /** The constructor's effect: Setup, and createNewFile when Setup raised. */
  function StartFiles(fs: FileMap, name: string, stamp: string, renameOk: bool): FileMap
  {
    if SetupOutcome(fs, name).Pass? then SetupFiles(fs, name)
    else RotateFiles(SetupFiles(fs, name), name, stamp, renameOk)
  }

  function StartOutcome(fs: FileMap, name: string, stamp: string, renameOk: bool): Outcome
  {
    if SetupOutcome(fs, name).Pass? then Pass
    else RotateOutcome(SetupFiles(fs, name), name, stamp, renameOk)
  }

  function StartSteps(fs: FileMap, name: string, stamp: string, renameOk: bool): seq<Step>
  {
    [Setup(name)]
    + (if SetupOutcome(fs, name).Pass? then [] else RotateSteps(SetupFiles(fs, name), name, stamp, renameOk))
  }

  /** commit transaction: the pending rows join the table and the row-id counter moves past them. */
  function CommitTable(t: Table, batch: seq<Row>): Table
  {
    Table(t.columns, t.rows + batch, t.nextRowId + |batch|)
  }

  /** Rows with consecutive ids from `hi` appended to rows between `lo` and `hi` lie between `lo` and `hi + |batch|`. */
  lemma {:induction false} AppendBetween(rows: seq<Row>, batch: seq<Row>, lo: int, hi: int)
    requires lo < hi && IdsBetween(rows, lo, hi) && Consecutive(batch, hi)
    ensures IdsBetween(rows + batch, lo, hi + |batch|)
    decreases |rows| + |batch|
  {
    if rows == [] {
      assert rows + batch == batch;
      if batch != [] {
        assert batch[0].id == hi && Consecutive(batch[1..], hi + 1);
        assert [] + batch[1..] == batch[1..];
        AppendBetween([], batch[1..], hi, hi + 1);
        assert IdsBetween(batch[1..], hi, hi + |batch|);
      }
    } else {
      assert (rows + batch)[1..] == rows[1..] + batch;
      AppendBetween(rows[1..], batch, rows[0].id, hi);
    }
  }

  /** Commit keeps a table well-formed: its pending rows carry the next row ids in order. */
  lemma CommitKeepsWellFormed(t: Table, batch: seq<Row>)
    requires WellFormed(t) && Consecutive(batch, t.nextRowId)
    ensures WellFormed(CommitTable(t, batch))
  {
    AppendBetween(t.rows, batch, 0, t.nextRowId);
  }

  /** One more insert with the next id keeps a run of ids consecutive. */
  lemma {:induction false} ConsecutiveSnoc(rows: seq<Row>, start: int, r: Row)
    requires Consecutive(rows, start) && r.id == start + |rows|
    ensures Consecutive(rows + [r], start)
    decreases |rows|
  {
    if rows != [] {
      assert (rows + [r])[1..] == rows[1..] + [r];
      ConsecutiveSnoc(rows[1..], start + 1, r);
    }
  }

  /** Two page values below 2^31 multiply to less than 2^62, so the size_t product never wraps. */
  lemma ProductFits(a: nat, b: nat)
    requires a < 0x8000_0000 && b < 0x8000_0000
    ensures a * b < SIZE_T_LIMIT
  {
    MulMonotone(a, b, 0x8000_0000);
    MulMonotone(0x8000_0000, a, 0x8000_0000);
  }

  lemma MulMonotone(a: nat, b: nat, c: nat)
    requires b <= c
    ensures a * b <= a * c
  {
  }

  function CommitFiles(fs: FileMap, name: string, batch: seq<Row>): FileMap
    requires ActiveTable(fs, name).Some?
  {
    fs[name := Database(Some(CommitTable(ActiveTable(fs, name).value, batch)))]
  }

  /** The id fields of a batch of LogMsg objects. */
  ghost function Ids(ms: seq<LogMsg>): (ids: seq<Int32>)
    reads ms
    ensures |ids| == |ms|
    ensures forall k {:trigger ids[k]} :: 0 <= k < |ms| ==> ids[k] == ms[k].id
  {
    seq(|ms|, k requires 0 <= k < |ms| reads ms => ms[k].id)
  }

  /** The values of a batch of LogMsg objects. */
  ghost function Values(ms: seq<LogMsg>): (recs: seq<Record>)
    reads ms
    ensures |recs| == |ms|
    ensures forall k {:trigger recs[k]} :: 0 <= k < |ms| ==> recs[k] == ms[k].Value()
  {
    seq(|ms|, k requires 0 <= k < |ms| reads ms => ms[k].Value())
  }

  class LogFile2 {
    const logFileName: string
    const maxFileSize: SizeT
    var files: FileMap
    var dbOpen: bool
    var stmtHeld: bool
    var insertPrepared: bool
    var inTxn: bool
    var pending: seq<Row>
    ghost var trace: seq<Step>
    ghost var stmtCalls: seq<StmtCall>  // CheckSize's calls on its local statement handle

    function Active(): Option<Table>
      reads this`files
    {
      ActiveTable(files, logFileName)
    }

    ghost predicate Valid()
      reads this
    {
      && (dbOpen ==> logFileName in files)
      && (dbOpen && files[logFileName].Database? ==> files[logFileName].logtable.Some?)
      && (stmtHeld ==> dbOpen)
      && (inTxn ==> dbOpen && Active().Some?)
      && (insertPrepared ==> dbOpen && Active().Some? && HasColumns(Active().value, INSERT_COLUMNS))
      && (!inTxn ==> pending == [])
      && (Active().Some? ==> WellFormed(Active().value))
      && (inTxn ==> Consecutive(pending, Active().value.nextRowId))
    }

    /** The connection's handles and open transaction. */
    ghost function Handles(): (bool, bool, bool, bool, seq<Row>)
      reads this
    {
      (dbOpen, stmtHeld, insertPrepared, inTxn, pending)
    }

    /** The rows a query on this connection sees: the committed ones, then its own uncommitted inserts. */
    function Visible(): seq<Row>
      reads this`files, this`pending
    {
      if Active().Some? then Active().value.rows + pending else []
    }

    /** sqlite3_prepare of a statement that needs no table: misuse without a connection, NOTADB on a file that is no database. */
    function ConnRc(): int
      reads this`dbOpen, this`files
    {
      if !dbOpen then SQLITE_MISUSE
      else if !(logFileName in files && files[logFileName].Database?) then SQLITE_NOTADB
      else SQLITE_OK
    }

    /** sqlite3_prepare of a statement on `logtable` naming `cols`. */
    function PrepareRc(cols: seq<Column>): int
      reads this`dbOpen, this`files
    {
      if ConnRc() != SQLITE_OK then ConnRc()
      else if Active().None? || !HasColumns(Active().value, cols) then SQLITE_ERROR
      else SQLITE_OK
    }

    /** "begin transaction": fails inside an open transaction. */
    function BeginRc(): int
      reads this`dbOpen, this`files, this`inTxn
    {
      if ConnRc() != SQLITE_OK then ConnRc() else if inTxn then SQLITE_ERROR else SQLITE_DONE
    }

    /** The insert statement is prepared once and then only reset. */
    function InsertPrepareRc(): int
      reads this`dbOpen, this`files, this`insertPrepared
    {
      if insertPrepared then SQLITE_OK else PrepareRc(INSERT_COLUMNS)
    }

    /** How many records of a batch the inserts store before one raises. */
    function InsertCount(recs: seq<Record>): nat
      reads this`dbOpen, this`files, this`insertPrepared
    {
      if InsertPrepareRc() != SQLITE_OK then 0 else FirstRefused(recs)
    }

    /** The error of the insert that stops a batch after `n` rows. */
    function InsertError(n: nat): Error
      reads this`dbOpen, this`files, this`insertPrepared
    {
      if n == 0 && InsertPrepareRc() != SQLITE_OK then
        (if InsertPrepareRc() == SQLITE_MISUSE then Misuse else Engine(InsertPrepareRc()))
      else Engine(SQLITE_TOOBIG)
    }

    /** LogFile2(logFileName, maxFileSize): the fields; nothing is open yet (see Start). */
    constructor (logFileName: string, maxFileSize: SizeT, files: FileMap)
      requires ActiveTable(files, logFileName).Some? ==> WellFormed(ActiveTable(files, logFileName).value)
      ensures Valid()
      ensures this.logFileName == logFileName && this.maxFileSize == maxFileSize && this.files == files
      ensures !dbOpen && !stmtHeld && !insertPrepared && !inTxn && pending == [] && trace == [] && stmtCalls == []
    {
      this.logFileName := logFileName;
      this.maxFileSize := maxFileSize;
      this.files := files;
      dbOpen, stmtHeld, insertPrepared, inTxn := false, false, false, false;
      pending := [];
      trace := [];
      stmtCalls := [];
    }

    /** The body of the constructor: Setup, and when it raises, createNewFile to start from a fresh file. */
    method Start(renameOk: bool, stamp: string) returns (o: Outcome)
      requires Valid() && !dbOpen
      modifies this
      ensures Valid()
      ensures files == StartFiles(old(files), logFileName, stamp, renameOk)
      ensures o == StartOutcome(old(files), logFileName, stamp, renameOk)
      ensures trace == old(trace) + StartSteps(old(files), logFileName, stamp, renameOk)
      ensures dbOpen && !insertPrepared && !inTxn
    {
      o := SetupDb();
      if o.Fail? {
        o := CreateNewFile(renameOk, stamp);
      }
    }

    /** LogFile2::close: finalize both statements and close the connection, which rolls back an open transaction. */
    method Close()
      requires Valid()
      modifies this`dbOpen, this`stmtHeld, this`insertPrepared, this`inTxn, this`pending, this`trace
      ensures Valid()
      ensures !dbOpen && !stmtHeld && !insertPrepared && !inTxn && pending == []
      ensures files == old(files) && trace == old(trace) + [CloseHandles]
    {
      stmtHeld := false;
      insertPrepared := false;
      dbOpen := false;
      inTxn, pending := false, [];
      trace := trace + [CloseHandles];
    }

    /** LogFile2::Setup: open the file and create `logtable` when the catalog has no such table. */
    method SetupDb() returns (o: Outcome)
      requires Valid() && !dbOpen
      modifies this`files, this`dbOpen, this`stmtHeld, this`trace
      ensures Valid()
      ensures files == SetupFiles(old(files), logFileName)
      ensures o == SetupOutcome(old(files), logFileName)
      ensures dbOpen && stmtHeld == (o.Pass? && SetupCreates(old(files), logFileName))
      ensures trace == old(trace) + [Setup(logFileName)]
    {
      trace := trace + [Setup(logFileName)];
      // sqlite3_open creates an empty database when nothing is at the path.
      if logFileName !in files {
        files := files[logFileName := Database(None)];
      }
      dbOpen := true;
      // Prepare the catalog query.
      var r := CheckErr(ConnRc());
      if r.Err? {
        stmtHeld := false;
        return Fail(r.error);
      }
      // Step it: a row exactly when `logtable` exists.
      var rc := CheckErr(if files[logFileName].logtable.Some? then SQLITE_ROW else SQLITE_DONE);
      if rc == Ok(0) {
        // create table logtable ( id, file, line, tid, timestamp_a, timestamp_b, channel, appName, machineName, msg )
        files := files[logFileName := Database(Some(NewTable()))];
        stmtHeld := true;
      } else {
        stmtHeld := false;
      }
      o := Pass;
    }

    /** LogFile2::createNewFile: close, rename to name.stamp, zip it, delete it, and Setup a fresh file. */
    method CreateNewFile(renameOk: bool, stamp: string) returns (o: Outcome)
      requires Valid()
      modifies this
      ensures Valid()
      ensures files == RotateFiles(old(files), logFileName, stamp, renameOk)
      ensures o == RotateOutcome(old(files), logFileName, stamp, renameOk)
      ensures trace == old(trace) + RotateSteps(old(files), logFileName, stamp, renameOk)
      ensures dbOpen && !insertPrepared && !inTxn && pending == []
      ensures stmtCalls == old(stmtCalls)
    {
      Close();
      var newName := RotatedName(logFileName, stamp);
      if !renameOk || logFileName !in files {
        // Don't leave the store without a log file, then report the rename.
        o := SetupDb();
        if o.Pass? {
          o := Fail(RenameFailed(logFileName, newName));
        }
        return;
      }
      files := (files - {logFileName})[newName := files[logFileName]];
      trace := trace + [Rename(logFileName, newName)];
      files := files[newName + ".zip" := Archive(newName, files[newName])];
      trace := trace + [Zip(newName, newName + ".zip")];
      files := files - {newName};
      trace := trace + [Delete(newName)];
      o := SetupDb();
    }

    method BeginTransaction() returns (o: Outcome)
      requires Valid()
      modifies this`inTxn, this`trace
      ensures Valid()
      ensures o == Checked(old(BeginRc()))
      ensures inTxn == (old(inTxn) || o.Pass?)
      ensures trace == old(trace) + (if o.Pass? then [Begin] else [])
    {
      var r := CheckErr(ConnRc());
      if r.Err? {
        return Fail(r.error);
      }
      r := CheckErr(if inTxn then SQLITE_ERROR else SQLITE_DONE);
      if r.Err? {
        return Fail(r.error);
      }
      inTxn := true;
      trace := trace + [Begin];
      o := Pass;
    }

    method CommitTransaction() returns (o: Outcome)
      requires Valid()
      modifies this`files, this`inTxn, this`pending, this`trace
      ensures Valid()
      ensures old(ConnRc()) != SQLITE_OK ==>
        o == Checked(old(ConnRc())) && files == old(files) && inTxn == old(inTxn) && trace == old(trace)
      ensures old(ConnRc()) == SQLITE_OK && !old(inTxn) ==>
        o == Fail(Engine(SQLITE_ERROR)) && files == old(files) && !inTxn && trace == old(trace)
      ensures old(ConnRc()) == SQLITE_OK && old(inTxn) ==>
        o == Pass && files == CommitFiles(old(files), logFileName, old(pending))
        && !inTxn && pending == [] && trace == old(trace) + [Commit]
    {
      var r := CheckErr(ConnRc());
      if r.Err? {
        return Fail(r.error);
      }
      r := CheckErr(if inTxn then SQLITE_DONE else SQLITE_ERROR);
      if r.Err? {
        return Fail(r.error);
      }
      var t := Active().value;
      CommitKeepsWellFormed(t, pending);
      files := files[logFileName := Database(Some(CommitTable(t, pending)))];
      inTxn, pending := false, [];
      trace := trace + [Commit];
      o := Pass;
    }

    /** LogFile2::writeOneMsg: prepare (once) or reset, bind the nine parameters, step, stamp the row id. */
    method WriteOneMsg(m: LogMsg) returns (o: Outcome)
      requires Valid() && inTxn
      modifies this`insertPrepared, this`pending, this`trace, m`id
      ensures Valid() && inTxn
      ensures o.Pass? <==> old(InsertPrepareRc()) == SQLITE_OK && Insertable(old(m.Value()))
      ensures old(InsertPrepareRc()) != SQLITE_OK ==>
        o == Checked(old(InsertPrepareRc())) && pending == old(pending) && trace == old(trace)
        && insertPrepared == old(insertPrepared) && m.id == old(m.id)
      ensures old(InsertPrepareRc()) == SQLITE_OK && !Insertable(old(m.Value())) ==>
        o == Fail(Engine(SQLITE_TOOBIG)) && pending == old(pending) && trace == old(trace)
        && insertPrepared && m.id == old(m.id)
      ensures old(InsertPrepareRc()) == SQLITE_OK && Insertable(old(m.Value())) ==>
        var rowid := Active().value.nextRowId + |old(pending)|;
        && o == Pass && insertPrepared
        && pending == old(pending) + [Encode(old(m.Value()), rowid)]
        && trace == old(trace) + [Insert(rowid)]
        && m.id == ToInt32(rowid)
    {
      if !insertPrepared {
        var r := CheckErr(PrepareRc(INSERT_COLUMNS));
        if r.Err? {
          return Fail(r.error);
        }
        insertPrepared := true;
      }
      // Binds 1..9; a text longer than the engine's limit is refused.
      var r := CheckErr(if TextsFit(m.Value()) then SQLITE_OK else SQLITE_TOOBIG);
      if r.Err? {
        return Fail(r.error);
      }
      // Run the insert: the engine refuses a row record over its limit, else hands out the next row id.
      var rowid := Active().value.nextRowId + |pending|;
      r := CheckErr(if RecordSize(Encode(m.Value(), rowid)) <= MAX_LENGTH then SQLITE_DONE else SQLITE_TOOBIG);
      if r.Err? {
        return Fail(r.error);
      }
      ConsecutiveSnoc(pending, Active().value.nextRowId, Encode(m.Value(), rowid));
      pending := pending + [Encode(m.Value(), rowid)];
      trace := trace + [Insert(rowid)];
      m.id := ToInt32(rowid);
      o := Pass;
    }

    /** LogFile2::CheckSize: rotate exactly when page_size * page_count exceeds the maximum. */
    method CheckSize(pageSize: nat, pageCount: nat, renameOk: bool, stamp: string) returns (o: Outcome)
      requires Valid()
      requires pageSize < 0x8000_0000 && pageCount < 0x8000_0000
      modifies this
      ensures Valid()
      ensures old(ConnRc()) != SQLITE_OK ==>
        o == Checked(old(ConnRc())) && files == old(files) && Handles() == old(Handles()) && trace == old(trace)
        && stmtCalls == old(stmtCalls)
      ensures old(ConnRc()) == SQLITE_OK ==> stmtCalls == old(stmtCalls) + CheckSizeStmtCalls()
      ensures old(ConnRc()) == SQLITE_OK ==>
        var total := pageSize * pageCount;
        && files == CheckedFiles(old(files), logFileName, total, maxFileSize, stamp, renameOk)
        && o == CheckedOutcome(old(files), logFileName, total, maxFileSize, stamp, renameOk)
        && trace == old(trace) + CheckedSteps(old(files), logFileName, total, maxFileSize, stamp, renameOk)
      ensures old(ConnRc()) == SQLITE_OK && pageSize * pageCount <= maxFileSize ==> Handles() == old(Handles())
      ensures old(ConnRc()) == SQLITE_OK && pageSize * pageCount > maxFileSize ==>
        dbOpen && !insertPrepared && !inTxn && pending == []
    {
      // size_t product; both factors come from sqlite3_column_int, so it cannot wrap.
      ProductFits(pageSize, pageCount);
      // pragma page_size; and pragma page_count;
      var r := CheckErr(ConnRc());
      if r.Err? {
        return Fail(r.error);
      }
      stmtCalls := stmtCalls + CheckSizeStmtCalls();
      var total := SizeWrap(pageSize * pageCount);
      trace := trace + [SizeCheck(total)];
      if total > maxFileSize {
        o := CreateNewFile(renameOk, stamp);
      } else {
        o := Pass;
      }
    }

    /** LogFile2::writeMsg(LogMsg&): one insert in its own transaction, commit, size check. */
    method WriteMsg(msg: LogMsg, pageSize: nat, pageCount: nat, renameOk: bool, stamp: string) returns (o: Outcome)
      requires Valid()
      requires pageSize < 0x8000_0000 && pageCount < 0x8000_0000
      modifies this, msg`id
      ensures Valid()
      ensures old(BeginRc()) != SQLITE_DONE ==>
        o == Checked(old(BeginRc())) && files == old(files) && Handles() == old(Handles())
        && trace == old(trace) && msg.Value() == old(msg.Value())
      ensures old(BeginRc()) == SQLITE_DONE && !(old(InsertPrepareRc()) == SQLITE_OK && Insertable(old(msg.Value()))) ==>
        o == Fail(old(InsertError(0))) && files == old(files) && inTxn && pending == []
        && trace == old(trace) + [Begin] && msg.Value() == old(msg.Value())
      ensures old(BeginRc()) == SQLITE_DONE && old(InsertPrepareRc()) == SQLITE_OK && Insertable(old(msg.Value())) ==>
        var base := old(Active().value.nextRowId);
        var committed := CommitFiles(old(files), logFileName, [Encode(old(msg.Value()), base)]);
        var total := pageSize * pageCount;
        && msg.Value() == old(msg.Value()).(id := ToInt32(base))
        && files == CheckedFiles(committed, logFileName, total, maxFileSize, stamp, renameOk)
        && o == CheckedOutcome(committed, logFileName, total, maxFileSize, stamp, renameOk)
        && trace == old(trace) + [Begin, Insert(base), Commit] + CheckedSteps(committed, logFileName, total, maxFileSize, stamp, renameOk)
        && !inTxn && pending == []
    {
      ProductFits(pageSize, pageCount);
      ghost var rec := msg.Value();
      o := BeginTransaction();
      if o.Fail? {
        return;
      }
      ghost var base := Active().value.nextRowId;
      o := WriteOneMsg(msg);
      if o.Fail? {
        return;
      }
      assert pending == [Encode(rec, base)] && msg.Value() == rec.(id := ToInt32(base));
      o := CommitThenCheck(pageSize, pageCount, renameOk, stamp);
    }

    /**
     * LogFile2::writeMsg(vector<LogMsg*>*): every message inserted in one
     * transaction, each stamped with its own row id right after its insert;
     * the commit and the single size check run only when all inserts did.
     */
    method WriteMsgs(msgs: seq<LogMsg>, pageSize: nat, pageCount: nat, renameOk: bool, stamp: string)
      returns (o: Outcome)
      requires Valid()
      requires pageSize < 0x8000_0000 && pageCount < 0x8000_0000
      modifies this, msgs`id
      ensures Valid()
      ensures old(BeginRc()) != SQLITE_DONE ==>
        o == Checked(old(BeginRc())) && files == old(files) && Handles() == old(Handles())
        && trace == old(trace) && forall k :: 0 <= k < |msgs| ==> msgs[k].id == old(msgs[k].id)
      ensures old(BeginRc()) == SQLITE_DONE ==>
        var recs := old(Values(msgs));
        var base := old(Active().value.nextRowId);
        var n := old(InsertCount(Values(msgs)));
        && (forall k {:trigger msgs[k].id} :: 0 <= k < |msgs| ==> msgs[k].id == StampAll(msgs, old(Ids(msgs)), base, n)[k])
        && (n < |msgs| ==>
              o == Fail(old(InsertError(n))) && files == old(files) && inTxn
              && pending == BatchRows(recs[..n], base)
              && trace == old(trace) + [Begin] + InsertSteps(base, n))
        && (n == |msgs| ==>
              var committed := CommitFiles(old(files), logFileName, BatchRows(recs, base));
              var total := pageSize * pageCount;
              && files == CheckedFiles(committed, logFileName, total, maxFileSize, stamp, renameOk)
              && o == CheckedOutcome(committed, logFileName, total, maxFileSize, stamp, renameOk)
              && trace == old(trace) + [Begin] + InsertSteps(base, n) + [Commit] + CheckedSteps(committed, logFileName, total, maxFileSize, stamp, renameOk)
              && !inTxn && pending == [])
    {
      ProductFits(pageSize, pageCount);
      ghost var recs := Values(msgs);
      o := BeginTransaction();
      if o.Fail? {
        return;
      }
      ghost var base := Active().value.nextRowId;
      o := InsertEach(msgs);
      if o.Fail? {
        return;
      }
      assert recs[..|msgs|] == recs;
      o := CommitThenCheck(pageSize, pageCount, renameOk, stamp);
    }

    /** The tail both writeMsg overloads share: commit the open transaction, then CheckSize. */
    method CommitThenCheck(pageSize: nat, pageCount: nat, renameOk: bool, stamp: string) returns (o: Outcome)
      requires Valid() && inTxn
      requires pageSize < 0x8000_0000 && pageCount < 0x8000_0000
      modifies this
      ensures Valid()
      ensures
        var committed := CommitFiles(old(files), logFileName, old(pending));
        var total := pageSize * pageCount;
        && files == CheckedFiles(committed, logFileName, total, maxFileSize, stamp, renameOk)
        && o == CheckedOutcome(committed, logFileName, total, maxFileSize, stamp, renameOk)
        && trace == old(trace) + [Commit] + CheckedSteps(committed, logFileName, total, maxFileSize, stamp, renameOk)
        && !inTxn && pending == []
    {
      ProductFits(pageSize, pageCount);
      assert ConnRc() == SQLITE_OK;
      o := CommitTransaction();
      if o.Fail? {
        return;
      }
      assert ConnRc() == SQLITE_OK;
      o := CheckSize(pageSize, pageCount, renameOk, stamp);
    }

    /** The loop of writeMsg(vector<LogMsg*>*): writeOneMsg for each message in order, stopping at the first that raises. */
    method InsertEach(msgs: seq<LogMsg>) returns (o: Outcome)
      requires Valid() && inTxn && pending == []
      modifies this`insertPrepared, this`pending, this`trace, msgs`id
      ensures Valid() && inTxn
      ensures
        var recs := old(Values(msgs));
        var base := Active().value.nextRowId;
        var n := old(InsertCount(Values(msgs)));
        && (forall k {:trigger msgs[k].id} :: 0 <= k < |msgs| ==> msgs[k].id == StampAll(msgs, old(Ids(msgs)), base, n)[k])
        && pending == BatchRows(recs[..n], base)
        && trace == old(trace) + InsertSteps(base, n)
        && (n < |msgs| ==> o == Fail(old(InsertError(n))))
        && (n == |msgs| ==> o == Pass)
    {
      ghost var recs, ids := Values(msgs), Ids(msgs);
      ghost var base := Active().value.nextRowId;
      ghost var n := InsertCount(recs);
      o := Pass;
      var i := 0;
      while i < |msgs|
        invariant Progress(msgs, i, recs, ids, base, old(trace), old(InsertPrepareRc()))
        invariant n == InsertCount(recs) && o == Pass
      {
        assert msgs[i].Value().(id := 0) == recs[i].(id := 0);
        o := InsertNext(msgs, i, msgs[i], recs, ids, base, old(trace), old(InsertPrepareRc()));
        if o.Fail? {
          return;
        }
        i := i + 1;
      }
    }

    /** The state after the first `i` inserts of a batch whose records are `recs`, whose ids were `ids`. */
    ghost predicate Progress(msgs: seq<LogMsg>, i: nat, recs: seq<Record>, ids: seq<Int32>, base: nat,
                            trace0: seq<Step>, prepareRc: int)
      reads this, msgs
    {
      && Valid() && inTxn
      && |recs| == |ids| == |msgs|
      && InsertPrepareRc() == prepareRc
      && i <= InsertCount(recs)
      && (i > 0 ==> insertPrepared)
      && Active().value.nextRowId == base
      && pending == BatchRows(recs[..i], base)
      && trace == trace0 + InsertSteps(base, i)
      && (forall k {:trigger msgs[k].id} :: 0 <= k < |msgs| ==> msgs[k].id == StampAll(msgs, ids, base, i)[k])
    }

    /** One turn of the loop: writeOneMsg on the next message. */
    method InsertNext(msgs: seq<LogMsg>, i: nat, m: LogMsg, ghost recs: seq<Record>, ghost ids: seq<Int32>, ghost base: nat,
                      ghost trace0: seq<Step>, ghost prepareRc: int) returns (o: Outcome)
      requires i < |msgs| && m == msgs[i] && Progress(msgs, i, recs, ids, base, trace0, prepareRc)
      requires m.Value().(id := 0) == recs[i].(id := 0)
      modifies this`insertPrepared, this`pending, this`trace, m`id
      ensures o.Pass? ==> i < InsertCount(recs) && Progress(msgs, i + 1, recs, ids, base, trace0, prepareRc)
      ensures o.Fail? ==> i == InsertCount(recs) && o == Fail(InsertError(i)) && Progress(msgs, i, recs, ids, base, trace0, prepareRc)
    {
      assert Insertable(msgs[i].Value()) == Insertable(recs[i]);
      assert Encode(msgs[i].Value(), base + i) == Encode(recs[i], base + i);
      ghost var rows, steps, prev := pending, trace, StampAll(msgs, ids, base, i);
      o := WriteOneMsg(m);
      if o.Fail? {
        return;
      }
      assert pending == rows + [Encode(recs[i], base + i)];
      BatchStep(recs, base, i);
      InsertStepsStep(base, i);
      assert StampAll(msgs, ids, base, i + 1) == Stamp(msgs, prev, msgs[i], ToInt32(base + i));
      assert forall k {:trigger msgs[k].id} :: 0 <= k < |msgs| ==> msgs[k].id == StampAll(msgs, ids, base, i + 1)[k];
    }

    /** LogFile2::messageCount(): `select count(1) from logtable`. */
    method MessageCount() returns (r: Result<Int32>)
      ensures PrepareRc([]) != SQLITE_OK ==> r == Err(CheckErr(PrepareRc([])).error)
      ensures PrepareRc([]) == SQLITE_OK ==> r == Ok(ToInt32(|Visible()|))
    {
      var c := CheckErr(PrepareRc([]));
      if c.Err? {
        return Err(c.error);
      }
      r := Ok(ToInt32(|Visible()|));
    }

    /** LogFile2::messageCount(whereClause): the rows the filter keeps. */
    method MessageCountWhere(clause: WhereClause) returns (r: Result<Int32>)
      ensures PrepareRc([]) != SQLITE_OK ==> r == Err(CheckErr(PrepareRc([])).error)
      ensures PrepareRc([]) == SQLITE_OK && clause.Malformed? ==> r == Err(Engine(SQLITE_ERROR))
      ensures PrepareRc([]) == SQLITE_OK && clause.Where? ==> r == Ok(ToInt32(|Select(Visible(), clause.keep)|))
    {
      var c := CheckErr(PrepareRc([]));
      if c.Err? {
        return Err(c.error);
      }
      if clause.Malformed? {
        return Err(Engine(SQLITE_ERROR));
      }
      r := Ok(ToInt32(|Select(Visible(), clause.keep)|));
    }

    /** Build the LogMsg a row decodes to: a default LogMsg, then columns 0..9. */
    method DecodeRow(row: Row, cache: NameCache, env: Env) returns (m: LogMsg)
      modifies cache
      ensures fresh(m) && m.Value() == Decode(row)
      ensures cache.appName == Fill(old(cache.appName), env.exePath)
      ensures cache.machineName == Fill(old(cache.machineName), env.hostName)
    {
      m := new LogMsg(cache, env);
      m.id := ToInt32(row.id);
      m.file := row.file;
      m.line := row.line;
      m.tid := row.tid;
      m.seconds, m.micros := row.timestampA, row.timestampB;
      m.channel := row.channel;
      m.appName := row.appName;
      m.machineName := row.machineName;
      m.msg := row.msg;
    }

    /** LogFile2::getMessage: the row with this id, or nothing; nothing too for a result that is not ten columns. */
    method GetMessage(id: Int32, cache: NameCache, env: Env) returns (r: Result<Option<LogMsg>>)
      modifies cache
      ensures PrepareRc(LOG_COLUMNS) != SQLITE_OK ==>
        r == Err(CheckErr(PrepareRc(LOG_COLUMNS)).error) && unchanged(cache)
      ensures PrepareRc(LOG_COLUMNS) == SQLITE_OK && FindRow(Visible(), id).None? ==>
        r == Ok(None) && unchanged(cache)
      ensures PrepareRc(LOG_COLUMNS) == SQLITE_OK && FindRow(Visible(), id).Some? ==>
        && r.Ok? && r.value.Some? && fresh(r.value.value)
        && r.value.value.Value() == Decode(FindRow(Visible(), id).value)
        && cache.appName == Fill(old(cache.appName), env.exePath)
        && cache.machineName == Fill(old(cache.machineName), env.hostName)
    {
      var c := CheckErr(PrepareRc(LOG_COLUMNS));
      if c.Err? {
        return Err(c.error);
      }
      var found := FindRow(Visible(), id);
      var rc := CheckErr(if found.Some? then SQLITE_ROW else SQLITE_DONE);
      if rc == Ok(0) {
        return Ok(None);
      }
      // sqlite3_column_count of a statement that names its columns.
      var colCount := |LOG_COLUMNS|;
      if colCount != 10 {
        return Ok(None);
      }
      var m := DecodeRow(found.value, cache, env);
      r := Ok(Some(m));
    }

    /** LogFile2::getMessages: the filtered rows in table order, windowed by limit/offset only when limit != 0. */
    method GetMessages(clause: WhereClause, limit: Int32, offset: Int32, cache: NameCache, env: Env)
      returns (r: Result<seq<LogMsg>>)
      modifies cache
      ensures PrepareRc(LOG_COLUMNS) != SQLITE_OK ==>
        r == Err(CheckErr(PrepareRc(LOG_COLUMNS)).error) && unchanged(cache)
      ensures PrepareRc(LOG_COLUMNS) == SQLITE_OK && clause.Malformed? ==>
        r == Err(Engine(SQLITE_ERROR)) && unchanged(cache)
      ensures PrepareRc(LOG_COLUMNS) == SQLITE_OK && clause.Where? ==>
        var rows := Page(Select(Visible(), clause.keep), limit, offset);
        && r.Ok? && |r.value| == |rows|
        && (forall j :: 0 <= j < |rows| ==> fresh(r.value[j]) && r.value[j].Value() == Decode(rows[j]))
        && (forall i, j :: 0 <= i < j < |rows| ==> r.value[i] != r.value[j])
        && (rows == [] ==> unchanged(cache))
        && (rows != [] ==> cache.appName == Fill(old(cache.appName), env.exePath)
                           && cache.machineName == Fill(old(cache.machineName), env.hostName))
    {
      var c := CheckErr(PrepareRc(LOG_COLUMNS));
      if c.Err? {
        return Err(c.error);
      }
      if clause.Malformed? {
        return Err(Engine(SQLITE_ERROR));
      }
      // The statement's result: the where clause, then " limit L offset O " when limit != 0.
      var rows := Page(Select(Visible(), clause.keep), limit, offset);
      var ret: seq<LogMsg> := [];
      var rc := CheckErr(if rows != [] then SQLITE_ROW else SQLITE_DONE);
      if rc == Ok(0) {
        return Ok(ret);
      }
      var colCount := |LOG_COLUMNS|;
      if colCount != 10 {
        return Ok(ret);
      }
      ret := DecodeRows(rows, cache, env);
      r := Ok(ret);
    }

    /** The loop of getMessages: one new LogMsg per row, pushed in row order while `rc` says a row is there. */
    method DecodeRows(rows: seq<Row>, cache: NameCache, env: Env) returns (ret: seq<LogMsg>)
      requires rows != []
      modifies cache
      ensures |ret| == |rows|
      ensures forall j :: 0 <= j < |rows| ==> fresh(ret[j]) && ret[j].Value() == Decode(rows[j])
      ensures forall i, j :: 0 <= i < j < |rows| ==> ret[i] != ret[j]
      ensures cache.appName == Fill(old(cache.appName), env.exePath)
      ensures cache.machineName == Fill(old(cache.machineName), env.hostName)
    {
      ret := [];
      var k := 0;
      var rc := CheckErr(SQLITE_ROW);
      while rc != Ok(0)
        invariant 0 <= k <= |rows| && |ret| == k
        invariant rc == CheckErr(if k < |rows| then SQLITE_ROW else SQLITE_DONE)
        invariant forall j :: 0 <= j < k ==> fresh(ret[j]) && ret[j].Value() == Decode(rows[j])
        invariant forall i, j :: 0 <= i < j < k ==> ret[i] != ret[j]
        invariant k == 0 ==> unchanged(cache)
        invariant k > 0 ==> cache.appName == Fill(old(cache.appName), env.exePath)
        invariant k > 0 ==> cache.machineName == Fill(old(cache.machineName), env.hostName)
        decreases |rows| - k
      {
        var m := DecodeRow(rows[k], cache, env);
        ret := ret + [m];
        k := k + 1;
        rc := CheckErr(if k < |rows| then SQLITE_ROW else SQLITE_DONE);
      }
    }

    /** LogFile2::getOldestMessageID: `min(id)`, which reads as 0 on an empty table. */
    method GetOldestMessageID() returns (r: Result<Int32>)
      ensures PrepareRc([Id]) != SQLITE_OK ==> r == Err(CheckErr(PrepareRc([Id])).error)
      ensures PrepareRc([Id]) == SQLITE_OK && Visible() == [] ==> r == Ok(0)
      ensures PrepareRc([Id]) == SQLITE_OK && Visible() != [] ==> r == Ok(ToInt32(MinId(Visible())))
    {
      var c := CheckErr(PrepareRc([Id]));
      if c.Err? {
        return Err(c.error);
      }
      var rows := Visible();
      r := Ok(if rows == [] then 0 else ToInt32(MinId(rows)));
    }

    /** LogFile2::getNewestMessageID: `max(id)`, which reads as 0 on an empty table. */
    method GetNewestMessageID() returns (r: Result<Int32>)
      ensures PrepareRc([Id]) != SQLITE_OK ==> r == Err(CheckErr(PrepareRc([Id])).error)
      ensures PrepareRc([Id]) == SQLITE_OK && Visible() == [] ==> r == Ok(0)
      ensures PrepareRc([Id]) == SQLITE_OK && Visible() != [] ==> r == Ok(ToInt32(MaxId(Visible())))
    {
      var c := CheckErr(PrepareRc([Id]));
      if c.Err? {
        return Err(c.error);
      }
      var rows := Visible();
      r := Ok(if rows == [] then 0 else ToInt32(MaxId(rows)));
    }
  }
}
