/**
 * What the log store's rules add up to: the schema bootstrap, rotation and
 * its recovery, the self-healing open, row-id order and read-back, the
 * query window, the id stamping of a batch, and one size check (hence at
 * most one rotation) per write.
 */
module LogStoreProps {
  import opened CInt
  import opened Sqlite
  import opened LogMsg
  import opened LogStore

  // ---------------------------------------------------------------------
  // Schema bootstrap (Setup)
  // ---------------------------------------------------------------------

  /** An existing `logtable` is left as it is, rows and all, and no table is created. */
  lemma SetupKeepsExisting(fs: FileMap, name: string)
    requires ActiveTable(fs, name).Some?
    ensures SetupFiles(fs, name) == fs
    ensures SetupOutcome(fs, name) == Pass
    ensures !SetupCreates(fs, name)
  {
    assert fs[name := fs[name]] == fs;
  }

  /** With nothing at the path, or a database without the table, Setup creates the empty ten-column table and touches no other path. */
  lemma SetupCreatesTable(fs: FileMap, name: string)
    requires SetupCreates(fs, name)
    ensures SetupOutcome(fs, name) == Pass
    ensures ActiveTable(SetupFiles(fs, name), name) == Some(NewTable())
    ensures NewTable().columns == LOG_COLUMNS && |LOG_COLUMNS| == 10 && NewTable().rows == []
    ensures forall p :: p != name ==> (p in SetupFiles(fs, name) <==> p in fs)
    ensures forall p :: p != name && p in fs ==> SetupFiles(fs, name)[p] == fs[p]
  {
  }

  /** Setup raises exactly on a file that is no database, with SQLITE_NOTADB, and then changes no file. */
  lemma SetupFailsOnForeignFile(fs: FileMap, name: string)
    ensures SetupOutcome(fs, name).Fail? <==> name in fs && !fs[name].Database?
    ensures SetupOutcome(fs, name).Fail? ==>
      SetupOutcome(fs, name) == Fail(Engine(SQLITE_NOTADB)) && SetupFiles(fs, name) == fs
    ensures SetupOutcome(fs, name).Pass? ==> ActiveTable(SetupFiles(fs, name), name).Some?
  {
    if name in fs && !fs[name].Database? {
      assert fs[name := fs[name]] == fs;
    }
  }

  // ---------------------------------------------------------------------
  // Rotation (createNewFile)
  // ---------------------------------------------------------------------

  /**
   * A rotation whose rename succeeds leaves the old file, whole, as the only
   * entry of `name.stamp.zip`, no uncompressed `name.stamp`, an empty fresh
   * table at `name`, and every other path as it was.
   */
  lemma RotationArchives(fs: FileMap, name: string, stamp: string)
    requires name in fs
    ensures var f := RotateFiles(fs, name, stamp, true);
      && ArchiveName(name, stamp) in f
      && f[ArchiveName(name, stamp)] == Archive(RotatedName(name, stamp), fs[name])
      && RotatedName(name, stamp) !in f
      && ActiveTable(f, name) == Some(NewTable())
      && RotateOutcome(fs, name, stamp, true) == Pass
    ensures var f := RotateFiles(fs, name, stamp, true);
      forall p :: p != name && p != RotatedName(name, stamp) && p != ArchiveName(name, stamp) ==>
        (p in f <==> p in fs) && (p in fs ==> f[p] == fs[p])
  {
    var newName := RotatedName(name, stamp);
    var zipName := ArchiveName(name, stamp);
    assert |name| < |newName| < |zipName|;
    var a := ArchivedFiles(fs, name, stamp);
    assert name !in a;
    assert zipName in a && a[zipName] == Archive(newName, fs[name]);
    assert SetupCreates(a, name);
  }

  /** The archive holds every row the rotated file held, in order. */
  lemma RotationKeepsRows(fs: FileMap, name: string, stamp: string)
    requires ActiveTable(fs, name).Some?
    ensures var f := RotateFiles(fs, name, stamp, true);
      f[ArchiveName(name, stamp)].content.logtable == ActiveTable(fs, name)
  {
    RotationArchives(fs, name, stamp);
  }

  /** A failed rename still reopens the original path, so a usable store remains, and the call always raises. */
  lemma RenameFailureKeepsStore(fs: FileMap, name: string, stamp: string, renameOk: bool)
    requires !RenameSucceeds(fs, name, renameOk)
    ensures RotateFiles(fs, name, stamp, renameOk) == SetupFiles(fs, name)
    ensures RotateOutcome(fs, name, stamp, renameOk).Fail?
    ensures SetupOutcome(fs, name).Pass? ==>
      && RotateOutcome(fs, name, stamp, renameOk) == Fail(RenameFailed(name, RotatedName(name, stamp)))
      && ActiveTable(RotateFiles(fs, name, stamp, renameOk), name).Some?
    ensures RotateSteps(fs, name, stamp, renameOk) == [CloseHandles, Setup(name)]
  {
    SetupFailsOnForeignFile(fs, name);
  }

  /**
   * CheckSize raises exactly when the file is over the limit and the rename
   * fails, and as written it then finalizes the page_count statement a second
   * time; with `stmt` nulled after each finalize it never does.
   */
  lemma CheckSizeFinalizesDeadStmt(fs: FileMap, name: string, total: nat, maxSize: nat, stamp: string, renameOk: bool)
    ensures CheckedOutcome(fs, name, total, maxSize, stamp, renameOk).Fail? <==>
      total > maxSize && !RenameSucceeds(fs, name, renameOk)
    ensures var raised := CheckedOutcome(fs, name, total, maxSize, stamp, renameOk).Fail?;
      FinalizesLive(CheckSizeStmtCallsAsWritten(raised), {}) <==> !raised
  {
    if total > maxSize {
      if RenameSucceeds(fs, name, renameOk) {
        RotationArchives(fs, name, stamp);
      } else {
        RenameFailureKeepsStore(fs, name, stamp, renameOk);
      }
    }
    var calls := CheckSizeStmtCallsAsWritten(true);
    assert calls[1..][1..][1..][1..] == [Finalize(PageCount)];
    assert !FinalizesLive(calls[1..][1..][1..][1..], {});
    var ok := CheckSizeStmtCallsAsWritten(false);
    assert ok[1..][1..][1..][1..] == [];
  }

  // ---------------------------------------------------------------------
  // The constructor's self-healing open
  // ---------------------------------------------------------------------

  /**
   * Opening raises only when the file is no database AND it cannot be
   * renamed away; whenever it succeeds the store has a `logtable`.
   */
  lemma StartFailsOnlyWhenStuck(fs: FileMap, name: string, stamp: string, renameOk: bool)
    ensures StartOutcome(fs, name, stamp, renameOk).Fail? <==> !renameOk && name in fs && !fs[name].Database?
    ensures StartOutcome(fs, name, stamp, renameOk).Fail? ==>
      StartOutcome(fs, name, stamp, renameOk) == Fail(Engine(SQLITE_NOTADB))
    ensures StartOutcome(fs, name, stamp, renameOk).Pass? ==>
      ActiveTable(StartFiles(fs, name, stamp, renameOk), name).Some?
  {
    SetupFailsOnForeignFile(fs, name);
    if SetupOutcome(fs, name).Fail? {
      assert SetupFiles(fs, name) == fs;
      if renameOk {
        RotationArchives(fs, name, stamp);
      } else {
        RenameFailureKeepsStore(fs, name, stamp, renameOk);
      }
    }
  }

  /** An unreadable file is archived and replaced by an empty store. */
  lemma StartHealsUnreadable(fs: FileMap, name: string, stamp: string)
    requires name in fs && !fs[name].Database?
    ensures StartOutcome(fs, name, stamp, true) == Pass
    ensures ActiveTable(StartFiles(fs, name, stamp, true), name) == Some(NewTable())
    ensures StartFiles(fs, name, stamp, true)[ArchiveName(name, stamp)] == Archive(RotatedName(name, stamp), fs[name])
  {
    SetupFailsOnForeignFile(fs, name);
    RotationArchives(fs, name, stamp);
  }

  // ---------------------------------------------------------------------
  // Row ids: order, minimum and maximum, read-back
  // ---------------------------------------------------------------------

  /** Rows whose ids lie between `lo` and `hi` in increasing order: every id in range, strictly increasing by position. */
  lemma {:induction false} BetweenSorted(rows: seq<Row>, lo: int, hi: int)
    requires IdsBetween(rows, lo, hi)
    ensures forall i :: 0 <= i < |rows| ==> lo < rows[i].id < hi
    ensures forall i, j :: 0 <= i < j < |rows| ==> rows[i].id < rows[j].id
    decreases |rows|
  {
    if rows != [] {
      BetweenSorted(rows[1..], rows[0].id, hi);
      assert forall i :: 0 < i < |rows| ==> rows[i] == rows[1..][i - 1];
    }
  }

  /** Consecutive ids from `start`: the k-th row has id start + k. */
  lemma {:induction false} ConsecutiveIds(rows: seq<Row>, start: int)
    requires Consecutive(rows, start)
    ensures forall k :: 0 <= k < |rows| ==> rows[k].id == start + k
    decreases |rows|
  {
    if rows != [] {
      ConsecutiveIds(rows[1..], start + 1);
      assert forall k :: 0 < k < |rows| ==> rows[k] == rows[1..][k - 1];
    }
  }

  /** The rows of one batch carry consecutive ids from the first. */
  lemma {:induction false} BatchConsecutive(recs: seq<Record>, base: nat)
    ensures Consecutive(BatchRows(recs, base), base)
    decreases |recs|
  {
    if recs != [] {
      BatchConsecutive(recs[1..], base + 1);
      assert BatchRows(recs, base)[1..] == BatchRows(recs[1..], base + 1);
    }
  }

  /** On rows in increasing id order, min(id) is the first row's id and max(id) the last's. */
  lemma {:induction false} MinFirstMaxLast(rows: seq<Row>, lo: int, hi: int)
    requires rows != [] && IdsBetween(rows, lo, hi)
    ensures MinId(rows) == rows[0].id
    ensures MaxId(rows) == rows[|rows| - 1].id
    decreases |rows|
  {
    if |rows| > 1 {
      MinFirstMaxLast(rows[1..], rows[0].id, hi);
      BetweenSorted(rows[1..], rows[0].id, hi);
    }
  }

  /** On rows in increasing id order, `where id = x` finds exactly the row with that id. */
  lemma {:induction false} FindRowFinds(rows: seq<Row>, lo: int, hi: int, k: nat)
    requires IdsBetween(rows, lo, hi) && k < |rows|
    ensures FindRow(rows, rows[k].id) == Some(rows[k])
    decreases |rows|
  {
    BetweenSorted(rows, lo, hi);
    if k > 0 {
      assert rows[0].id < rows[k].id;
      FindRowFinds(rows[1..], rows[0].id, hi, k - 1);
    }
  }

  /** `where id = x` finds nothing when no row has that id, and otherwise a row with that id. */
  lemma {:induction false} FindRowSound(rows: seq<Row>, id: int)
    ensures FindRow(rows, id).None? <==> forall k :: 0 <= k < |rows| ==> rows[k].id != id
    ensures FindRow(rows, id).Some? ==> FindRow(rows, id).value.id == id && FindRow(rows, id).value in rows
    decreases |rows|
  {
    if rows != [] {
      FindRowSound(rows[1..], id);
      assert forall k :: 0 < k < |rows| ==> rows[k] == rows[1..][k - 1];
    }
  }

  /** The rows a Valid store's queries see are in strictly increasing id order, all ids positive. */
  lemma VisibleSorted(s: LogFile2)
    requires s.Valid()
    ensures forall i :: 0 <= i < |s.Visible()| ==> 0 < s.Visible()[i].id
    ensures forall i, j :: 0 <= i < j < |s.Visible()| ==> s.Visible()[i].id < s.Visible()[j].id
  {
    if s.Active().Some? {
      var t := s.Active().value;
      if s.inTxn {
        AppendBetween(t.rows, s.pending, 0, t.nextRowId);
        BetweenSorted(t.rows + s.pending, 0, t.nextRowId + |s.pending|);
      } else {
        assert s.Visible() == t.rows;
        BetweenSorted(t.rows, 0, t.nextRowId);
      }
    }
  }

  /** getOldestMessageID and getNewestMessageID read the ids of the first and the last visible row. */
  lemma OldestFirstNewestLast(s: LogFile2)
    requires s.Valid() && s.Visible() != []
    ensures MinId(s.Visible()) == s.Visible()[0].id
    ensures MaxId(s.Visible()) == s.Visible()[|s.Visible()| - 1].id
  {
    var t := s.Active().value;
    if s.inTxn {
      AppendBetween(t.rows, s.pending, 0, t.nextRowId);
      MinFirstMaxLast(t.rows + s.pending, 0, t.nextRowId + |s.pending|);
    } else {
      assert s.Visible() == t.rows;
      MinFirstMaxLast(t.rows, 0, t.nextRowId);
    }
  }

  /** After a commit, the k-th record of the batch is found under its own row id, and the table stays well-formed. */
  lemma ReadBackAfterCommit(t: Table, recs: seq<Record>, k: nat)
    requires WellFormed(t) && k < |recs|
    ensures var c := CommitTable(t, BatchRows(recs, t.nextRowId));
      && WellFormed(c)
      && FindRow(c.rows, t.nextRowId + k) == Some(Encode(recs[k], t.nextRowId + k))
  {
    var batch := BatchRows(recs, t.nextRowId);
    BatchConsecutive(recs, t.nextRowId);
    CommitKeepsWellFormed(t, batch);
    var c := CommitTable(t, batch);
    assert c.rows[|t.rows| + k] == batch[k];
    FindRowFinds(c.rows, 0, c.nextRowId, |t.rows| + k);
  }

  /**
   * Decoding the stored row gives the record back, except the id (the row id
   * as an int) and msg_static (false); the three wide integers survive when
   * they fit an int.
   */
  lemma RoundTrip(rec: Record, rowid: nat)
    requires INT32_MIN <= rec.tid <= INT32_MAX
    requires INT32_MIN <= rec.seconds <= INT32_MAX && INT32_MIN <= rec.micros <= INT32_MAX
    ensures Decode(Encode(rec, rowid)) == rec.(id := ToInt32(rowid), msgStatic := false)
    ensures rowid <= INT32_MAX ==> Decode(Encode(rec, rowid)).id == rowid
  {
  }

  /**
   * An insert's row record costs its texts plus 11 to 47 bytes of header and
   * integers: a record whose texts leave that room inserts, and one that
   * inserts leaves at least 11 bytes of the limit to spare.
   */
  lemma InsertableWithin(rec: Record)
    ensures TextBytes(Encode(rec, 0)) + 47 <= MAX_LENGTH ==> Insertable(rec)
    ensures Insertable(rec) ==> TextsFit(rec) && TextBytes(Encode(rec, 0)) + 11 <= MAX_LENGTH
  {
  }

  /** A message of exactly 10^9 bytes passes its bind, and the step then refuses the row as too big. */
  lemma LongestMessageRefused(rec: Record)
    requires |rec.msg| == MAX_LENGTH
    ensures TextFits(rec.msg) && !Insertable(rec)
  {
  }

  /** Two texts of 6 * 10^8 bytes each pass their binds, yet the row they make is over the limit. */
  lemma LongTextsRefusedTogether(rec: Record)
    requires |rec.file| == 600_000_000 && |rec.msg| == 600_000_000
    requires |rec.appName| <= MAX_LENGTH && |rec.machineName| <= MAX_LENGTH
    ensures TextsFit(rec) && !Insertable(rec)
  {
  }

  /** The filter `where channel = 1`. */
  predicate OnChannelOne(r: Row)
  {
    r.channel == 1
  }

  /** The channel example: three records with channels 1, 2, 1 into an empty table. */
  lemma ChannelExample(t: Table, recs: seq<Record>)
    requires WellFormed(t) && t.rows == []
    requires |recs| == 3 && recs[0].channel == 1 && recs[1].channel == 2 && recs[2].channel == 1
    ensures var rows := CommitTable(t, BatchRows(recs, t.nextRowId)).rows;
      && Select(rows, OnChannelOne) == [rows[0], rows[2]]
      && rows[0].id == t.nextRowId && rows[2].id == t.nextRowId + 2
      && MinId(rows) == t.nextRowId
      && MaxId(rows) == t.nextRowId + 2
  {
    var b := t.nextRowId;
    var batch := BatchRows(recs, b);
    var rows := CommitTable(t, batch).rows;
    assert rows == batch;
    assert rows[1..][1..][1..] == [];
    assert Select(rows[1..][1..], OnChannelOne) == [rows[2]];
    assert Select(rows[1..], OnChannelOne) == [rows[2]];
    assert Select(rows, OnChannelOne) == [rows[0], rows[2]];
    BatchConsecutive(recs, b);
    CommitKeepsWellFormed(t, batch);
    MinFirstMaxLast(rows, 0, b + 3);
  }

  // ---------------------------------------------------------------------
  // The query window: where clause, then limit/offset
  // ---------------------------------------------------------------------

  /** The filter keeps exactly the matching rows, in table order. */
  lemma {:induction false} SelectKeeps(rows: seq<Row>, keep: Row -> bool)
    ensures |Select(rows, keep)| <= |rows|
    ensures forall x :: x in Select(rows, keep) <==> x in rows && keep(x)
    decreases |rows|
  {
    if rows != [] {
      SelectKeeps(rows[1..], keep);
      assert forall x :: x in rows <==> x == rows[0] || x in rows[1..];
    }
  }

  /** Filtering keeps rows in increasing id order. */
  lemma {:induction false} SelectKeepsOrder(rows: seq<Row>, keep: Row -> bool, lo: int, hi: int)
    requires IdsBetween(rows, lo, hi)
    ensures IdsBetween(Select(rows, keep), lo, hi)
    decreases |rows|
  {
    if rows != [] {
      if keep(rows[0]) {
        SelectKeepsOrder(rows[1..], keep, rows[0].id, hi);
      } else {
        BetweenLower(rows[1..], rows[0].id, lo, hi);
        SelectKeepsOrder(rows[1..], keep, lo, hi);
      }
    }
  }

  lemma {:induction false} BetweenLower(rows: seq<Row>, lo: int, lower: int, hi: int)
    requires IdsBetween(rows, lo, hi) && lower <= lo
    ensures IdsBetween(rows, lower, hi)
  {
  }

  /** A positive limit with a non-negative offset leaves rows[offset .. offset + limit], cut at the end. */
  lemma PageWindow(rows: seq<Row>, limit: int, offset: int)
    requires limit > 0 && offset >= 0
    ensures var lo := if offset < |rows| then offset else |rows|;
      var hi := if offset + limit < |rows| then offset + limit else |rows|;
      Page(rows, limit, offset) == rows[lo..hi]
    ensures |Page(rows, limit, offset)| <= limit
  {
  }

  /** No limit clause (limit 0) or a negative limit with offset 0 yields every row. */
  lemma PageUnbounded(rows: seq<Row>, limit: int, offset: int)
    requires limit == 0 || (limit < 0 && offset <= 0)
    ensures Page(rows, limit, offset) == rows
  {
  }

  /** `limit 2 offset 1` on five rows returns the second and the third. */
  lemma PageExample(rows: seq<Row>)
    requires |rows| == 5
    ensures Page(rows, 2, 1) == [rows[1], rows[2]]
  {
    PageWindow(rows, 2, 1);
  }

  // ---------------------------------------------------------------------
  // Id stamping of a batch
  // ---------------------------------------------------------------------

  /** After `n` inserts, each object holds the row id of the last insert that wrote it, or its old id. */
  lemma {:induction false} StampAllIsLastWrite(ms: seq<LogMsg>, ids: seq<Int32>, base: nat, n: nat, k: nat)
    requires |ids| == |ms| && n <= |ms| && k < |ms|
    ensures StampAll(ms, ids, base, n)[k] ==
      match LastIndex(ms, ms[k], n)
      case Some(j) => ToInt32(base + j)
      case None => ids[k]
    decreases n
  {
    if n > 0 {
      StampAllIsLastWrite(ms, ids, base, n - 1, k);
    }
  }

  /**
   * In a batch of distinct objects, the k-th of the first `n` gets row id
   * base + k and the rest keep their ids; the ids are positive and strictly
   * increasing when the row ids fit an int.
   */
  lemma DistinctBatchIds(ms: seq<LogMsg>, ids: seq<Int32>, base: nat, n: nat)
    requires |ids| == |ms| && n <= |ms|
    requires forall i, j :: 0 <= i < j < |ms| ==> ms[i] != ms[j]
    ensures forall k :: 0 <= k < n ==> StampAll(ms, ids, base, n)[k] == ToInt32(base + k)
    ensures forall k :: n <= k < |ms| ==> StampAll(ms, ids, base, n)[k] == ids[k]
    ensures 0 < base && base + n <= INT32_MAX + 1 ==>
      && (forall k :: 0 <= k < n ==> 0 < StampAll(ms, ids, base, n)[k])
      && (forall i, j :: 0 <= i < j < n ==> StampAll(ms, ids, base, n)[i] < StampAll(ms, ids, base, n)[j])
  {
    forall k | 0 <= k < |ms|
      ensures StampAll(ms, ids, base, n)[k] == if k < n then ToInt32(base + k) else ids[k]
    {
      StampAllIsLastWrite(ms, ids, base, n, k);
      var li := LastIndex(ms, ms[k], n);
      if li.Some? {
        assert ms[li.value] == ms[k];
        assert li.value == k;
      } else {
        assert k >= n;
      }
    }
  }

  // ---------------------------------------------------------------------
  // One size check, at most one rotation per write
  // ---------------------------------------------------------------------

  predicate IsRename(s: Step) { s.Rename? }

  predicate IsSizeCheck(s: Step) { s.SizeCheck? }

  /** How many steps of a trace satisfy `p`. */
  function Count(steps: seq<Step>, p: Step -> bool): (c: nat)
    ensures c <= |steps|
  {
    if steps == [] then 0 else (if p(steps[0]) then 1 else 0) + Count(steps[1..], p)
  }

  lemma {:induction false} CountAppend(a: seq<Step>, b: seq<Step>, p: Step -> bool)
    ensures Count(a + b, p) == Count(a, p) + Count(b, p)
    decreases |a|
  {
    if a == [] {
      assert a + b == b;
    } else {
      assert (a + b)[0] == a[0];
      assert (a + b)[1..] == a[1..] + b;
      CountAppend(a[1..], b, p);
    }
  }

  /** Steps none of which satisfies `p` count zero. */
  lemma {:induction false} CountNone(steps: seq<Step>, p: Step -> bool)
    requires forall k :: 0 <= k < |steps| ==> !p(steps[k])
    ensures Count(steps, p) == 0
    decreases |steps|
  {
    if steps != [] {
      assert forall k :: 0 <= k < |steps[1..]| ==> steps[1..][k] == steps[k + 1];
      CountNone(steps[1..], p);
    }
  }

  /** A rotation renames once when the rename succeeds and never otherwise, and checks no size. */
  lemma RotationCounts(fs: FileMap, name: string, stamp: string, renameOk: bool)
    ensures Count(RotateSteps(fs, name, stamp, renameOk), IsRename) == if RenameSucceeds(fs, name, renameOk) then 1 else 0
    ensures Count(RotateSteps(fs, name, stamp, renameOk), IsSizeCheck) == 0
  {
    var steps := RotateSteps(fs, name, stamp, renameOk);
    assert forall k :: 0 <= k < |steps| ==> !IsSizeCheck(steps[k]);
    CountNone(steps, IsSizeCheck);
    var newName := RotatedName(name, stamp);
    if RenameSucceeds(fs, name, renameOk) {
      var rest := [Zip(newName, newName + ".zip"), Delete(newName), Setup(name)];
      assert steps == [CloseHandles, Rename(name, newName)] + rest;
      CountNone(rest, IsRename);
      CountAppend([CloseHandles, Rename(name, newName)], rest, IsRename);
      assert [CloseHandles, Rename(name, newName)][1..] == [Rename(name, newName)];
    } else {
      assert steps == [CloseHandles, Setup(name)];
      CountNone(steps, IsRename);
    }
  }

  /** The begin and the inserts of a write: no size check, no rename. */
  lemma InsertsCountNothing(inserts: seq<Step>)
    requires forall k :: 0 <= k < |inserts| ==> inserts[k].Insert?
    ensures Count([Begin] + inserts, IsSizeCheck) == 0 && Count([Begin] + inserts, IsRename) == 0
  {
    var head := [Begin] + inserts;
    assert forall k :: 0 < k < |head| ==> head[k] == inserts[k - 1];
    CountNone(head, IsSizeCheck);
    CountNone(head, IsRename);
  }

  /** The size check: one check, and a rename exactly when the file was too big and the rename succeeded. */
  lemma CheckedCounts(fs: FileMap, name: string, total: nat, maxSize: nat, stamp: string, renameOk: bool)
    ensures Count(CheckedSteps(fs, name, total, maxSize, stamp, renameOk), IsSizeCheck) == 1
    ensures Count(CheckedSteps(fs, name, total, maxSize, stamp, renameOk), IsRename) ==
      if total > maxSize && RenameSucceeds(fs, name, renameOk) then 1 else 0
  {
    var check := [SizeCheck(total)];
    var tail := if total > maxSize then RotateSteps(fs, name, stamp, renameOk) else [];
    assert Count(check, IsSizeCheck) == 1 && Count(check, IsRename) == 0;
    RotationCounts(fs, name, stamp, renameOk);
    assert CheckedSteps(fs, name, total, maxSize, stamp, renameOk) == check + tail;
    CountAppend(check, tail, IsSizeCheck);
    CountAppend(check, tail, IsRename);
  }

  /**
   * The steps of a write: a committed one checks the size exactly once and
   * renames at most once (the rotation, when it runs); one whose insert
   * raised does neither.
   */
  lemma WriteRotatesAtMostOnce(inserts: seq<Step>, fs: FileMap, name: string, total: nat, maxSize: nat,
                               stamp: string, renameOk: bool)
    requires forall k :: 0 <= k < |inserts| ==> inserts[k].Insert?
    ensures var steps := [Begin] + inserts + [Commit] + CheckedSteps(fs, name, total, maxSize, stamp, renameOk);
      Count(steps, IsSizeCheck) == 1 && Count(steps, IsRename) <= 1
    ensures Count([Begin] + inserts, IsSizeCheck) == 0 && Count([Begin] + inserts, IsRename) == 0
  {
    var head := [Begin] + inserts + [Commit];
    var tail := CheckedSteps(fs, name, total, maxSize, stamp, renameOk);
    InsertsCountNothing(inserts);
    CountAppend([Begin] + inserts, [Commit], IsSizeCheck);
    CountAppend([Begin] + inserts, [Commit], IsRename);
    CheckedCounts(fs, name, total, maxSize, stamp, renameOk);
    CountAppend(head, tail, IsSizeCheck);
    CountAppend(head, tail, IsRename);
  }
}
