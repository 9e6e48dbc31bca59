# A verified model of the SLib log store and memory buffer

This project models three classes of the SLib C++ library in Dafny and proves properties of them.

- **LogFile2** is a rotating log store kept in an SQLite database. Each
  `LogMsg` is written as a row of the table `logtable`. A write runs in a
  transaction with a commit, then checks the file's size. When the file has
  grown beyond `maxFileSize`, the store renames it with a time stamp, zips it,
  deletes the renamed copy and starts again on a fresh file. It also counts
  messages, reads one message or a filtered page of them, and reads the oldest
  and the newest row id.
- **LogMsg** is the record being logged: id, file, line, thread id, timestamp,
  channel, application name, machine name, message text and the
  `msg_static` flag. It takes the application and machine names from a cache
  that is shared by the whole process and filled from the system only once.
- **MemBuf** is a growable byte buffer. Its memory comes from
  `malloc`/`realloc`, and `reserve` grows it and zeroes the new bytes. It has
  constructors, assignment, append, erase, clear, indexing and the global `+`
  operators.

The project is organised as these modules:

- `cint.dfy` (`CInt`): C `int` and `size_t`, the casts between them, and
  `Twine`, the text of a twine, whose length is an `int`. It models 32-bit
  truncation and 64-bit wrap-around explicitly.
- `sqlite.dfy` (`Sqlite`): the parts of SQLite the store relies on, as values:
  - return codes;
  - rows, and the size of the record a row is stored as;
  - what a path on disk holds;
  - how a `where` filter and a `limit … offset …` window pick rows;
  - `min(id)`, `max(id)` and `where id = …`.
- `logmsg.dfy` (`LogMsg`): the value `Record`, the class `NameCache` for the
  two static name strings, and the class `LogMsg` with its constructors and
  assignment.
- `logstore.dfy` (`LogStore`): the class `LogFile2`.
  - The state of the class is the file map, the connection and statement
    handles, and the open transaction with its uncommitted rows.
  - A ghost `trace` records the externally visible steps: begin, insert,
    commit, size check, close, rename, zip, delete and setup.
  - C++ exceptions become an `Outcome` or a `Result`.
  - Every method is proved against transition functions on the file map
    (`SetupFiles`, `RotateFiles`, `CommitFiles`, `CheckedFiles`, …).
- `logstore_props.dfy` (`LogStoreProps`): lemmas about those functions and
  about the rows a store's queries see.
- `membuf_spec.dfy` (`MemBufSpec`): every buffer operation as a function on
  `Buf(bytes, isNull)`.
- `membuf.dfy` (`MemBuffer`): the class `MemBuf` over an `array<bv8>`.
  - Each method is proved to turn the buffer's value into what the matching
    `MemBufSpec` function gives.
  - A method that raises leaves the buffer unchanged.
  - `memset`, `memcpy` and `realloc` are loops over arrays and new arrays.
- `membuf_ops.dfy` (`MemBufOps`): the three `operator+` overloads of `MemBuf.h`.
- `membuf_props.dfy` (`MemBufProps`): lemmas about the buffer, and both halves
  of the two buffer findings below.

Where the code and its documentation disagree, the model follows the code:

- A failed insert in `writeOneMsg` leaves the transaction open, because
  nothing rolls it back. Every later `begin transaction` on that connection
  then fails with `SQLITE_ERROR` until `createNewFile` closes it. The model has
  that behaviour (`WriteMsg`, `WriteMsgs`, `BeginTransaction`).
- While the transaction is open, the connection's own queries already see the
  uncommitted rows (`Visible`). So `messageCount()` does change after a failed
  batch, although no file changed.
- `sqlite3_open` does not read the file. A path that holds something other
  than a database fails at the first `prepare`, with `SQLITE_NOTADB`.
- The `colCount != 10` branches of `getMessage`/`getMessages` cannot be
  reached. The statement names its ten columns, so a table without them
  already fails to prepare, and that raises. The model keeps the branch with
  the count the statement always has.
- When the rename fails, `createNewFile` reopens the original file anyway and
  then always raises. What that leaves depends on the caller:
  - from `CheckSize`, during a write, the store is reopened on the old file
    and the exception reaches the writer, but only after the catch of
    `CheckSize` has finalized a statement a second time (see Findings);
  - from the constructor, the exception leaves the constructor, so no store
    exists at all, and the connection `Setup` opened and the mutex are never
    released. The model's `Start` returns that exception as its outcome.
- `reserve(n)` with `n` equal to a non-zero current size raises "Out Of
  Bounds". Its own `erase(oldSize)` fails the bounds check there. The same
  holds for appending an empty C string to a non-empty buffer. The model keeps
  this as written.
- `clear()` frees the memory only when the size is non-zero. So after `clear`,
  an empty buffer whose `m_data` is not null keeps it.

## Model

| member | source | states |
|---|---|---|
| CInt.ToInt32 | src/LogFile2.cpp:246-247 | `(int)` of a 64-bit row id keeps the value when it fits, and otherwise differs from it by a multiple of 2^32 |
| CInt.SizeWrap | src/MemBuf.cpp:301-311 | `size_t` arithmetic is exact below 2^64 and otherwise congruent modulo 2^64 |
| LogMsg.NameCache.constructor | src/LogMsg.cpp:28-29 | the two static name strings start out empty |
| LogMsg.NameCache.SetAppMachine | src/LogMsg.cpp:119-154 | each cached name is taken from the system exactly when it is empty, and kept otherwise |
| LogMsg.LogMsg.constructor | src/LogMsg.cpp:31-43 | the default record: id, line and channel 0, empty file and text, thread and time from the system, the cached names after filling, msg_static false |
| LogMsg.LogMsg.WithMessage | src/LogMsg.cpp:45-59 | as the default record, but with the given file, line and message |
| LogMsg.LogMsg.WithLocation | src/LogMsg.cpp:61-74 | as the default record, but with the given file and line |
| LogMsg.LogMsg.Copy | src/LogMsg.cpp:76-88 | the copy has every field of the original, msg_static included |
| LogMsg.LogMsg.Assign | src/LogMsg.cpp:90-103 | after `a = c`, a's value is c's old value, and self-assignment changes nothing |
| LogMsg.FillIsStable | src/LogMsg.cpp:121-123 | once a cached name is non-empty, no later SetAppMachine changes it |
| LogStore.CheckErr | src/LogFile2.cpp:142-158 | OK and DONE give 0 and ROW gives 1; MISUSE raises the misuse error; every other code raises an engine error carrying that code |
| LogStore.FirstRefused | src/LogFile2.cpp:206-244 | a batch's inserts succeed exactly up to the first record that SQLite refuses with TOOBIG: one of its texts is over the length limit at its bind, or its row record is over it at the step (the two tests are `TextsFit` and `Insertable`) |
| Sqlite.RecordSize | src/LogFile2.cpp:244 | the size of the row record the insert step builds: the texts plus 11 to 47 bytes of header and integers (the helpers `VarintLen`, the length of a header entry, and `IntBytes`, the bytes of an integer value: none for 0 and 1) |
| LogStore.Encode | src/LogFile2.cpp:206-241 | the row an insert stores: parameters 1 to 9 in column order, the wide integers cast to int, the texts whole (its round trip is RoundTrip) |
| LogStore.Decode | src/LogFile2.cpp:403-421 | the record built from a row: the texts as stored, the id kept when it fits an int, msg_static false |
| LogStore.SetupFiles | src/LogFile2.cpp:91-139 | Setup's effect on the files (see SetupKeepsExisting, SetupCreatesTable) |
| LogStore.SetupOutcome | src/LogFile2.cpp:98-110 | Setup's outcome (see SetupFailsOnForeignFile) |
| LogStore.RotateFiles | src/LogFile2.cpp:570-607 | createNewFile's effect on the files (see RotationArchives, RotationKeepsRows, RenameFailureKeepsStore) |
| LogStore.RotateOutcome | src/LogFile2.cpp:586-607 | createNewFile's outcome: Setup's error, or else the rename error, when the rename fails (see RenameFailureKeepsStore) |
| LogStore.RotateSteps | src/LogFile2.cpp:570-607 | createNewFile's steps: close, then rename, zip and delete only when the rename succeeds, then setup (see RotationCounts) |
| LogStore.CheckedFiles | src/LogFile2.cpp:311-314 | CheckSize's effect on the files: a rotation exactly when the size exceeds the maximum |
| LogStore.CheckedOutcome | src/LogFile2.cpp:311-322 | CheckSize's outcome: createNewFile's when it rotates, else none (see CheckSizeFinalizesDeadStmt) |
| LogStore.CheckedSteps | src/LogFile2.cpp:296-314 | CheckSize's steps: one size check, then a rotation's when over the maximum (see CheckedCounts) |
| LogStore.CheckSizeStmtCallsAsWritten | src/LogFile2.cpp:296-321 | the prepares and finalizes of CheckSize's local statement as written, with the catch's second finalize when createNewFile raises (the as-written half of the third finding) |
| LogStore.CheckSizeStmtCalls | src/LogFile2.cpp:296-321 | the same calls with `stmt` nulled after each finalize: every finalize is of a live statement |
| LogStore.StartFiles | src/LogFile2.cpp:40-47 | the constructor's effect on the files (see StartHealsUnreadable) |
| LogStore.StartOutcome | src/LogFile2.cpp:40-47 | the constructor's outcome (see StartFailsOnlyWhenStuck) |
| LogStore.StartSteps | src/LogFile2.cpp:40-47 | the constructor's steps: setup, then a rotation's when Setup raised |
| LogStore.CommitTable | src/LogFile2.cpp:271-290 | commit's effect on the table (see CommitKeepsWellFormed, ReadBackAfterCommit) |
| LogStore.CommitKeepsWellFormed | src/LogFile2.cpp:271-290 | committing rows with the next ids in order keeps the table's ids positive, increasing and below the next row id |
| LogStore.CommitFiles | src/LogFile2.cpp:271-290 | commit's effect on the files: the active table committed, every other path unchanged |
| LogStore.StampAll | src/LogFile2.cpp:178-180 | after the first n inserts of a batch, the ids its objects hold, each insert's write-back of lines 246-247 being the helper `Stamp` (see StampAllIsLastWrite and DistinctBatchIds) |
| LogStore.LogFile2.constructor | src/LogFile2.cpp:30-39 | the store holds the name, the maximum size and the files, with no handle open and no transaction |
| LogStore.LogFile2.Start | src/LogFile2.cpp:40-47 | files, outcome and steps are Setup's, or, when Setup raises, those of createNewFile after it |
| LogStore.LogFile2.Close | src/LogFile2.cpp:70-89 | every handle is closed, an open transaction is dropped with its rows, and no file changes |
| LogStore.LogFile2.SetupDb | src/LogFile2.cpp:91-139 | opens, creating an empty database when nothing is at the path; creates `logtable` when it is absent; raises NOTADB on a foreign file; keeps the create statement only when it created the table |
| LogStore.LogFile2.CreateNewFile | src/LogFile2.cpp:570-607 | close, rename to name.stamp, zip, delete, Setup; when the rename fails, Setup on the old file and then the rename error (unless Setup raised first) |
| LogStore.LogFile2.BeginTransaction | src/LogFile2.cpp:250-269 | succeeds only on an open database outside a transaction; inside one it raises SQLITE_ERROR |
| LogStore.LogFile2.CommitTransaction | src/LogFile2.cpp:271-290 | the pending rows join the table and its next row id moves past them; without an open transaction it raises SQLITE_ERROR and changes nothing |
| LogStore.LogFile2.WriteOneMsg | src/LogFile2.cpp:188-248 | prepares the insert once; raises TOOBIG, adding nothing, when a text bind refuses an over-long text or the step refuses a row record over the length limit; otherwise adds a row with the next row id and writes that id, cast to int, into the message |
| LogStore.LogFile2.CheckSize | src/LogFile2.cpp:292-323 | rotates exactly when page_size * page_count exceeds the maximum, and otherwise leaves files and handles as they were; its statement calls are the corrected CheckSizeStmtCalls |
| LogStore.LogFile2.WriteMsg | src/LogFile2.cpp:160-171 | begin fails: nothing changes. Insert fails: the transaction stays open, no file changes, no id is written. Otherwise the row is committed under the next id, the id is stamped, and the size is checked once |
| LogStore.LogFile2.WriteMsgs | src/LogFile2.cpp:173-186 | the first n messages, up to the first unbindable one, get consecutive row ids in order (the rows are the helper `BatchRows`, the trace's inserts the helper `InsertSteps`); the commit and the single size check run only when all n inserts did |
| LogStore.LogFile2.CommitThenCheck | src/LogFile2.cpp:167-170 | the tail both writes share: commit, then the size check on the committed files |
| LogStore.LogFile2.InsertEach | src/LogFile2.cpp:178-180 | the loop: pending rows are the encoded first n records with ids from the next row id, and the trace gains n inserts |
| LogStore.LogFile2.InsertNext | src/LogFile2.cpp:179 | one turn of the loop keeps the loop's invariant, or stops it at the first record that cannot be inserted |
| LogStore.LogFile2.MessageCount | src/LogFile2.cpp:326-348 | the number of rows the connection sees, cast to int, or the prepare error |
| LogStore.LogFile2.MessageCountWhere | src/LogFile2.cpp:350-372 | the number of rows the filter keeps; a malformed clause raises SQLITE_ERROR |
| LogStore.LogFile2.DecodeRow | src/LogFile2.cpp:403-421 | a new LogMsg whose value is the row's ten columns over a default record |
| LogStore.LogFile2.GetMessage | src/LogFile2.cpp:374-435 | the message under that id when a visible row has it, nothing otherwise, or the prepare error; the name cache is only touched when a message is built |
| LogStore.LogFile2.GetMessages | src/LogFile2.cpp:437-517 | one new, distinct LogMsg per row of the filtered rows in table order, windowed only when limit != 0; a malformed clause raises |
| LogStore.LogFile2.DecodeRows | src/LogFile2.cpp:472-499 | the row loop: one fresh message per row, in order, all distinct |
| LogStore.LogFile2.GetOldestMessageID | src/LogFile2.cpp:519-542 | `min(id)` of the visible rows, 0 when there are none |
| LogStore.LogFile2.GetNewestMessageID | src/LogFile2.cpp:544-567 | `max(id)` of the visible rows, 0 when there are none |
| LogStoreProps.SetupKeepsExisting | src/LogFile2.cpp:134-138 | an existing `logtable` is kept, rows and all |
| LogStoreProps.SetupCreatesTable | src/LogFile2.cpp:111-133 | with no table, Setup creates the empty ten-column table and touches no other path |
| LogStoreProps.SetupFailsOnForeignFile | src/LogFile2.cpp:105-108 | Setup raises if and only if the path holds something that is no database, and then with NOTADB |
| LogStoreProps.RotationArchives | src/LogFile2.cpp:570-607 | a rotation leaves the old file only inside name.stamp.zip, no name.stamp, a fresh empty table at the name, and every other path unchanged |
| LogStoreProps.RotationKeepsRows | src/LogFile2.cpp:597-600 | the archive holds the rotated table with every row in order |
| LogStoreProps.RenameFailureKeepsStore | src/LogFile2.cpp:591-596 | a failed rename leaves Setup's files, always raises, names both paths in the error when Setup succeeded, and takes only the steps close and setup |
| LogStoreProps.StartFailsOnlyWhenStuck | src/LogFile2.cpp:40-47 | the constructor raises if and only if the file is no database and cannot be renamed (opening the file never fails in the model, see "Left out"); when it does not raise, a table exists |
| LogStoreProps.StartHealsUnreadable | src/LogFile2.cpp:40-47 | an unreadable file is archived and replaced by an empty store |
| LogStoreProps.BetweenSorted | src/LogFile2.cpp:116-117 | ids between bounds are in range and strictly increasing |
| LogStoreProps.ConsecutiveIds | src/LogFile2.cpp:240-247 | consecutive ids from `start` give the k-th row the id start + k |
| LogStoreProps.BatchConsecutive | src/LogFile2.cpp:178-180 | the rows of one batch carry consecutive ids |
| LogStoreProps.MinFirstMaxLast | src/LogFile2.cpp:519-567 | on rows in id order, min(id) is the first row's id and max(id) the last's |
| LogStoreProps.FindRowFinds | src/LogFile2.cpp:379-383 | on rows in id order, `where id = x` returns exactly the row with that id |
| LogStoreProps.FindRowSound | src/LogFile2.cpp:379-393 | `where id = x` finds nothing if and only if no row has that id |
| LogStoreProps.VisibleSorted | src/LogFile2.cpp:437-499 | what a valid store's queries see has positive ids in strictly increasing order |
| LogStoreProps.OldestFirstNewestLast | src/LogFile2.cpp:519-567 | the oldest id is the first visible row's and the newest the last's |
| LogStoreProps.ReadBackAfterCommit | src/LogFile2.cpp:160-171 | after a committed batch, each record is found under its own row id, and the table stays well-formed |
| LogStoreProps.RoundTrip | src/LogFile2.cpp:206-247 | reading a written record back gives it again, with the row id and msg_static false, when its wide fields fit an int |
| LogStoreProps.InsertableWithin | src/LogFile2.cpp:206-244 | a record inserts when its texts leave 47 bytes of the limit free, and one that inserts has every text within the limit and leaves at least 11 bytes free |
| LogStoreProps.LongestMessageRefused | src/LogFile2.cpp:240-244 | a message of exactly 10^9 bytes passes its bind, and the step refuses its row |
| LogStoreProps.LongTextsRefusedTogether | src/LogFile2.cpp:206-244 | a file name and a message of 6 * 10^8 bytes each pass their binds, and the step refuses the row they make |
| LogStoreProps.ChannelExample | src/LogFile2.cpp:437-517 | three records on channels 1, 2, 1 into an empty table: `where channel = 1` returns the first and the third, with ids base and base + 2; min(id) and max(id) of the table are base and base + 2 |
| LogStoreProps.SelectKeeps | src/LogFile2.cpp:445-450 | the filter keeps exactly the matching rows |
| LogStoreProps.SelectKeepsOrder | src/LogFile2.cpp:445-450 | filtering keeps id order |
| LogStoreProps.PageWindow | src/LogFile2.cpp:451-454 | a positive limit with offset o gives rows[o .. o + limit], cut at the end |
| LogStoreProps.PageUnbounded | src/LogFile2.cpp:451 | limit 0 (no clause), or a negative limit with no offset, gives every row |
| LogStoreProps.PageExample | src/LogFile2.cpp:451-454 | `limit 2 offset 1` on five rows gives the second and the third |
| LogStoreProps.StampAllIsLastWrite | src/LogFile2.cpp:246-247 | each object of a batch holds the row id of the last insert that wrote it, or its old id |
| LogStoreProps.DistinctBatchIds | src/LogFile2.cpp:178-180 | with distinct objects, the k-th gets (int)(base + k); below 2^31 these ids are positive and strictly increasing |
| LogStoreProps.Count | src/LogFile2.cpp:160-186 | a count of steps in the model's ghost trace never exceeds the trace's length; a helper about the model's own trace, not about a line of the source |
| LogStoreProps.CountAppend | src/LogFile2.cpp:160-186 | counts over the model's ghost trace add up over concatenated traces; a helper about the model's own trace, not about a line of the source |
| LogStoreProps.CountNone | src/LogFile2.cpp:160-186 | a ghost trace without matching steps counts zero; a helper about the model's own trace, not about a line of the source |
| LogStoreProps.RotationCounts | src/LogFile2.cpp:570-607 | a rotation renames once when the rename succeeds and never otherwise, and checks no size |
| LogStoreProps.CheckSizeFinalizesDeadStmt | src/LogFile2.cpp:292-323 | CheckSize raises exactly when the file is too big and the rename fails, and as written it then, and only then, finalizes a statement that is no longer live |
| LogStoreProps.CheckedCounts | src/LogFile2.cpp:292-323 | the size check runs once, and renames exactly when the file was too big and the rename succeeded |
| LogStoreProps.InsertsCountNothing | src/LogFile2.cpp:176-180 | begin and the inserts neither rename nor check the size |
| LogStoreProps.WriteRotatesAtMostOnce | src/LogFile2.cpp:160-186 | a committed write checks the size exactly once and renames at most once; begin and the inserts do neither |
| MemBufSpec.UpToZero | src/MemBuf.cpp:263 | what `strlen` reads: a prefix without zero bytes, followed by a zero byte or the end |
| MemBufSpec.Reserve | src/MemBuf.cpp:355-381 | raises if and only if n equals a non-zero size; otherwise the size is n when growing (or when empty) and unchanged otherwise; the old bytes are kept and the new ones are zero (the `malloc`+`memset` and `erase` steps use the helpers `Zeros` and `ZeroRange`) |
| MemBufSpec.AppendCString | src/MemBuf.cpp:255-269 | the bytes are the old ones followed by the string's; null appends nothing; an empty string on a non-empty buffer raises |
| MemBufSpec.AppendBytes | src/MemBuf.cpp:271-284 | the old bytes followed by c[0..n); null or n = 0 changes nothing |
| MemBufSpec.AppendBuf | src/MemBuf.cpp:286-299 | the old bytes followed by the other buffer's |
| MemBufSpec.BoundsCheck | src/MemBuf.cpp:401-407 | passes if and only if p < size |
| MemBufSpec.EraseRange | src/MemBuf.cpp:301-311 | zeroes exactly [p, p + n) when p < size and p + n <= size, and raises otherwise (guard corrected, see Findings) |
| MemBufSpec.EraseFrom | src/MemBuf.cpp:313-327 | zeroes [p, size) when p < size, and raises otherwise |
| MemBufSpec.EraseAll | src/MemBuf.cpp:329-339 | every byte becomes zero; the size stays |
| MemBufSpec.Clear | src/MemBuf.cpp:341-353 | no bytes remain; m_data is null afterwards if there were bytes, and an empty buffer is unchanged |
| MemBufSpec.At | src/MemBuf.cpp:214-221 | byte i when i < size, and an out-of-bounds error otherwise |
| MemBufSpec.CopyOf | src/MemBuf.cpp:44-58 | the copy has the same bytes; it is null exactly when they are empty |
| MemBufSpec.FromTwine | src/MemBuf.cpp:97-107 | reserve then memcpy of the twine give exactly its bytes, in non-null memory (the `memcpy` on values is the helper `MemCpy`, also used by `SetBytes`) |
| MemBufSpec.SetBytes | src/MemBuf.cpp:241-253 | clear, reserve and memcpy give exactly the first n bytes of c, in non-null memory |
| MemBufSpec.FromCString | src/MemBuf.cpp:60-72 | null raises; otherwise the string's bytes |
| MemBufSpec.FromSize | src/MemBuf.cpp:88-95 | s zero bytes in non-null memory |
| MemBufSpec.AssignBuf | src/MemBuf.cpp:119-138 | the source's bytes; an empty source leaves the cleared buffer |
| MemBufSpec.AssignCString | src/MemBuf.cpp:140-156 | null raises; otherwise exactly the string's bytes |
| MemBuffer.ZeroFill | src/MemBuf.cpp:324 | `memset(a + lo, 0, hi - lo)`: exactly [lo, hi) becomes zero |
| MemBuffer.CopyInto | src/MemBuf.cpp:266 | `memcpy(a + at, src, n)`: exactly [at, at + n) becomes src |
| MemBuffer.MemBuf.constructor | src/MemBuf.cpp:33-42 | an empty buffer with null memory |
| MemBuffer.MemBuf.Copy | src/MemBuf.cpp:44-58 | the copy's value is CopyOf of the original, in new memory |
| MemBuffer.MemBuf.Sized | src/MemBuf.cpp:88-95 | s zero bytes in new memory |
| MemBuffer.MemBuf.FromTwine | src/MemBuf.cpp:97-107 | the twine's bytes in new memory |
| MemBuffer.MemBuf.FromCString | src/MemBuf.cpp:60-72 | raises on null; otherwise a new buffer holding the string |
| MemBuffer.MemBuf.Reserve | src/MemBuf.cpp:355-381 | the buffer becomes MemBufSpec.Reserve of its old value, or raises with the value unchanged; it writes only into new memory |
| MemBuffer.MemBuf.BoundsCheck | src/MemBuf.cpp:401-407 | passes if and only if p < size |
| MemBuffer.MemBuf.EraseFrom | src/MemBuf.cpp:313-327 | the buffer becomes MemBufSpec.EraseFrom of its old value, or raises with the value unchanged |
| MemBuffer.MemBuf.EraseRange | src/MemBuf.cpp:301-311 | the buffer becomes MemBufSpec.EraseRange of its old value (corrected guard), or raises with the value unchanged |
| MemBuffer.MemBuf.EraseAll | src/MemBuf.cpp:329-339 | every byte becomes zero |
| MemBuffer.MemBuf.Clear | src/MemBuf.cpp:341-353 | the buffer becomes MemBufSpec.Clear of its old value |
| MemBuffer.MemBuf.AppendCString | src/MemBuf.cpp:255-269 | the buffer becomes MemBufSpec.AppendCString of its old value, or raises with the value unchanged |
| MemBuffer.MemBuf.AppendBytes | src/MemBuf.cpp:271-284 | the buffer becomes MemBufSpec.AppendBytes of its old value |
| MemBuffer.MemBuf.AppendBuf | src/MemBuf.cpp:286-299 | the buffer becomes its old bytes followed by the other's old bytes, even when the other is itself (corrected, see Findings); another buffer is left unchanged |
| MemBuffer.MemBuf.AssignBuf | src/MemBuf.cpp:119-138 | self-assignment changes nothing; otherwise the buffer becomes MemBufSpec.AssignBuf of its old value and the source stays |
| MemBuffer.MemBuf.AssignCString | src/MemBuf.cpp:140-156 | raises on null with the buffer unchanged; otherwise exactly the string's bytes |
| MemBuffer.MemBuf.AssignTwine | src/MemBuf.cpp:173-184 | exactly the twine's bytes |
| MemBuffer.MemBuf.Set | src/MemBuf.cpp:241-253 | exactly the first n bytes of c |
| MemBuffer.MemBuf.At | src/MemBuf.cpp:214-221 | byte i, or out-of-bounds when i >= size |
| MemBuffer.MemBuf.Size | src/MemBuf.cpp:383-393 | the number of bytes |
| MemBuffer.MemBuf.Empty | src/MemBuf.cpp:395-399 | true if and only if there are no bytes |
| MemBuffer.MemBuf.Zip | src/MemBuf.cpp:451-457 | changes nothing |
| MemBuffer.MemBuf.Unzip | src/MemBuf.cpp:459-465 | changes nothing |
| MemBufOps.AsCString | src/MemBuf.cpp:223-227 | a buffer read through `operator()()`: null when its memory is null, else its bytes up to the first zero |
| MemBufOps.PlusBuf | src/MemBuf.h:239-244 | lhs followed by rhs read as a C string; raises if and only if lhs is non-empty and rhs, read as a C string, is empty but not null (an empty rhs in non-null memory, or one whose first byte is zero) |
| MemBufOps.PlusCString | src/MemBuf.h:249-254 | lhs followed by the string; raises if and only if lhs is non-empty and the string is empty |
| MemBufOps.CStringPlus | src/MemBuf.h:259-264 | a null lhs raises; otherwise lhs followed by rhs read as a C string |
| MemBufOps.PlusIsAppend | src/MemBuf.h:239-244 | for a non-empty rhs without zero bytes, `lhs + rhs` is the append of rhs to a copy of lhs |
| MemBufProps.ReserveToSizeRaises | src/MemBuf.cpp:366-377 | reserve to the current non-zero size raises, and so does appending "" to a non-empty buffer |
| MemBufProps.ReserveTwiceRaises | src/MemBuf.cpp:355-381 | a successful growing reserve repeated raises |
| MemBufProps.ReserveGrowsOnly | src/MemBuf.cpp:355-381 | reserve never shrinks and keeps every old byte |
| MemBufProps.EraseFromIsEraseRange | src/MemBuf.cpp:313-327 | erase(p) is erase(p, size - p) |
| MemBufProps.EraseAllIsEraseFromStart | src/MemBuf.cpp:329-339 | erase() of a non-empty buffer is erase(0) |
| MemBufProps.EraseKeepsSize | src/MemBuf.cpp:301-339 | no erase changes the size or the null-ness of the memory |
| MemBufProps.EraseRangeIdempotent | src/MemBuf.cpp:301-311 | erasing a range twice is erasing it once |
| MemBufProps.AppendBufAssociative | src/MemBuf.cpp:286-299 | appending buffers is associative |
| MemBufProps.ClearEmpties | src/MemBuf.cpp:341-353 | clear empties the buffer and is idempotent |
| MemBufProps.CopyReadsBack | src/MemBuf.cpp:44-58 | indexing a copy or an assigned buffer gives back the source's bytes |
| MemBufProps.AppendBytesReadsBack | src/MemBuf.cpp:271-284 | the appended bytes read back as c[0..n) |
| MemBufSpec.EraseGuardAsWritten | src/MemBuf.cpp:305-306 | the guard of erase(p, n) as written: bounds_check(p) and bounds_check(p + n - 1) with size_t wrap-around (see EraseGuardLetsOverrunThrough) |
| MemBufProps.EraseGuardLetsOverrunThrough | src/MemBuf.cpp:305-306 | the guard as written lets size 10, p 5, n 2^64 - 2 through, and refuses erase(0, 0) |
| MemBufProps.EraseGuardsAgreeWithoutWrap | src/MemBuf.cpp:305-306 | where p + n - 1 neither wraps nor underflows, the two guards agree |
| MemBufProps.SelfAppendAsWritten | src/MemBuf.cpp:286-299 | append(const MemBuf&) of a buffer to itself as written: reserve keeps the old bytes, and the memcpy starts at the old size with a count read after the reserve |
| MemBufProps.SelfAppendOverruns | src/MemBuf.cpp:286-299 | for every non-empty buffer the as-written self-append doubles it and copies to three times the old size: past its bytes always, and past its allocation exactly when it holds more than the 10 bytes of slack |
| MemBufProps.SelfAppendElevenBytes | src/MemBuf.cpp:286-299 | an 11-byte buffer appended to itself writes up to byte 33 of a 32-byte allocation |
| MemBufProps.SelfAppendDoubles | src/MemBuf.cpp:286-299 | the corrected self-append doubles the bytes |

## Left out

- The mutex (`Lock theLock(m_mutex)`): every public call is one atomic step.
- The text of the SQL statements: each statement is modelled by its effect on
  the tables and by the codes SQLite returns. The `where` fragment is a filter
  on rows, or `Malformed` for text SQLite rejects.
- I/O is passed in as parameters:
  - the clock string of the rotated name;
  - whether `rename` succeeds;
  - the two `pragma` results (page values below 2^31, as `sqlite3_column_int` returns them).
- The zip archive's compressed format: the archive is a value that holds the renamed file.
- The thread id, the time of day, the host name and the executable path come in an `Env`.
- The POSIX branch of `SetAppMachine` reads the executable path into the
  twine without calling `check_size` (src/LogMsg.cpp:143-151). The twine
  class is not part of this model, so the model uses the fill-once rule that
  both branches aim at.
- Error messages and the `sqlite3_errmsg` text: an error carries only its kind and code.
- The `WARN` in the `colCount` branches, and `EnEx` tracing.
- The Windows timestamp (`ftime`, `millitm`): the model follows the POSIX `timeval` pair.
- `malloc`/`realloc` failure: allocation is a new array and never fails.
- The 10 bytes of slack each allocation adds: the memory is exactly `size` long.
- The `(int)` casts of the text lengths passed to `sqlite3_bind_text`
  change nothing: `twine::length()` already returns an `int`
  (src/twine.h:424). A text is a `Twine`, a string of at most INT32_MAX
  characters.
- The size of a row record follows SQLite's record format for a database of
  schema format 4, the format new databases get. In an older format the
  integers 0 and 1 take one byte each instead of none.
- Every `sqlite3_step` that runs an insert, `begin` or `commit` succeeds in
  the model, except where stated (src/LogFile2.cpp:244, 260, 281). I/O errors
  such as a full disk, `SQLITE_BUSY` or `SQLITE_IOERR` are not modelled: an
  insert fails only with `SQLITE_TOOBIG` (at a text bind or at the step) or
  when its statement cannot be prepared, and `begin` and `commit` fail only
  from the state of the connection.
- `sqlite3_open` never fails in the model (src/LogFile2.cpp:99-101): there is
  no `SQLITE_CANTOPEN` for a missing directory or a file without permission.
  The steps of the pragma, `sqlite_master`, `create table` and `select`
  statements fail only as the model's state says (no table, a missing
  column, a closed connection, a file that is no database). So
  `StartFailsOnlyWhenStuck` holds only under these assumptions: in the
  program, the constructor can also fail when the file cannot be opened.
- `encode64`/`decode64` (src/MemBuf.cpp:409-449): this model has no Base64 codec.
- The `xmlChar*` constructor, assignment and `+=`: they are the `char*` code
  again with a cast. The one difference is that `operator=(const xmlChar*)`
  has no null check.
- `operator()()` and `data()`, which expose the raw pointer, are left out.
  `AsCString` models how `operator+` reads a buffer through `operator()()`.
- `set(const char*)` is `operator=(const char*)`, so it is covered by
  `AssignCString`.
- The `operator+=` overloads are covered by the `append` methods they call.
  `+=` of a twine appends the twine's C string, which is `AppendCString`.
- MemBufOps.AsCString: the bytes after a buffer are read as a terminating
  zero. The zero from the slack of `reserve` is not guaranteed after
  `realloc`.
- A twine is modelled as its bytes.
- MemBuffer.MemBuf.AppendCString, AppendBytes, AppendBuf: `size + csize` is
  required to fit a `size_t` rather than modelling its wrap-around.
- MemBuffer.MemBuf.Reserve: `reserve(0)` on an empty buffer gives non-null
  memory without bytes, as `malloc(10)` does. A later `clear` does not free
  it, so it leaks. The model has no heap to show that leak.
- MemBuffer.MemBuf.Set: `c` is a sequence, so the undefined case of a null
  `c` with `n > 0` is not modelled.
- The destructor `~LogFile2` is `Close` without the ghost step.
- `~MemBuf` frees the memory, which the model has no need to track.
- Windows `GetComputerName`/`GetModuleFileName` are left out.

## Findings

| source | as written | input that shows it | evidently intended | confidence | as-written member | corrected member |
|---|---|---|---|---|---|---|
| src/MemBuf.cpp:301-311 | `erase(p, n)` checks `bounds_check(p+n-1)` in `size_t`, which wraps (the guard `EraseGuardAsWritten`) | size 10, p = 5, n = 2^64 - 2: p + n - 1 wraps to 2, both checks pass, and `memset` writes far past the end; also erase(0, 0) on any buffer raises, because 0 + 0 - 1 wraps to 2^64 - 1 | erase exactly [p, p + n) when p < size and p + n <= size | high (not executed) | MemBufProps.EraseGuardLetsOverrunThrough | MemBufSpec.EraseRange |
| src/LogFile2.cpp:292-323 | `CheckSize` finalizes its page_count statement and leaves `stmt` pointing at it; when `createNewFile` raises, the catch finalizes that dead statement again before rethrowing | a store whose file is over `maxFileSize` and whose rename fails (for example in a read-only directory): `createNewFile` raises the rename error, and the catch calls `sqlite3_finalize` on the finalized statement | set `stmt` to NULL after each finalize, so the catch finalizes only a statement still live | high (not executed) | LogStoreProps.CheckSizeFinalizesDeadStmt | LogStore.CheckSizeStmtCalls |
| src/MemBuf.cpp:286-299 | `append(const MemBuf& c)` reads `c.size()` for the `memcpy` after `reserve` has already grown `m_data_size` | a buffer of 11 bytes appended to itself: reserve makes it 22 bytes (allocation 32), and memcpy copies 22 bytes to offset 11, writing up to byte 33 | copy the size c had before the reserve, doubling the buffer | high (not executed) | MemBufProps.SelfAppendOverruns | MemBuffer.MemBuf.AppendBuf |
