/**
 * The parts of the embedded SQL engine (SQLite) that the log store relies on,
 * as values: its return codes, the rows of `logtable`, what a file on disk
 * holds, and how a `where` filter and a `limit`/`offset` window select rows.
 * The result codes and the length limit are SQLite's documented values.
 */
module Sqlite {
  import opened CInt

  const SQLITE_OK: int := 0
  const SQLITE_ERROR: int := 1
  const SQLITE_TOOBIG: int := 18
  const SQLITE_MISUSE: int := 21
  const SQLITE_NOTADB: int := 26
  const SQLITE_ROW: int := 100
  const SQLITE_DONE: int := 101

  /** SQLITE_MAX_LENGTH: a bound text, or a row record, longer than this is refused with SQLITE_TOOBIG. */
  const MAX_LENGTH: nat := 1_000_000_000

  datatype Option<T> = None | Some(value: T)

  /** One row of `logtable`; `id` is the 64-bit row id, the other integer columns were bound as C ints. */
  datatype Row = Row(
    id: nat,
    file: Twine,
    line: Int32,
    tid: Int32,
    timestampA: Int32,
    timestampB: Int32,
    channel: Int32,
    appName: Twine,
    machineName: Twine,
    msg: Twine)

  /** sqlite3VarintLen: the bytes of the variable-length integer for `v`, seven bits to a byte. */
  function VarintLen(v: nat): (n: nat)
    ensures 1 <= n <= 10
    ensures v < 0x80 <==> n == 1
  {
    if v < 0x80 then 1
    else if v < 0x4000 then 2
    else if v < 0x20_0000 then 3
    else if v < 0x1000_0000 then 4
    else if v < 0x8_0000_0000 then 5
    else if v < 0x400_0000_0000 then 6
    else if v < 0x2_0000_0000_0000 then 7
    else if v < 0x100_0000_0000_0000 then 8
    else if v < 0x8000_0000_0000_0000 then 9
    else 10
  }

  /**
   * The bytes the record format spends on an integer value. In schema
   * format 4, which new databases use, 0 and 1 are held in the serial type
   * and cost no byte; otherwise the smallest of 1, 2, 3, 4, 6 and 8 bytes
   * in two's complement that holds it.
   */
  function IntBytes(i: int): (b: nat)
    ensures b == 0 <==> i == 0 || i == 1
    ensures INT32_MIN <= i <= INT32_MAX ==> b <= 4
  {
    var u := if i < 0 then -i - 1 else i;
    if i == 0 || i == 1 then 0
    else if u <= 0x7F then 1
    else if u <= 0x7FFF then 2
    else if u <= 0x7F_FFFF then 3
    else if u <= 0x7FFF_FFFF then 4
    else if u <= 0x7FFF_FFFF_FFFF then 6
    else 8
  }

  /** The bytes of the four text columns of a row. */
  function TextBytes(row: Row): nat
  {
    |row.file| + |row.appName| + |row.machineName| + |row.msg|
  }

  /**
   * The size OP_MakeRecord gives the record of a `logtable` row, which it
   * refuses with SQLITE_TOOBIG above MAX_LENGTH. The header holds its own
   * length (one byte, since it is at most 27 bytes), the serial type of the
   * NULL that stands for the row-id column `id`, one serial-type byte for each
   * of the five integers and serial type 2n + 13 for each text of n bytes;
   * the body holds the integers' bytes and the texts.
   */
  function RecordSize(row: Row): (n: nat)
    ensures TextBytes(row) + 11 <= n <= TextBytes(row) + 47
  {
    var header := 1 + 1 + 5 + VarintLen(2 * |row.file| + 13) + VarintLen(2 * |row.appName| + 13)
                  + VarintLen(2 * |row.machineName| + 13) + VarintLen(2 * |row.msg| + 13);
    var body := IntBytes(row.line) + IntBytes(row.tid) + IntBytes(row.timestampA) + IntBytes(row.timestampB)
                + IntBytes(row.channel) + TextBytes(row);
    header + body
  }

  /** A column name: the ten the store creates, or any other a foreign schema may have. */
  datatype Column =
    | Id | File | Line | Tid | TimestampA | TimestampB | Channel | AppName | MachineName | Msg
    | Other(name: string)

  /**
   * The table `logtable`: its columns, its committed rows in row-id
   * order, and the next row id AUTOINCREMENT hands out.
   */
  datatype Table = Table(columns: seq<Column>, rows: seq<Row>, nextRowId: nat)

  /** What a path on disk holds: a database (with or without `logtable`), bytes that are no database, or a zip archive. */
  datatype FileContent =
    | Database(logtable: Option<Table>)
    | Unreadable
    | Archive(entry: string, content: FileContent)

  type FileMap = map<string, FileContent>

  /** A caller's `where` fragment: text the engine rejects, or a filter on rows. */
  datatype WhereClause = Malformed | Where(keep: Row -> bool)

  /** The ten columns of `logtable`, in the order the create statement declares them. */
  const LOG_COLUMNS: seq<Column> :=
    [Id, File, Line, Tid, TimestampA, TimestampB, Channel, AppName, MachineName, Msg]

  /** The nine columns the insert statement names (`id` is filled by the engine). */
  const INSERT_COLUMNS: seq<Column> :=
    [File, Line, Tid, TimestampA, TimestampB, Channel, AppName, MachineName, Msg]

  /** The name a column has in the SQL text. */
  function ColumnName(c: Column): string
  {
    match c
    case Id => "id"
    case File => "file"
    case Line => "line"
    case Tid => "tid"
    case TimestampA => "timestamp_a"
    case TimestampB => "timestamp_b"
    case Channel => "channel"
    case AppName => "appName"
    case MachineName => "machineName"
    case Msg => "msg"
    case Other(name) => name
  }

  /** The table `create table logtable (...)` makes. */
  function NewTable(): Table
  {
    Table(LOG_COLUMNS, [], 1)
  }

  /** A statement naming `cols` prepares against `t` only when every one of them exists. */
  predicate HasColumns(t: Table, cols: seq<Column>)
  {
    forall c :: c in cols ==> c in t.columns
  }

  /** Row ids strictly increasing, each above `lo` and below `hi`. */
  predicate IdsBetween(rows: seq<Row>, lo: int, hi: int)
  {
    rows == [] || (lo < rows[0].id < hi && IdsBetween(rows[1..], rows[0].id, hi))
  }

  /** Row ids `start`, `start + 1`, ... in order, as one transaction's inserts receive them. */
  predicate Consecutive(rows: seq<Row>, start: int)
  {
    rows == [] || (rows[0].id == start && Consecutive(rows[1..], start + 1))
  }

  /** What the engine keeps true of a table: row ids positive, strictly increasing, below the next row id. */
  predicate WellFormed(t: Table)
  {
    0 < t.nextRowId && IdsBetween(t.rows, 0, t.nextRowId)
  }

  /** The rows a `where` filter keeps, in table order. */
  function Select(rows: seq<Row>, keep: Row -> bool): seq<Row>
  {
    if rows == [] then []
    else if keep(rows[0]) then [rows[0]] + Select(rows[1..], keep)
    else Select(rows[1..], keep)
  }

  /**
   * The window ` limit L offset O ` leaves: a negative limit means no bound,
   * a negative offset counts as zero; limit 0 stands for "no limit clause".
   */
  function Page(rows: seq<Row>, limit: int, offset: int): seq<Row>
  {
    if limit == 0 then rows
    else
      var start := if offset < 0 then 0 else if offset < |rows| then offset else |rows|;
      var rest := rows[start..];
      if limit < 0 || limit >= |rest| then rest else rest[..limit]
  }

  /** The row `where id = id` finds. */
  function FindRow(rows: seq<Row>, id: int): Option<Row>
  {
    if rows == [] then None
    else if rows[0].id == id then Some(rows[0])
    else FindRow(rows[1..], id)
  }

  /** `min(id)` over a non-empty table. */
  function MinId(rows: seq<Row>): nat
    requires rows != []
  {
    if |rows| == 1 then rows[0].id
    else var m := MinId(rows[1..]); if rows[0].id <= m then rows[0].id else m
  }

  /** `max(id)` over a non-empty table. */
  function MaxId(rows: seq<Row>): nat
    requires rows != []
  {
    if |rows| == 1 then rows[0].id
    else var m := MaxId(rows[1..]); if rows[0].id >= m then rows[0].id else m
  }
}
