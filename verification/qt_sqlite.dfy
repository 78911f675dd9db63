/**
 * The Qt-backed SQLite façade: a database connection, prepared statements
 * with typed binds and reads, and the mapping of backend errors to
 * exceptions.
 *
 * The Qt database itself is an abstract backend. Every Qt call that can
 * fail takes the backend's answer as a parameter (an `OpenReply`, or the
 * `SqlError` that `lastError()` reports afterwards), and the connection
 * keeps a log of the calls made on it, so contracts can say exactly what
 * was sent.
 */
module QtSqlite {
  import opened Results
  import ConnectOptions
  import Decimal

  /** std::numeric_limits<int>::max() for a 32-bit int. */
  const IntMax := 0x7FFF_FFFF

  const TooLongMessage := "value too long for sqlite3_bind_text"

  // ---------------------------------------------------------------------------
  // Errors
  // ---------------------------------------------------------------------------

  /** QSqlError::ErrorType. */
  datatype ErrorType = NoError | ConnectionError | StatementError | TransactionError | UnknownError

  /** The numeric value Qt gives each error type; it becomes the exception's code. */
  function Code(t: ErrorType): int {
    match t
    case NoError => 0
    case ConnectionError => 1
    case StatementError => 2
    case TransactionError => 3
    case UnknownError => 4
  }

  /** What `lastError()` reports: an error type and the driver's message. */
  datatype SqlError = SqlError(kind: ErrorType, text: string)

  /** What a call into the façade can throw. */
  datatype Failure =
    | SqliteException(code: int, message: string)  // mapbox::sqlite::Exception
    | RangeError(message: string)                  // std::range_error

  /** The exception thrown for a backend error: its type and message, unchanged. */
  function Raise(e: SqlError): Failure {
    SqliteException(Code(e.kind), e.text)
  }

  /**
   * The test `exec` and `checkError` make after every backend call: throw
   * exactly when the last error is not `NoError`, carrying its type and text.
   */
  function Check(e: SqlError): (r: Option<Failure>)
    ensures r.Some? <==> e.kind != NoError
    ensures r.Some? ==> r.value.SqliteException? && r.value.code == Code(e.kind) && r.value.message == e.text
  {
    if e.kind != NoError then Some(Raise(e)) else None
  }

  /** The exception determines the backend error: nothing is lost in the mapping. */
  lemma CheckPreservesError(e1: SqlError, e2: SqlError)
    requires Check(e1).Some? && Check(e1) == Check(e2)
    ensures e1 == e2
  {
    assert Code(e1.kind) == Code(e2.kind);
  }

  // ---------------------------------------------------------------------------
  // Database
  // ---------------------------------------------------------------------------

  /** The reply of QSqlDatabase::open(): success, or failure with the last error. */
  datatype OpenReply = Opened | OpenFailed(lastError: SqlError)

  /** The calls the façade makes on the Qt database, in the order it makes them. */
  datatype BackendCall =
    | AddDatabase(driver: string)
    | SetConnectOptions(options: string)
    | SetDatabaseName(name: string)
    | Open
    | Close
    | Exec(sql: string)

  /** The state of a Qt database connection as the façade sees it. */
  datatype Connection = Connection(options: string, fileName: string, isOpen: bool, log: seq<BackendCall>)

  /** A `Database` owns its connection through a pointer that a move empties. */
  datatype Database = Database(impl: Option<Connection>)

  /** `Database::operator bool`: whether this object still owns a connection. */
  predicate IsValid(db: Database) {
    db.impl.Some?
  }

  /**
   * The database constructor: compose the connect options from the flags,
   * name the file and open it; a failed open throws the backend's error.
   */
  function OpenDatabase(fileName: string, flags: ConnectOptions.OpenFlags, reply: OpenReply): (r: Result<Database, Failure>)
    ensures r.Ok? <==> reply.Opened?
    ensures reply.OpenFailed? ==> r == Err(Raise(reply.lastError))
    ensures r.Ok? ==>
              && IsValid(r.value)
              && r.value.impl.value.isOpen
              && r.value.impl.value.fileName == fileName
              && ConnectOptions.Split(r.value.impl.value.options) == ConnectOptions.Requested(flags)
              && r.value.impl.value.log ==
                 [AddDatabase("QSQLITE"), SetConnectOptions(r.value.impl.value.options), SetDatabaseName(fileName), Open]
  {
    var options := ConnectOptions.Compose(flags);
    ConnectOptions.ComposeLists(flags);
    match reply
    case Opened =>
      Ok(Database(Some(Connection(options, fileName, true,
                                  [AddDatabase("QSQLITE"), SetConnectOptions(options), SetDatabaseName(fileName), Open]))))
    case OpenFailed(e) => Err(Raise(e))
  }

  /** The move constructor: the new object takes the connection, the old one is left empty. */
  function MoveConstruct(other: Database): (r: (Database, Database))
    ensures r.0.impl == other.impl
    ensures !IsValid(r.1)
  {
    (Database(other.impl), Database(None))
  }

  /** Move assignment swaps the two objects' connections. */
  function MoveAssign(self: Database, other: Database): (r: (Database, Database))
    ensures r.0.impl == other.impl && r.1.impl == self.impl
    ensures IsValid(r.0) == IsValid(other) && IsValid(r.1) == IsValid(self)
  {
    (Database(other.impl), Database(self.impl))
  }

  /**
   * `operator bool` across the lifetime of a database: true after a
   * successful open, false for the moved-from object, and swapped by move
   * assignment.
   */
  lemma OperatorBool(fileName: string, flags: ConnectOptions.OpenFlags, a: Database, b: Database)
    ensures IsValid(OpenDatabase(fileName, flags, Opened).value)
    ensures !IsValid(MoveConstruct(a).1) && IsValid(MoveConstruct(a).0) == IsValid(a)
    ensures IsValid(MoveAssign(a, b).0) == IsValid(b) && IsValid(MoveAssign(a, b).1) == IsValid(a)
    ensures IsValid(a) <==> DestroyDatabase(a) != []
  {
  }

  /** Moving twice by assignment gives both objects their connections back. */
  lemma MoveAssignTwice(a: Database, b: Database)
    ensures var (a1, b1) := MoveAssign(a, b); MoveAssign(a1, b1) == (a, b)
  {
  }

  /** Destroying the database closes its connection, if it still owns one. */
  function DestroyDatabase(db: Database): (log: seq<BackendCall>)
    ensures IsValid(db) ==> log == db.impl.value.log + [Close]
    ensures !IsValid(db) ==> log == []
  {
    match db.impl
    case Some(c) => c.log + [Close]
    case None => []
  }

  /**
   * `Database::setBusyTimeout`: append the busy-timeout option to the current
   * options, close the connection if it is open, store the options and reopen.
   * A failed reopen throws the backend's error and leaves the connection closed
   * with the new options stored.
   */
  function SetBusyTimeout(db: Database, ms: ConnectOptions.Int64, reply: OpenReply): (r: Outcome<Database, Failure>)
    requires IsValid(db)
    ensures IsValid(r.state)
    ensures var before, after := db.impl.value, r.state.impl.value;
      && after.options == ConnectOptions.WithBusyTimeout(before.options, ms)
      && after.fileName == before.fileName
      && after.isOpen == reply.Opened?
      && after.log == before.log + (if before.isOpen then [Close] else []) + [SetConnectOptions(after.options), Open]
    ensures r.Threw() <==> reply.OpenFailed?
    ensures reply.OpenFailed? ==> r.thrown == Some(Raise(reply.lastError))
  {
    var c := db.impl.value;
    var options := ConnectOptions.WithBusyTimeout(c.options, ms);
    var closing := if c.isOpen then [Close] else [];
    var log := c.log + closing + [SetConnectOptions(options), Open];
    var thrown := match reply
      case Opened => None
      case OpenFailed(e) => Some(Raise(e));
    Outcome(Database(Some(Connection(options, c.fileName, reply.Opened?, log))), thrown)
  }

  /** Whatever options were in force, the busy timeout is added as one more option. */
  lemma SetBusyTimeoutKeepsOptions(db: Database, parts: seq<string>, ms: ConnectOptions.Int64, reply: OpenReply)
    requires IsValid(db) && ConnectOptions.AreOptions(parts)
    requires db.impl.value.options == ConnectOptions.Join(parts)
    ensures ConnectOptions.Split(SetBusyTimeout(db, ms, reply).state.impl.value.options)
              == parts + [ConnectOptions.BusyTimeoutOption(ms)]
  {
    ConnectOptions.BusyTimeoutAppendsOption(parts, ms);
  }

  /**
   * The backend calls that running `sql` sends: Qt does not run an empty
   * query text, so that sends nothing.
   */
  function ExecCalls(sql: string): seq<BackendCall> {
    if sql == "" then [] else [Exec(sql)]
  }

  /**
   * What running `sql` throws: an empty text is never run and leaves the
   * returned query's error at `NoError`; otherwise the backend's error.
   */
  function ExecCheck(sql: string, lastError: SqlError): Option<Failure> {
    if sql == "" then None else Check(lastError)
  }

  /**
   * `Database::exec`: run the statement, then throw exactly when the backend
   * reports an error. Nothing but the log of issued statements changes, and
   * an empty text changes nothing and never throws.
   */
  function ExecSql(db: Database, sql: string, lastError: SqlError): (r: Outcome<Database, Failure>)
    requires IsValid(db)
    ensures IsValid(r.state)
    ensures sql == "" ==> r == Outcome(db, None)
    ensures sql != "" ==> r.state.impl.value == db.impl.value.(log := db.impl.value.log + [Exec(sql)])
    ensures r.Threw() <==> sql != "" && lastError.kind != NoError
    ensures r.Threw() ==> r.thrown.value == SqliteException(Code(lastError.kind), lastError.text)
    ensures r.state.impl.value == db.impl.value.(log := db.impl.value.log + ExecCalls(sql))
    ensures r.thrown == ExecCheck(sql, lastError)
  {
    var c := db.impl.value;
    if sql == "" then Outcome(db, None)
    else Outcome(Database(Some(c.(log := c.log + [Exec(sql)]))), Check(lastError))
  }

  // ---------------------------------------------------------------------------
  // Statements
  // ---------------------------------------------------------------------------

  /** A QVariant as the façade stores it: null, or one value of a kind. */
  datatype Variant = Null | Int(i: int, kind: IntKind) | Real(r: real) | Boolean(b: bool) | Text(s: string)

  /** A prepared query and the values bound to its parameter offsets. */
  datatype Statement = Statement(sql: string, bound: map<int, Variant>)

  /** The connection after `prepare`, and the new statement or the exception that stopped it. */
  datatype Prepared = Prepared(db: Database, statement: Result<Statement, Failure>)

  /**
   * `Database::prepare`: construct the Qt query on the connection, then
   * throw if the backend reports an error. Qt's query constructor executes
   * a non-empty query text at once, so that text reaches the connection; an
   * empty one is not run and cannot fail.
   */
  function Prepare(db: Database, sql: string, lastError: SqlError): (r: Prepared)
    requires IsValid(db)
    ensures IsValid(r.db)
    ensures sql != "" ==> r.db.impl.value == db.impl.value.(log := db.impl.value.log + [Exec(sql)])
    ensures sql == "" ==> r.db == db
    ensures r.statement.Ok? <==> sql == "" || lastError.kind == NoError
    ensures r.statement.Ok? ==> r.statement.value.sql == sql && r.statement.value.bound == map[]
    ensures r.statement.Err? ==> r.statement.error == Raise(lastError)
  {
    var c := db.impl.value;
    var after := if sql == "" then db else Database(Some(c.(log := c.log + [Exec(sql)])));
    var statement := if sql == "" || lastError.kind == NoError then Ok(Statement(sql, map[])) else Err(Raise(lastError));
    Prepared(after, statement)
  }

  /** A freshly prepared statement has nothing bound: every offset reads as null. */
  lemma PreparedReadsNull(db: Database, sql: string, e: SqlError, offset: int)
    requires IsValid(db) && e.kind == NoError
    ensures var st := Prepare(db, sql, e).statement.value;
      && ReadBound(st, offset, e) == Ok(Null)
      && GetOptionalInt64(st, offset, e) == Ok(None)
      && GetOptionalDouble(st, offset, e) == Ok(None)
      && GetOptionalString(st, offset, e) == Ok(None)
      && GetOptionalTimestamp(st, offset, e) == Ok(None)
  {
  }

  /** `QSqlQuery::boundValue`: an offset nothing was bound to reads as null. */
  function BoundValue(st: Statement, offset: int): Variant {
    if offset in st.bound then st.bound[offset] else Null
  }

  /**
   * The generic `Statement::bind`: store the value at the offset, then check
   * the backend's error. The value stays stored even when the check throws.
   */
  function Bind(st: Statement, offset: int, v: Variant, lastError: SqlError): (r: Outcome<Statement, Failure>)
    ensures BoundValue(r.state, offset) == v
    ensures forall k :: k != offset ==> BoundValue(r.state, k) == BoundValue(st, k)
    ensures r.state.sql == st.sql
    ensures r.thrown == Check(lastError)
  {
    Outcome(st.(bound := st.bound[offset := v]), Check(lastError))
  }

  /** The fixed-width integer types the generic bind and get are instantiated for. */
  datatype IntKind = Int8 | Int16 | Int32 | Int64 | UInt8 | UInt16 | UInt32

  function Width(k: IntKind): nat {
    match k
    case Int8 => 8
    case Int16 => 16
    case Int32 => 32
    case Int64 => 64
    case UInt8 => 8
    case UInt16 => 16
    case UInt32 => 32
  }

  predicate Signed(k: IntKind) {
    k.Int8? || k.Int16? || k.Int32? || k.Int64?
  }

  /** 2 to the power of the type's width: the modulus of its arithmetic. */
  function Modulus(k: IntKind): (m: int)
    ensures m > 0 && m % 2 == 0
  {
    match Width(k)
    case 8 => 0x100
    case 16 => 0x1_0000
    case 32 => 0x1_0000_0000
    case _ => 0x1_0000_0000_0000_0000
  }

  function MinOf(k: IntKind): int {
    if Signed(k) then -(Modulus(k) / 2) else 0
  }

  function MaxOf(k: IntKind): int {
    if Signed(k) then Modulus(k) / 2 - 1 else Modulus(k) - 1
  }

  predicate InRange(k: IntKind, x: int) {
    MinOf(k) <= x <= MaxOf(k)
  }

  /**
   * The two's-complement truncation a conversion to a narrower integer type
   * performs: the value in the type's range that is congruent to `x`.
   */
  function Wrap(k: IntKind, x: int): (r: int)
    ensures InRange(k, r)
    ensures (r - x) % Modulus(k) == 0
    ensures InRange(k, x) ==> r == x
  {
    WrapMod(x, MinOf(k), Modulus(k));
    WrapCongruent(k, x);
    (x - MinOf(k)) % Modulus(k) + MinOf(k)
  }

  /** Reducing `x` into the window [low, low + m) keeps the values already in it. */
  lemma WrapMod(x: int, low: int, m: int)
    requires m > 0
    ensures var r := (x - low) % m + low;
      low <= r < low + m && (low <= x < low + m ==> r == x)
  {
    var a := x - low;
    if 0 <= a < m {
      assert a == m * (a / m) + a % m;
      assert a / m == 0;
    }
  }

  /** The truncation moves `x` by a whole multiple of the type's modulus. */
  lemma WrapCongruent(k: IntKind, x: int)
    ensures ((x - MinOf(k)) % Modulus(k) + MinOf(k) - x) % Modulus(k) == 0
  {
  }

  /** `bind(offset, nullptr)`: the offset reads as null afterwards. */
  function BindNull(st: Statement, offset: int, lastError: SqlError): (r: Outcome<Statement, Failure>)
    ensures BoundValue(r.state, offset) == Null
    ensures forall k :: k != offset ==> BoundValue(r.state, k) == BoundValue(st, k)
    ensures r.thrown == Check(lastError)
  {
    Bind(st, offset, Null, lastError)
  }

  /** Binding an integer of one of the fixed-width types stores its value. */
  function BindInteger(st: Statement, offset: int, k: IntKind, x: int, lastError: SqlError): (r: Outcome<Statement, Failure>)
    requires InRange(k, x)
    ensures BoundValue(r.state, offset) == Int(x, k)
    ensures forall j :: j != offset ==> BoundValue(r.state, j) == BoundValue(st, j)
    ensures r.thrown == Check(lastError)
  {
    Bind(st, offset, Int(x, k), lastError)
  }

  function BindDouble(st: Statement, offset: int, d: real, lastError: SqlError): (r: Outcome<Statement, Failure>)
    ensures BoundValue(r.state, offset) == Real(d)
    ensures forall k :: k != offset ==> BoundValue(r.state, k) == BoundValue(st, k)
    ensures r.thrown == Check(lastError)
  {
    Bind(st, offset, Real(d), lastError)
  }

  function BindBool(st: Statement, offset: int, b: bool, lastError: SqlError): (r: Outcome<Statement, Failure>)
    ensures BoundValue(r.state, offset) == Boolean(b)
    ensures forall k :: k != offset ==> BoundValue(r.state, k) == BoundValue(st, k)
    ensures r.thrown == Check(lastError)
  {
    Bind(st, offset, Boolean(b), lastError)
  }

  /** A system-clock time point of whole seconds; `time_t` is its count of seconds since the epoch. */
  datatype Timestamp = Timestamp(seconds: int)

  /**
   * Ticks per second of `std::chrono::system_clock` (nanoseconds in
   * libstdc++). `to_time_t` and `from_time_t` pass through a 64-bit count of
   * ticks.
   */
  const ClockTicksPerSecond := 1_000_000_000

  /** The largest whole-second count whose tick count fits in 64 bits (about the year 2262). */
  const MaxClockSeconds := 9_223_372_036

  /** A time point whose conversion to the system clock's ticks does not overflow. */
  predicate ValidTimestamp(t: Timestamp) {
    InRange(Int64, t.seconds * ClockTicksPerSecond)
  }

  /** The clock's range in whole seconds; within it, the seconds themselves fit in 64 bits. */
  lemma ValidTimestampRange(t: Timestamp)
    ensures ValidTimestamp(t) <==> -MaxClockSeconds <= t.seconds <= MaxClockSeconds
    ensures ValidTimestamp(t) ==> InRange(Int64, t.seconds)
  {
  }

  /** A timestamp is bound as its `time_t` seconds, through the 64-bit integer bind. */
  function BindTimestamp(st: Statement, offset: int, t: Timestamp, lastError: SqlError): (r: Outcome<Statement, Failure>)
    requires ValidTimestamp(t)
    ensures BoundValue(r.state, offset) == Int(t.seconds, Int64)
    ensures forall k :: k != offset ==> BoundValue(r.state, k) == BoundValue(st, k)
    ensures r.thrown == Check(lastError)
  {
    ValidTimestampRange(t);
    BindInteger(st, offset, Int64, t.seconds, lastError)
  }

  /** An optional timestamp binds null when empty and its seconds when present. */
  function BindOptionalTimestamp(st: Statement, offset: int, t: Option<Timestamp>, lastError: SqlError): (r: Outcome<Statement, Failure>)
    requires t.Some? ==> ValidTimestamp(t.value)
    ensures t.None? ==> BoundValue(r.state, offset) == Null
    ensures t.Some? ==> BoundValue(r.state, offset) == Int(t.value.seconds, Int64)
    ensures forall k :: k != offset ==> BoundValue(r.state, k) == BoundValue(st, k)
    ensures r.thrown == Check(lastError)
  {
    match t
    case Some(v) => BindTimestamp(st, offset, v, lastError)
    case None => BindNull(st, offset, lastError)
  }

  /** An optional string binds null when empty and the text when present. */
  function BindOptionalString(st: Statement, offset: int, s: Option<string>, lastError: SqlError): (r: Outcome<Statement, Failure>)
    ensures s.None? ==> BoundValue(r.state, offset) == Null
    ensures s.Some? ==> BoundValue(r.state, offset) == Text(s.value)
    ensures forall k :: k != offset ==> BoundValue(r.state, k) == BoundValue(st, k)
    ensures r.thrown == Check(lastError)
  {
    match s
    case Some(v) => Bind(st, offset, Text(v), lastError)
    case None => BindNull(st, offset, lastError)
  }

  /**
   * The length guard of the text bind that takes a pointer and a length:
   * a length that does not fit in an `int` throws `range_error`; the
   * statement is not touched either way.
   */
  function BindTextOfLength(st: Statement, offset: int, length: nat): (r: Outcome<Statement, Failure>)
    ensures r.state == st
    ensures r.Threw() <==> length > IntMax
    ensures r.Threw() ==> r.thrown.value == RangeError("value too long for sqlite3_bind_text")
  {
    if length > IntMax then Outcome(st, Some(RangeError(TooLongMessage))) else Outcome(st, None)
  }

  /** The text bind for a `std::string` checks the string's byte length. */
  function BindText(st: Statement, offset: int, value: seq<bv8>): (r: Outcome<Statement, Failure>)
    ensures r.state == st
    ensures r.Threw() <==> |value| > IntMax
    ensures r.Threw() ==> r.thrown.value == RangeError(TooLongMessage)
  {
    BindTextOfLength(st, offset, |value|)
  }

  /** The blob bind's length guard, with the same limit and the same message. */
  function BindBlobOfLength(st: Statement, offset: int, length: nat): (r: Outcome<Statement, Failure>)
    ensures r.state == st
    ensures r.Threw() <==> length > IntMax
    ensures r.Threw() ==> r.thrown.value == RangeError("value too long for sqlite3_bind_text")
  {
    if length > IntMax then Outcome(st, Some(RangeError(TooLongMessage))) else Outcome(st, None)
  }

  function BindBlob(st: Statement, offset: int, value: seq<bv8>): (r: Outcome<Statement, Failure>)
    ensures r.state == st
    ensures r.Threw() <==> |value| > IntMax
    ensures r.Threw() ==> r.thrown.value == RangeError(TooLongMessage)
  {
    BindBlobOfLength(st, offset, |value|)
  }

  /** Read the value bound at `offset`, then check the backend's error. */
  function ReadBound(st: Statement, offset: int, lastError: SqlError): (r: Result<Variant, Failure>)
    ensures r.Ok? <==> lastError.kind == NoError
    ensures r.Ok? ==> r.value == BoundValue(st, offset)
    ensures r.Err? ==> r.error == Raise(lastError)
  {
    if lastError.kind == NoError then Ok(BoundValue(st, offset)) else Err(Raise(lastError))
  }

  /** The integer a value converts to; kinds other than integers and booleans convert to 0. */
  function AsInteger(v: Variant): int {
    match v
    case Int(i, _) => i
    case Boolean(b) => if b then 1 else 0
    case _ => 0
  }

  function AsReal(v: Variant): real {
    match v
    case Real(d) => d
    case Int(i, _) => i as real
    case Boolean(b) => if b then 1.0 else 0.0
    case _ => 0.0
  }

  function AsBool(v: Variant): bool {
    match v
    case Boolean(b) => b
    case Int(i, _) => i != 0
    case _ => false
  }

  /**
   * `QVariant::toString`: text as is, integers in decimal except the 8-bit
   * (character) types, which become the one Latin-1 character of their byte,
   * booleans as words, null as "".
   */
  function AsString(v: Variant): string {
    match v
    case Text(s) => s
    case Int(i, k) => if Width(k) == 8 then [Latin1(i)] else Decimal.ToString(i)
    case Boolean(b) => if b then "true" else "false"
    case _ => ""
  }

  /** The Latin-1 character of the byte an 8-bit integer holds. */
  function Latin1(i: int): (c: char)
    ensures c as int == Wrap(UInt8, i)
  {
    Wrap(UInt8, i) as char
  }

  /** `get<T>` for a fixed-width integer type: the stored integer, truncated to the type. */
  function GetInteger(st: Statement, offset: int, k: IntKind, lastError: SqlError): (r: Result<int, Failure>)
    ensures r.Ok? <==> lastError.kind == NoError
    ensures r.Ok? ==> InRange(k, r.value)
    ensures r.Ok? && BoundValue(st, offset).Int? && InRange(k, BoundValue(st, offset).i) ==>
              r.value == BoundValue(st, offset).i
    ensures r.Ok? && BoundValue(st, offset).Null? ==> r.value == 0
    ensures r.Err? ==> r.error == Raise(lastError)
  {
    match ReadBound(st, offset, lastError)
    case Ok(v) => Ok(Wrap(k, AsInteger(v)))
    case Err(e) => Err(e)
  }

  function GetDouble(st: Statement, offset: int, lastError: SqlError): (r: Result<real, Failure>)
    ensures r.Ok? <==> lastError.kind == NoError
    ensures r.Ok? && BoundValue(st, offset).Real? ==> r.value == BoundValue(st, offset).r
    ensures r.Ok? && BoundValue(st, offset).Null? ==> r.value == 0.0
    ensures r.Err? ==> r.error == Raise(lastError)
  {
    match ReadBound(st, offset, lastError)
    case Ok(v) => Ok(AsReal(v))
    case Err(e) => Err(e)
  }

  function GetBool(st: Statement, offset: int, lastError: SqlError): (r: Result<bool, Failure>)
    ensures r.Ok? <==> lastError.kind == NoError
    ensures r.Ok? && BoundValue(st, offset).Boolean? ==> r.value == BoundValue(st, offset).b
    ensures r.Ok? && BoundValue(st, offset).Null? ==> !r.value
    ensures r.Err? ==> r.error == Raise(lastError)
  {
    match ReadBound(st, offset, lastError)
    case Ok(v) => Ok(AsBool(v))
    case Err(e) => Err(e)
  }

  /** `get<std::string>`: a null reads as the empty string here (the optional form tells them apart). */
  function GetString(st: Statement, offset: int, lastError: SqlError): (r: Result<string, Failure>)
    ensures r.Ok? <==> lastError.kind == NoError
    ensures r.Ok? && BoundValue(st, offset).Text? ==> r.value == BoundValue(st, offset).s
    ensures r.Ok? && BoundValue(st, offset).Null? ==> r.value == ""
    ensures r.Ok? && BoundValue(st, offset).Int? && Width(BoundValue(st, offset).kind) != 8 ==>
              Decimal.Parse(r.value) == Some(BoundValue(st, offset).i)
    ensures r.Ok? && BoundValue(st, offset).Int? && Width(BoundValue(st, offset).kind) == 8 ==>
              |r.value| == 1 && r.value[0] as int == Wrap(UInt8, BoundValue(st, offset).i)
    ensures r.Err? ==> r.error == Raise(lastError)
  {
    match ReadBound(st, offset, lastError)
    case Ok(v) =>
      Decimal.ParseToString(AsInteger(v));
      Ok(AsString(v))
    case Err(e) => Err(e)
  }

  /** `get<time_point>`: the stored value read as `time_t` seconds. */
  function GetTimestamp(st: Statement, offset: int, lastError: SqlError): (r: Result<Timestamp, Failure>)
    ensures r.Ok? <==> lastError.kind == NoError
    ensures r.Ok? ==> InRange(Int64, r.value.seconds)
    ensures r.Ok? && BoundValue(st, offset).Int? && ValidTimestamp(Timestamp(BoundValue(st, offset).i)) ==>
              r.value == Timestamp(BoundValue(st, offset).i) && ValidTimestamp(r.value)
    ensures r.Err? ==> r.error == Raise(lastError)
  {
    var b := BoundValue(st, offset);
    ValidTimestampRange(Timestamp(if b.Int? then b.i else 0));
    match ReadBound(st, offset, lastError)
    case Ok(v) => Ok(Timestamp(Wrap(Int64, AsInteger(v))))
    case Err(e) => Err(e)
  }

  /** `get<optional<int64_t>>`: absent exactly when the stored value is null. */
  function GetOptionalInt64(st: Statement, offset: int, lastError: SqlError): (r: Result<Option<int>, Failure>)
    ensures r.Ok? <==> lastError.kind == NoError
    ensures r.Ok? ==> (r.value.None? <==> BoundValue(st, offset).Null?)
    ensures r.Ok? && r.value.Some? ==> InRange(Int64, r.value.value)
    ensures r.Ok? && BoundValue(st, offset).Int? && InRange(Int64, BoundValue(st, offset).i) ==>
              r.value == Some(BoundValue(st, offset).i)
    ensures r.Err? ==> r.error == Raise(lastError)
  {
    match ReadBound(st, offset, lastError)
    case Ok(v) => if v.Null? then Ok(None) else Ok(Some(Wrap(Int64, AsInteger(v))))
    case Err(e) => Err(e)
  }

  /** `get<optional<double>>`: absent exactly when the stored value is null. */
  function GetOptionalDouble(st: Statement, offset: int, lastError: SqlError): (r: Result<Option<real>, Failure>)
    ensures r.Ok? <==> lastError.kind == NoError
    ensures r.Ok? ==> (r.value.None? <==> BoundValue(st, offset).Null?)
    ensures r.Ok? && BoundValue(st, offset).Real? ==> r.value == Some(BoundValue(st, offset).r)
    ensures r.Err? ==> r.error == Raise(lastError)
  {
    match ReadBound(st, offset, lastError)
    case Ok(v) => if v.Null? then Ok(None) else Ok(Some(AsReal(v)))
    case Err(e) => Err(e)
  }

  /** `get<optional<std::string>>`: absent exactly when the stored value is null. */
  function GetOptionalString(st: Statement, offset: int, lastError: SqlError): (r: Result<Option<string>, Failure>)
    ensures r.Ok? <==> lastError.kind == NoError
    ensures r.Ok? ==> (r.value.None? <==> BoundValue(st, offset).Null?)
    ensures r.Ok? && BoundValue(st, offset).Text? ==> r.value == Some(BoundValue(st, offset).s)
    ensures r.Err? ==> r.error == Raise(lastError)
  {
    match ReadBound(st, offset, lastError)
    case Ok(v) => if v.Null? then Ok(None) else Ok(Some(AsString(v)))
    case Err(e) => Err(e)
  }

  /** `get<optional<time_point>>`: absent exactly when the stored value is null. */
  function GetOptionalTimestamp(st: Statement, offset: int, lastError: SqlError): (r: Result<Option<Timestamp>, Failure>)
    ensures r.Ok? <==> lastError.kind == NoError
    ensures r.Ok? ==> (r.value.None? <==> BoundValue(st, offset).Null?)
    ensures r.Ok? && r.value.Some? ==> InRange(Int64, r.value.value.seconds)
    ensures r.Ok? && BoundValue(st, offset).Int? && ValidTimestamp(Timestamp(BoundValue(st, offset).i)) ==>
              r.value == Some(Timestamp(BoundValue(st, offset).i))
    ensures r.Err? ==> r.error == Raise(lastError)
  {
    var b := BoundValue(st, offset);
    ValidTimestampRange(Timestamp(if b.Int? then b.i else 0));
    match ReadBound(st, offset, lastError)
    case Ok(v) => if v.Null? then Ok(None) else Ok(Some(Timestamp(Wrap(Int64, AsInteger(v)))))
    case Err(e) => Err(e)
  }

  // ---------------------------------------------------------------------------
  // Bind-then-get round trips
  // ---------------------------------------------------------------------------

  /** An integer bound at an offset reads back unchanged through the same type. */
  lemma IntegerRoundTrip(st: Statement, offset: int, k: IntKind, x: int, e: SqlError)
    requires InRange(k, x) && e.kind == NoError
    ensures GetInteger(BindInteger(st, offset, k, x, e).state, offset, k, e) == Ok(x)
  {
  }

  /** A double bound at an offset reads back unchanged, both plain and optional. */
  lemma DoubleRoundTrip(st: Statement, offset: int, d: real, e: SqlError)
    requires e.kind == NoError
    ensures var s := BindDouble(st, offset, d, e).state;
      GetDouble(s, offset, e) == Ok(d) && GetOptionalDouble(s, offset, e) == Ok(Some(d))
  {
  }

  /** A boolean bound at an offset reads back unchanged. */
  lemma BoolRoundTrip(st: Statement, offset: int, b: bool, e: SqlError)
    requires e.kind == NoError
    ensures GetBool(BindBool(st, offset, b, e).state, offset, e) == Ok(b)
  {
  }

  /** An 8-bit integer reads back through `get<std::string>` as a character, not as digits. */
  lemma CharacterTypesReadAsText(st: Statement, offset: int, e: SqlError)
    requires e.kind == NoError
    ensures GetString(BindInteger(st, offset, Int8, 65, e).state, offset, e) == Ok("A")
    ensures GetString(BindInteger(st, offset, Int16, 65, e).state, offset, e) == Ok("65")
  {
    assert Decimal.ToString(65) == "65" by {
      assert Decimal.Digits(65) == Decimal.Digits(6) + [Decimal.DigitChar(5)];
    }
  }

  /** An optional string reads back as itself: empty stays absent, never "". */
  lemma OptionalStringRoundTrip(st: Statement, offset: int, s: Option<string>, e: SqlError)
    requires e.kind == NoError
    ensures GetOptionalString(BindOptionalString(st, offset, s, e).state, offset, e) == Ok(s)
  {
  }

  /** An optional timestamp reads back as itself: empty stays absent, never the epoch. */
  lemma OptionalTimestampRoundTrip(st: Statement, offset: int, t: Option<Timestamp>, e: SqlError)
    requires t.Some? ==> ValidTimestamp(t.value)
    requires e.kind == NoError
    ensures GetOptionalTimestamp(BindOptionalTimestamp(st, offset, t, e).state, offset, e) == Ok(t)
  {
  }

  /** A bound null is reported as absent by every optional getter, not as 0 or "". */
  lemma NullIsAbsent(st: Statement, offset: int, e: SqlError)
    requires e.kind == NoError
    ensures var s := BindNull(st, offset, e).state;
      && GetOptionalInt64(s, offset, e) == Ok(None)
      && GetOptionalDouble(s, offset, e) == Ok(None)
      && GetOptionalString(s, offset, e) == Ok(None)
      && GetOptionalTimestamp(s, offset, e) == Ok(None)
  {
  }
}
