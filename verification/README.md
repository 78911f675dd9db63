# Platform bindings of the map SDK: SQLite façade and map-view lifecycle

This project models two pieces of logic in the platform layers of the map
SDK and proves properties of them.

1. **The Qt-backed SQLite façade** (`mapbox::sqlite`, `platform/qt/src/sqlite3.cpp`). A
   `Database` composes its connect options from the open flags and opens the
   file. `setBusyTimeout` appends a busy-timeout option and reopens the
   connection. `exec`, `prepare`, the generic bind and every get check the
   backend's last error and throw it unchanged. The text and blob binds only
   check the length and never look at the backend's error.
   Optional binds and gets treat "absent" and SQL NULL as the same thing. A
   `Transaction` issues BEGIN in its mode, and its destructor rolls back only
   while `needRollback` is still set, swallowing any failure.
2. **The lifecycle of the Android `NativeMapView` wrapper** (`platform/android/MapboxGLAndroidSDK/src/main/java/com/mapbox/mapboxsdk/maps/NativeMapView.java`). After
   `destroy()`, every guarded public method is a no-op that returns a fixed
   default and makes no native call. The constructor rejects negative
   resources. `resizeView` caps sizes at 65535 and `resizeFramebuffer`
   rejects anything outside 0..65535. Map-change listeners are kept in a list.

The Qt database is an abstract backend. Each Qt call that can fail takes the
backend's answer as a parameter: an `OpenReply` for `open()`, or the
`SqlError` that `lastError()` reports afterwards. The connection keeps a log
of the calls made on it (`BackendCall`), so each contract can say exactly
which statements were sent. In the same way, the map view keeps a trace of
its native calls (`NativeCall`), and each native query takes the native
answer as a parameter. Exceptions are values. An operation returns an
`Outcome`, which holds the state it leaves behind plus the exception it threw,
if any. Neither C++ nor Java undoes side effects that happen before a throw.

Modules (one file each):

- `Results` (results.dfy): `Option`, `Result`, `Outcome`.
- `Decimal` (decimal.dfy): how the timeout count is rendered in decimal, with its parser.
- `ConnectOptions` (connect_options.dfy): the `;`-separated option string, with `Join`/`Split` as the reference list view.
- `QtSqlite` (qt_sqlite.dfy): database, statements, binds, gets and error mapping.
- `SqliteTransaction` (sqlite_transaction.dfy): the transaction protocol and whole transaction scopes.
- `MapViewLifecycle` (map_view_lifecycle.dfy): the map-view wrapper.

Facts about the code that shape the model:

- Errors carry Qt's `QSqlError::ErrorType` value and the driver's text, not
  an SQLite result code. Besides that one exception type, the only other
  failure is the `std::range_error` of the text and blob length guards.
- `Statement::get` reads `query.boundValue(offset)`, which is the value bound
  at that offset, not a result column. A get after a bind therefore returns
  the bound value directly.
- Qt's `QSqlQuery(sql, db)` constructor, which `prepare` uses, executes a
  non-empty query text at once, so the text is logged on the connection.
  Neither that constructor nor `QSqlDatabase::exec`, which `Database::exec`
  uses, runs an empty text: it sends nothing and cannot fail.
- A bound `int8_t` or `uint8_t` is a character type to `QVariant`: read back
  as a string it is the one Latin-1 character of its byte, not decimal
  digits.
- A failed reopen in `setBusyTimeout` leaves the new options stored. A
  second call appends a second busy-timeout option; it does not replace the
  first one.
- Time points pass through `std::chrono::system_clock`, which counts
  nanoseconds in a 64-bit integer, so only about ±9.2·10⁹ seconds
  (`MaxClockSeconds`) convert without overflow.
- Calling `commit` and then `rollback` sends both statements. The flag stays
  cleared, and the destructor sends nothing more (`CommitThenRollback`).

## Model

| member | source | states |
|---|---|---|
| `ConnectOptions.Compose` | platform/qt/src/sqlite3.cpp:23-33 | no flags give ""; ReadOnly alone gives QSQLITE_OPEN_READONLY; SharedCache alone gives QSQLITE_ENABLE_SHARED_CACHE; both give QSQLITE_OPEN_READONLY;QSQLITE_ENABLE_SHARED_CACHE; the result never starts with ';' |
| `ConnectOptions.ComposeLists` | platform/qt/src/sqlite3.cpp:23-33 | the composed string is the requested options joined by ';', and splitting it gives back exactly those options, ReadOnly first |
| `ConnectOptions.WithBusyTimeout` | platform/qt/src/sqlite3.cpp:95-100 | the previous options are an exact prefix; a ';' follows them if and only if they were non-empty; the string ends with QSQLITE_BUSY_TIMEOUT=<n>; its length is the sum of the parts |
| `ConnectOptions.BusyTimeoutAppendsOption` | platform/qt/src/sqlite3.cpp:95-100 | for any well-formed option list, setting the timeout gives the list with the timeout option appended, and splitting the result gives back that longer list |
| `Decimal.ToString` | platform/qt/src/sqlite3.cpp:95 | the rendered count is non-empty, has a leading '-' exactly for negative counts, and contains no ';' |
| `Decimal.ParseToString` | platform/qt/src/sqlite3.cpp:95 | the rendered timeout count parses back to the same integer |
| `QtSqlite.Check` | platform/qt/src/sqlite3.cpp:59-64 | throws if and only if the error type is not NoError; the exception carries Qt's code for that type and the text, unchanged |
| `QtSqlite.CheckPreservesError` | platform/qt/src/sqlite3.cpp:59-64 | two backend errors that raise the same exception are the same error: the mapping loses nothing |
| `QtSqlite.OpenDatabase` | platform/qt/src/sqlite3.cpp:22-40 | succeeds exactly when open() succeeds; a failure throws the backend's last error; on success the connection is open, names the file, and its options split into the requested flags; the calls are addDatabase("QSQLITE"), setConnectOptions, setDatabaseName, open, in that order |
| `QtSqlite.OperatorBool` | platform/qt/src/sqlite3.cpp:89-91 | operator bool is true after a successful open, false for a moved-from object, carried over by the move constructor and swapped by move assignment; exactly the objects for which it is true close a connection when destroyed |
| `QtSqlite.MoveConstruct` | platform/qt/src/sqlite3.cpp:77-79 | the new object takes the connection; the moved-from object is invalid (operator bool is false) |
| `QtSqlite.MoveAssign` | platform/qt/src/sqlite3.cpp:81-84 | assignment swaps the two connections, and so swaps the validity of the two objects |
| `QtSqlite.DestroyDatabase` | platform/qt/src/sqlite3.cpp:42-44 | destroying a database that owns a connection closes it as the last call; a moved-from database makes no call |
| `QtSqlite.SetBusyTimeout` | platform/qt/src/sqlite3.cpp:93-110 | the options gain the busy-timeout option; an open connection is closed first; the options are stored, then open() is called; the connection is open if and only if the reopen succeeded; a failed reopen throws the backend's error and leaves the connection closed |
| `QtSqlite.SetBusyTimeoutKeepsOptions` | platform/qt/src/sqlite3.cpp:96-105 | whatever the earlier options listed, after setBusyTimeout they list the same options followed by the timeout option |
| `QtSqlite.ExecSql` | platform/qt/src/sqlite3.cpp:112-119 | a non-empty statement is logged once, and the call throws if and only if the last error is not NoError, carrying its type and text; an empty statement sends nothing and never throws; nothing else in the connection changes |
| `QtSqlite.Prepare` | platform/qt/src/sqlite3.cpp:121-128 | a non-empty SQL text is executed on the connection (logged once), and the statement is returned exactly when the backend reports no error, otherwise the backend's error is thrown; an empty text sends nothing and always gives a statement; the statement has this SQL and no bindings; nothing else in the connection changes |
| `QtSqlite.PreparedReadsNull` | platform/qt/src/sqlite3.cpp:51-53 | a freshly prepared statement has nothing bound: every offset reads as null, and all four optional getters (int64, double, string, time point) report absent |
| `QtSqlite.Bind` | platform/qt/src/sqlite3.cpp:157-162 | the value is stored at the offset even when the check then throws; every other offset is unchanged; the call throws exactly when the last error is not NoError |
| `QtSqlite.BindNull` | platform/qt/src/sqlite3.cpp:146 | binding nullptr makes the offset read as null; no other offset changes; throws exactly when the backend reports an error |
| `QtSqlite.BindInteger` | platform/qt/src/sqlite3.cpp:146-162 | an integer of any of the instantiated widths is stored with its value; no other offset changes; throws exactly when the backend reports an error |
| `QtSqlite.BindDouble` | platform/qt/src/sqlite3.cpp:154 | a double is stored as it is; no other offset changes; throws exactly when the backend reports an error |
| `QtSqlite.BindBool` | platform/qt/src/sqlite3.cpp:155 | a boolean is stored as it is; no other offset changes; throws exactly when the backend reports an error |
| `QtSqlite.ValidTimestampRange` | platform/qt/src/sqlite3.cpp:164-167 | a time point converts to the system clock's 64-bit nanosecond count exactly when its seconds lie within ±9223372036, and such seconds fit in time_t |
| `QtSqlite.BindTimestamp` | platform/qt/src/sqlite3.cpp:164-167 | a time point within the clock's range is bound as its time_t seconds; no other offset changes; throws exactly when the backend reports an error |
| `QtSqlite.BindOptionalTimestamp` | platform/qt/src/sqlite3.cpp:169-174 | an empty optional binds null; a present one within the clock's range binds its seconds; no other offset changes |
| `QtSqlite.BindOptionalString` | platform/qt/src/sqlite3.cpp:176-181 | an empty optional binds null; a present one binds its text; no other offset changes |
| `QtSqlite.BindTextOfLength` | platform/qt/src/sqlite3.cpp:183-187 | throws range_error("value too long for sqlite3_bind_text") exactly when the length exceeds INT_MAX; the statement is never touched |
| `QtSqlite.BindText` | platform/qt/src/sqlite3.cpp:196-198 | the std::string overload applies the same guard, with the same message, to the string's byte length |
| `QtSqlite.BindBlobOfLength` | platform/qt/src/sqlite3.cpp:200-204 | throws range_error exactly when the length exceeds INT_MAX, with the same message as the text bind; the statement is never touched |
| `QtSqlite.BindBlob` | platform/qt/src/sqlite3.cpp:213-215 | the vector overload applies the same guard, with the same message, to the vector's size |
| `QtSqlite.ReadBound` | platform/qt/src/sqlite3.cpp:234-237 | reads the bound value (null when nothing is bound) and throws the backend's error exactly when there is one |
| `QtSqlite.Wrap` | platform/qt/src/sqlite3.cpp:238 | converting to a fixed-width integer type gives a value in the type's range that differs from the input by a multiple of 2 to the width, and keeps a value that is already in range |
| `QtSqlite.GetInteger` | platform/qt/src/sqlite3.cpp:234-239 | succeeds exactly when there is no backend error; the result is in range for the type; an in-range stored integer is returned unchanged; a null reads as 0 |
| `QtSqlite.GetDouble` | platform/qt/src/sqlite3.cpp:234-239 | succeeds exactly when there is no backend error, and otherwise throws that error; a stored double is returned unchanged; a null reads as 0 |
| `QtSqlite.GetBool` | platform/qt/src/sqlite3.cpp:234-239 | succeeds exactly when there is no backend error, and otherwise throws that error; a stored boolean is returned unchanged; a null reads as false |
| `QtSqlite.GetString` | platform/qt/src/sqlite3.cpp:267-272 | succeeds exactly when there is no backend error, and otherwise throws that error; stored text is returned unchanged; a null reads as ""; an integer of 16 bits or more reads as decimal text that parses back to it; an 8-bit integer reads as the one Latin-1 character of its byte |
| `QtSqlite.CharacterTypesReadAsText` | platform/qt/src/sqlite3.cpp:267-272 | binding 65 as int8_t reads back through get<std::string> as "A", while binding it as int16_t reads back as "65" |
| `QtSqlite.GetTimestamp` | platform/qt/src/sqlite3.cpp:241-247 | succeeds exactly when there is no backend error, and otherwise throws that error; the time_t read is a 64-bit count; stored seconds within the clock's range come back as the same time point |
| `QtSqlite.GetOptionalInt64` | platform/qt/src/sqlite3.cpp:249-256 | absent exactly when the stored value is null; otherwise the stored integer, so a null never reads as 0 |
| `QtSqlite.GetOptionalDouble` | platform/qt/src/sqlite3.cpp:258-265 | absent exactly when the stored value is null; otherwise the stored double |
| `QtSqlite.GetOptionalString` | platform/qt/src/sqlite3.cpp:274-281 | absent exactly when the stored value is null; otherwise the stored text, so a null never reads as "" |
| `QtSqlite.GetOptionalTimestamp` | platform/qt/src/sqlite3.cpp:283-293 | absent exactly when the stored value is null; stored seconds within the clock's range come back as the same time point; a backend error is thrown |
| `QtSqlite.IntegerRoundTrip` | platform/qt/src/sqlite3.cpp:146-162 | binding an integer of a width and reading it back through the same width gives the same integer |
| `QtSqlite.DoubleRoundTrip` | platform/qt/src/sqlite3.cpp:154-265 | a double bound and read back through get<double> or get<optional<double>> is itself |
| `QtSqlite.BoolRoundTrip` | platform/qt/src/sqlite3.cpp:155-239 | a boolean bound and read back through get<bool> is itself |
| `QtSqlite.OptionalStringRoundTrip` | platform/qt/src/sqlite3.cpp:274-281 | an optional string bound and read back through the optional getter is itself, and an empty one stays absent |
| `QtSqlite.OptionalTimestampRoundTrip` | platform/qt/src/sqlite3.cpp:169-293 | an optional time point within the clock's range, bound and read back through the optional getter, is itself, and an empty one stays absent |
| `QtSqlite.NullIsAbsent` | platform/qt/src/sqlite3.cpp:249-293 | after a null bind, all four optional getters report absent |
| `SqliteTransaction.BeginSql` | platform/qt/src/sqlite3.cpp:318-328 | the BEGIN text for any mode is neither the COMMIT nor the ROLLBACK statement |
| `SqliteTransaction.BeginSqlInjective` | platform/qt/src/sqlite3.cpp:318-328 | each of the three modes has its own BEGIN statement |
| `SqliteTransaction.Begin` | platform/qt/src/sqlite3.cpp:316-329 | construction sends exactly one statement, the BEGIN for the mode; the transaction exists exactly when that statement did not fail, and it starts with needRollback set |
| `SqliteTransaction.Commit` | platform/qt/src/sqlite3.cpp:341-344 | needRollback is cleared even when COMMIT throws; exactly one COMMIT is sent; the call throws exactly when the backend reports an error |
| `SqliteTransaction.Rollback` | platform/qt/src/sqlite3.cpp:346-349 | needRollback is cleared even when ROLLBACK throws; exactly one ROLLBACK is sent; the call throws exactly when the backend reports an error |
| `SqliteTransaction.Finish` | platform/qt/src/sqlite3.cpp:331-339 | the destructor sends ROLLBACK exactly when needRollback is set, and otherwise nothing; it never throws |
| `SqliteTransaction.RunBodyEffect` | platform/qt/src/sqlite3.cpp:331-349 | running the scope's body sends exactly the statements of the actions that ran, in order; needRollback stays set exactly when none of them was a commit or a rollback |
| `SqliteTransaction.ScopedProtocol` | platform/qt/src/sqlite3.cpp:316-349 | a whole scope sends BEGIN for its mode. If BEGIN succeeded, it then sends the statements of the actions that ran, plus one ROLLBACK from the destructor exactly when none of those actions committed or rolled back |
| `SqliteTransaction.CommitThenRollback` | platform/qt/src/sqlite3.cpp:341-349 | commit followed by rollback sends both statements, leaves the flag cleared, and the destructor then sends nothing |
| `MapViewLifecycle.Construct` | platform/android/MapboxGLAndroidSDK/src/main/java/com/mapbox/mapboxsdk/maps/NativeMapView.java:89-98 | throws IllegalArgumentException exactly when the processor count or the memory size is negative, checking processors first, and there is then no native creation; otherwise the view is live with no listeners, and its only native call is create, with the cache path equal to the data path, and it keeps the device pixel ratio it was given |
| `MapViewLifecycle.Destroy` | platform/android/MapboxGLAndroidSDK/src/main/java/com/mapbox/mapboxsdk/maps/NativeMapView.java:105-110 | destroys the native map through the current pointer, then sets destroyed, zeroes the pointer and drops the MapView |
| `MapViewLifecycle.Perform` | platform/android/MapboxGLAndroidSDK/src/main/java/com/mapbox/mapboxsdk/maps/NativeMapView.java:112-166 | a guarded command does nothing once destroyed; otherwise it makes exactly its native call with the current pointer |
| `MapViewLifecycle.RemoveAnnotation` | platform/android/MapboxGLAndroidSDK/src/main/java/com/mapbox/mapboxsdk/maps/NativeMapView.java:604-610 | removing one annotation forwards the one id to removeAnnotations, and does nothing once destroyed; nothing but the trace changes |
| `MapViewLifecycle.Ask` | platform/android/MapboxGLAndroidSDK/src/main/java/com/mapbox/mapboxsdk/maps/NativeMapView.java:237-256 | once destroyed, a query returns its fixed default and leaves the view unchanged; otherwise it makes its native calls and returns the answer derived from the native reply |
| `MapViewLifecycle.Answer` | platform/android/MapboxGLAndroidSDK/src/main/java/com/mapbox/mapboxsdk/maps/NativeMapView.java:536-867 | single adds return the first native id; a null native array fails with NullPointerException and an empty one with ArrayIndexOutOfBoundsException, and there is no other error; the plural adds return the native array unchanged; the native pixel point for a coordinate is scaled up by the device pixel ratio; a null native feature array becomes an empty list, and a non-null one becomes a list of the same features |
| `MapViewLifecycle.QueryCalls` | platform/android/MapboxGLAndroidSDK/src/main/java/com/mapbox/mapboxsdk/maps/NativeMapView.java:682-687 | meters-per-pixel asks the native map for the zoom and then for the meters per pixel; every other query makes exactly its own native call |
| `MapViewLifecycle.DestroyedDefaults` | platform/android/MapboxGLAndroidSDK/src/main/java/com/mapbox/mapboxsdk/maps/NativeMapView.java:237-256 | once destroyed: hasClass is false, getClasses is empty, addMarkers is an empty array, addMarker is 0, getPixelRatio is 0, and the view is unchanged |
| `MapViewLifecycle.GetPixelRatio` | platform/android/MapboxGLAndroidSDK/src/main/java/com/mapbox/mapboxsdk/maps/NativeMapView.java:883-888 | 0 once destroyed; otherwise the device pixel ratio |
| `MapViewLifecycle.GetViewDimension` | platform/android/MapboxGLAndroidSDK/src/main/java/com/mapbox/mapboxsdk/maps/NativeMapView.java:1128-1140 | 0 once destroyed; otherwise the MapView's width or height |
| `MapViewLifecycle.Clamp` | platform/android/MapboxGLAndroidSDK/src/main/java/com/mapbox/mapboxsdk/maps/NativeMapView.java:183-195 | a non-negative size ends up in 0..65535: kept if at most 65535, otherwise 65535 |
| `MapViewLifecycle.ResizeView` | platform/android/MapboxGLAndroidSDK/src/main/java/com/mapbox/mapboxsdk/maps/NativeMapView.java:168-197 | once destroyed, nothing happens. A negative width throws, and then a negative height throws, with their messages. Otherwise one native view resize is made with the capped sizes. A throw changes nothing |
| `MapViewLifecycle.ResizeFramebuffer` | platform/android/MapboxGLAndroidSDK/src/main/java/com/mapbox/mapboxsdk/maps/NativeMapView.java:199-221 | once destroyed, nothing happens. Otherwise it throws exactly when a size is outside 0..65535, with the message of the first failing check (width negative, height negative, width too large, height too large). If it does not throw, both sizes go to one native framebuffer resize unchanged |
| `MapViewLifecycle.RemoveFirst` | platform/android/MapboxGLAndroidSDK/src/main/java/com/mapbox/mapboxsdk/maps/NativeMapView.java:1150-1152 | removing a listener that is not registered changes nothing; otherwise the list gets one shorter |
| `MapViewLifecycle.RemoveFirstMultiset` | platform/android/MapboxGLAndroidSDK/src/main/java/com/mapbox/mapboxsdk/maps/NativeMapView.java:1150-1152 | removal takes out one copy of the listener, if there is one, and no other listener |
| `MapViewLifecycle.RemoveFirstSplits` | platform/android/MapboxGLAndroidSDK/src/main/java/com/mapbox/mapboxsdk/maps/NativeMapView.java:1150-1152 | removal deletes the first occurrence and keeps the order of everything before and after it |
| `MapViewLifecycle.IndexOfIsFirst` | platform/android/MapboxGLAndroidSDK/src/main/java/com/mapbox/mapboxsdk/maps/NativeMapView.java:1150-1152 | the occurrence removed is the first one: no earlier listener equals it |
| `MapViewLifecycle.AddOnMapChangedListener` | platform/android/MapboxGLAndroidSDK/src/main/java/com/mapbox/mapboxsdk/maps/NativeMapView.java:1146-1148 | the listener is appended at the end, with no native call and no other field changed |
| `MapViewLifecycle.RemoveOnMapChangedListener` | platform/android/MapboxGLAndroidSDK/src/main/java/com/mapbox/mapboxsdk/maps/NativeMapView.java:1150-1152 | the first copy of the listener is taken out and the others keep their order; an unregistered listener changes nothing; there is no native call and no other field changes |
| `MapViewLifecycle.AddThenRemove` | platform/android/MapboxGLAndroidSDK/src/main/java/com/mapbox/mapboxsdk/maps/NativeMapView.java:1146-1152 | adding a listener that was not registered and then removing it restores the list |
| `MapViewLifecycle.NotifyMapChanged` | platform/android/MapboxGLAndroidSDK/src/main/java/com/mapbox/mapboxsdk/maps/NativeMapView.java:902-908 | the for-each walk over the listener list tells every registered listener of the change once, in registration order |
| `MapViewLifecycle.NotifyAfterAdd` | platform/android/MapboxGLAndroidSDK/src/main/java/com/mapbox/mapboxsdk/maps/NativeMapView.java:902-908 | after adding a listener, a change is delivered to the earlier listeners as before and then to the new one, last |
| `MapViewLifecycle.NotifyAfterRemove` | platform/android/MapboxGLAndroidSDK/src/main/java/com/mapbox/mapboxsdk/maps/NativeMapView.java:902-908 | after removing a listener, a change is delivered to the list without its first copy: those before it and those after it, in order; removing an unregistered listener changes no notification |
| `MapViewLifecycle.AddSnapshotCallback` | platform/android/MapboxGLAndroidSDK/src/main/java/com/mapbox/mapboxsdk/maps/NativeMapView.java:1158-1162 | the request is stored even when destroyed; scheduling the snapshot and rendering are native calls only while live; nothing but the request and the trace changes |
| `MapViewLifecycle.ApplyDestroyed` | platform/android/MapboxGLAndroidSDK/src/main/java/com/mapbox/mapboxsdk/maps/NativeMapView.java:105-166 | any public operation on a destroyed view keeps it destroyed with a zero pointer, and adds at most a repeated destroy of the zero pointer |
| `MapViewLifecycle.NoNativeCallAfterDestroy` | platform/android/MapboxGLAndroidSDK/src/main/java/com/mapbox/mapboxsdk/maps/NativeMapView.java:105-117 | after destroy, for any sequence of public operations, the view stays destroyed and the earlier trace is kept; the only native call that can follow is a repeated destroy of the zero pointer |
| `MapViewLifecycle.DestroyedIsSilent` | platform/android/MapboxGLAndroidSDK/src/main/java/com/mapbox/mapboxsdk/maps/NativeMapView.java:112-117 | a destroyed view makes no native call at all under any sequence of public operations other than destroy |

## Left out

- The Qt SQL driver internals (`QSqlDatabase`, `QSqlQuery`, `QVariant`) are an abstract backend whose answers are parameters. The JNI `native*` methods of the map view are entries in a call trace.
- `QtSqlite.AsInteger`, `QtSqlite.AsReal`, `QtSqlite.AsBool`, `QtSqlite.AsString`: QVariant's conversions between kinds are modelled only for integers and booleans, and for integers to text (decimal digits, or one Latin-1 character for the 8-bit types). Other mixes, such as text to number or double to integer, give the target type's default. Qt's distinction between a null and an empty QString is also not modelled.
- `QtSqlite.GetDouble`: doubles are modelled as exact reals. Floating-point rounding is not modelled.
- The placeholder bodies are not modelled: `Statement::run`, the text and blob bind bodies after their length guard, `reset`, `clearBindings`. In the model, the text and blob binds store nothing, as written. The `retain` flag is unused in the source and is dropped.
- `lastInsertRowId` and `changes` are not modelled; they only pass values through.
- `Statement`'s move operations and `operator bool` are not modelled; they mirror `Database`'s, which are. `~StatementImpl` only clears the query and is not modelled.
- The `assert(impl)` checks become `requires IsValid(db)` preconditions on the database operations.
- The bit values of the open flags come from a header that is not part of this model. The flags are modelled as the two tests the constructor makes.
- Map view: all pixel-ratio scaling (`width / pixelRatio`, `moveBy`, `scaleBy`, `rotateBy`, the coordinate conversions) is outside the model. `resizeView` takes the already-scaled integers. `MapViewLifecycle.Answer` scales `pixelForLatLng` by the pixel ratio in exact real arithmetic.
- `get<std::vector<uint8_t>>`, the generic get instantiated for a byte vector, is not modelled: the model has no byte-array value kind, because no modelled bind stores bytes.
- Map view: only the arguments that `Command` and `Query` carry are recorded in the trace. These are the class names, style URL and JSON, access token, API base URL, the ids given to `removeAnnotations`, icon, image, layer and source names, and the boolean flags of `setGestureInProgress`, `setDebug` and `setReachability`. Not recorded are floating-point values, the `long duration` arguments of `moveBy`, `setLatLng`, `setPitch`, `scaleBy`, `setScale`, `setZoom`, `rotateBy`, `setBearing`, `setVisibleCoordinateBounds`, `easeTo` and `flyTo`, the `width` and `height` of `addAnnotationIcon`, the `easingInterpolator` flag of `easeTo`, Java objects (markers, polylines, polygons, layers, sources, bitmaps), the `before` layer id of `addLayer`, the `layerIds` of `queryRenderedFeatures`, and the annotation ids that `updateMarker`, `updatePolygon` and `updatePolyline` pass. The `addImage` bitmap conversion and density computation are not modelled.
- Map view: the `ActivityManager` memory query and the SDK-version choice between available and total memory happen before the checks; the constructor takes the resulting memory size as input.
- Map view: the callbacks `onInvalidate`, `onFpsChanged`, `onSnapshotReady` (bitmap decoding) and `getContext` only forward to the MapView or decode bitmaps, and are not modelled.
- Map view: the thread-safety of `CopyOnWriteArrayList` is not modelled; the listener list is a plain sequence.
- `platform/darwin/src/MGLShape_Private.h` only declares methods and contains no logic.
- `MapViewLifecycle.Perform`: arguments are assumed non-null and long enough. The source throws before the native call for a `setContentPadding` array shorter than four entries (ArrayIndexOutOfBoundsException) and for null LatLng, Marker, Icon or Layer arguments (NullPointerException); the model records the native call in those cases.
- `MapViewLifecycle.Ask`: arguments are assumed non-null, as for `Perform`; a null LatLng, PointF or other object argument throws NullPointerException before the native call in the source.
- Map view: the `Timber.e` log lines that `resizeView` writes when it caps a size are not modelled.
- `QtSqlite.BindOptionalString`, `QtSqlite.OptionalStringRoundTrip`, `QtSqlite.GetString`, `QtSqlite.GetOptionalString`: strings are taken as already-decoded text. `QString::fromStdString` decodes UTF-8 and replaces invalid byte sequences with U+FFFD, and `toStdString` encodes back. That decoding is not modelled, so the string round trip holds in the source only for valid UTF-8.
- `QtSqlite.GetTimestamp`, `QtSqlite.GetOptionalTimestamp`: a stored count outside the clock's range overflows in `from_time_t`, which is undefined behaviour in C++. There the model returns the 64-bit count and promises nothing more. `QtSqlite.BindTimestamp` and `QtSqlite.BindOptionalTimestamp` require the clock's range for the same reason (`to_time_t`).
- The system clock's tick is taken to be a nanosecond, as in libstdc++. With a microsecond clock (libc++) the range is a thousand times wider.
