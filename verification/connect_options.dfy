/**
 * The connect-option string handed to the Qt SQLite driver: a list of
 * options separated by ';'. The constructor of the database builds it from
 * the open flags, and setting a busy timeout appends one more option.
 */
module ConnectOptions {
  import Decimal

  const ReadOnlyOption := "QSQLITE_OPEN_READONLY"
  const SharedCacheOption := "QSQLITE_ENABLE_SHARED_CACHE"
  const BusyTimeoutKey := "QSQLITE_BUSY_TIMEOUT="

  /** A millisecond count as std::chrono::milliseconds carries it (64-bit signed). */
  type Int64 = x: int | -0x8000_0000_0000_0000 <= x < 0x8000_0000_0000_0000

  /** The two bits of the open-flag word the database constructor tests. */
  datatype OpenFlags = OpenFlags(readOnly: bool, sharedCache: bool)

  /** An option the driver can read back: non-empty and free of separators. */
  predicate IsOption(o: string) {
    |o| > 0 && ';' !in o
  }

  predicate AreOptions(parts: seq<string>) {
    forall i :: 0 <= i < |parts| ==> IsOption(parts[i])
  }

  /** Reference definition: the options joined with ';' between neighbours. */
  function Join(parts: seq<string>): string {
    if |parts| == 0 then ""
    else if |parts| == 1 then parts[0]
    else parts[0] + ";" + Join(parts[1..])
  }

  /** The ';'-separated fields of `s`; there is always at least one. */
  function Fields(s: string): (r: seq<string>)
    ensures |r| >= 1
  {
    if |s| == 0 then [""]
    else
      var rest := Fields(s[1..]);
      if s[0] == ';' then [""] + rest else [[s[0]] + rest[0]] + rest[1..]
  }

  /** The options a connect-option string lists; the empty string lists none. */
  function Split(s: string): seq<string> {
    if s == "" then [] else Fields(s)
  }

  /** The options the open flags request, in the order the constructor appends them. */
  function Requested(flags: OpenFlags): (r: seq<string>)
    ensures AreOptions(r)
  {
    (if flags.readOnly then [ReadOnlyOption] else [])
    + (if flags.sharedCache then [SharedCacheOption] else [])
  }

  /** The connect options the database constructor builds from its open flags. */
  function Compose(flags: OpenFlags): (r: string)
    ensures !flags.readOnly && !flags.sharedCache ==> r == ""
    ensures flags.readOnly && !flags.sharedCache ==> r == ReadOnlyOption
    ensures !flags.readOnly && flags.sharedCache ==> r == SharedCacheOption
    ensures flags.readOnly && flags.sharedCache ==> r == ReadOnlyOption + ";" + SharedCacheOption
    ensures |r| > 0 ==> r[0] != ';'
  {
    var options := if flags.readOnly then ReadOnlyOption else "";
    if flags.sharedCache then
      if options == "" then options + SharedCacheOption
      else options + ";" + SharedCacheOption
    else options
  }

  /** The option that sets the busy timeout to `ms` milliseconds. */
  function BusyTimeoutOption(ms: Int64): (o: string)
    ensures IsOption(o)
    ensures |o| > |BusyTimeoutKey| && o[..|BusyTimeoutKey|] == BusyTimeoutKey
  {
    BusyTimeoutKey + Decimal.ToString(ms)
  }

  /**
   * The connect options after setting the busy timeout: the previous options
   * are kept as an exact prefix, and a ';' is inserted between them and the
   * new option exactly when there were previous options.
   */
  function WithBusyTimeout(previous: string, ms: Int64): (r: string)
    ensures |r| > |previous|
    ensures r[..|previous|] == previous
    ensures r[|previous|] == ';' <==> previous != ""
    ensures |r| == |previous| + (if previous == "" then 0 else 1) + |BusyTimeoutOption(ms)|
    ensures r[|r| - |BusyTimeoutOption(ms)|..] == BusyTimeoutOption(ms)
  {
    var option := BusyTimeoutOption(ms);
    if previous == "" then previous + option else previous + ";" + option
  }

  lemma {:induction false} FieldsOfOption(o: string)
    requires ';' !in o
    ensures Fields(o) == [o]
    decreases |o|
  {
    if |o| > 0 {
      FieldsOfOption(o[1..]);
      assert [o[0]] + o[1..] == o;
    }
  }

  lemma {:induction false} FieldsAfterSeparator(o: string, rest: string)
    requires ';' !in o
    ensures Fields(o + ";" + rest) == [o] + Fields(rest)
    decreases |o|
  {
    if |o| == 0 {
      assert o + ";" + rest == [';'] + rest;
      assert ([';'] + rest)[1..] == rest;
    } else {
      var s := o + ";" + rest;
      assert s[1..] == o[1..] + ";" + rest;
      FieldsAfterSeparator(o[1..], rest);
      assert [o[0]] + o[1..] == o;
    }
  }

  /** Joining options and splitting the result gives the options back. */
  lemma {:induction false} SplitJoin(parts: seq<string>)
    requires AreOptions(parts)
    ensures Split(Join(parts)) == parts
    decreases |parts|
  {
    if |parts| == 1 {
      FieldsOfOption(parts[0]);
    } else if |parts| > 1 {
      FieldsAfterSeparator(parts[0], Join(parts[1..]));
      SplitJoin(parts[1..]);
      assert Join(parts[1..]) != "" by { JoinNonEmpty(parts[1..]); }
    }
  }

  lemma JoinNonEmpty(parts: seq<string>)
    requires AreOptions(parts)
    ensures Join(parts) == "" <==> parts == []
  {
  }

  /** Appending one option to a joined list is joining the longer list. */
  lemma {:induction false} JoinAppend(parts: seq<string>, o: string)
    requires AreOptions(parts)
    ensures Join(parts + [o]) == (if parts == [] then o else Join(parts) + ";" + o)
    decreases |parts|
  {
    if |parts| > 1 {
      assert (parts + [o])[1..] == parts[1..] + [o];
      JoinAppend(parts[1..], o);
    } else if |parts| == 1 {
      assert parts + [o] == [parts[0], o];
    }
  }

  /** The composed options are exactly the requested options joined with ';'. */
  lemma ComposeLists(flags: OpenFlags)
    ensures Compose(flags) == Join(Requested(flags))
    ensures Split(Compose(flags)) == Requested(flags)
  {
    SplitJoin(Requested(flags));
  }

  /**
   * Setting the busy timeout on options that list `parts` yields options that
   * list `parts` followed by the busy-timeout option, and nothing else.
   */
  lemma BusyTimeoutAppendsOption(parts: seq<string>, ms: Int64)
    requires AreOptions(parts)
    ensures Join(parts + [BusyTimeoutOption(ms)]) == WithBusyTimeout(Join(parts), ms)
    ensures Split(WithBusyTimeout(Join(parts), ms)) == parts + [BusyTimeoutOption(ms)]
  {
    JoinNonEmpty(parts);
    JoinAppend(parts, BusyTimeoutOption(ms));
    SplitJoin(parts + [BusyTimeoutOption(ms)]);
  }
}
