/**
 * The scoped transaction of the SQLite façade: construction issues BEGIN in
 * the requested mode, `commit` and `rollback` clear the rollback-needed flag
 * before they execute, and the destructor rolls back only while the flag is
 * still set and never lets an exception out.
 */
module SqliteTransaction {
  import opened Results
  import opened QtSqlite

  datatype Mode = Deferred | Immediate | Exclusive

  const CommitSql := "COMMIT TRANSACTION"
  const RollbackSql := "ROLLBACK TRANSACTION"

  /** The BEGIN statement for each mode. */
  function BeginSql(mode: Mode): (sql: string)
    ensures sql != CommitSql && sql != RollbackSql
  {
    match mode
    case Deferred => "BEGIN DEFERRED TRANSACTION"
    case Immediate => "BEGIN IMMEDIATE TRANSACTION"
    case Exclusive => "BEGIN EXCLUSIVE TRANSACTION"
  }

  function ModeInitial(mode: Mode): char {
    match mode
    case Deferred => 'D'
    case Immediate => 'I'
    case Exclusive => 'E'
  }

  /** Each mode has its own BEGIN statement. */
  lemma BeginSqlInjective(m1: Mode, m2: Mode)
    ensures BeginSql(m1) == BeginSql(m2) ==> m1 == m2
  {
    if m1 != m2 {
      assert BeginSql(m1)[6] == ModeInitial(m1);
      assert BeginSql(m2)[6] == ModeInitial(m2);
    }
  }

  /** A live transaction: whether its destructor still has to roll back. */
  datatype Transaction = Transaction(needRollback: bool)

  /** A transaction together with the database it runs on. */
  datatype Scope = Scope(tx: Transaction, db: Database)

  /** `db` is `before` with exactly the statements `sqls` executed on it, in order. */
  predicate Executed(before: Database, after: Database, sqls: seq<string>) {
    && IsValid(before) && IsValid(after)
    && after.impl.value.options == before.impl.value.options
    && after.impl.value.fileName == before.impl.value.fileName
    && after.impl.value.isOpen == before.impl.value.isOpen
    && after.impl.value.log == before.impl.value.log + Execs(sqls)
  }

  /** The backend calls that running the statements in order sends. */
  function Execs(sqls: seq<string>): (calls: seq<BackendCall>)
    ensures |calls| <= |sqls|
  {
    if |sqls| == 0 then [] else ExecCalls(sqls[0]) + Execs(sqls[1..])
  }

  /** Executing `s1` and then `s2` is executing `s1 + s2`. */
  lemma ExecutedChain(a: Database, b: Database, c: Database, s1: seq<string>, s2: seq<string>)
    requires Executed(a, b, s1) && Executed(b, c, s2)
    ensures Executed(a, c, s1 + s2)
  {
    ExecsAppend(s1, s2);
    var la, lb, lc := a.impl.value.log, b.impl.value.log, c.impl.value.log;
    var e1, e2 := Execs(s1), Execs(s2);
    calc {
      lc;
      lb + e2;
      (la + e1) + e2;
      la + (e1 + e2);
      la + Execs(s1 + s2);
    }
  }

  /** A transaction that was begun, or the exception that stopped its constructor. */
  datatype Began = Began(db: Database, tx: Result<Transaction, Failure>)

  /**
   * The constructor: exactly one BEGIN statement for the mode; the new
   * transaction needs a rollback until it is resolved. If BEGIN throws there
   * is no transaction, and so no destructor will run.
   */
  function Begin(db: Database, mode: Mode, reply: SqlError): (r: Began)
    requires IsValid(db)
    ensures Executed(db, r.db, [BeginSql(mode)])
    ensures r.tx.Ok? <==> reply.kind == NoError
    ensures r.tx.Ok? ==> r.tx.value.needRollback
    ensures r.tx.Err? ==> r.tx.error == Raise(reply)
  {
    var o := ExecSql(db, BeginSql(mode), reply);
    Began(o.state, if o.Threw() then Err(o.thrown.value) else Ok(Transaction(true)))
  }

  /**
   * `commit`: clear the flag, then execute COMMIT. The flag is cleared even
   * when COMMIT throws, so the destructor will not roll back afterwards.
   */
  function Commit(s: Scope, reply: SqlError): (r: Outcome<Scope, Failure>)
    requires IsValid(s.db)
    ensures !r.state.tx.needRollback
    ensures Executed(s.db, r.state.db, [CommitSql])
    ensures r.thrown == Check(reply)
  {
    var o := ExecSql(s.db, CommitSql, reply);
    Outcome(Scope(Transaction(false), o.state), o.thrown)
  }

  /** `rollback`: clear the flag, then execute ROLLBACK; the same ordering as `commit`. */
  function Rollback(s: Scope, reply: SqlError): (r: Outcome<Scope, Failure>)
    requires IsValid(s.db)
    ensures !r.state.tx.needRollback
    ensures Executed(s.db, r.state.db, [RollbackSql])
    ensures r.thrown == Check(reply)
  {
    var o := ExecSql(s.db, RollbackSql, reply);
    Outcome(Scope(Transaction(false), o.state), o.thrown)
  }

  /**
   * The destructor: ROLLBACK only while a rollback is needed, and any
   * exception from it is swallowed (the result has no failure in it).
   */
  function Finish(s: Scope, reply: SqlError): (db: Database)
    requires IsValid(s.db)
    ensures s.tx.needRollback ==> Executed(s.db, db, [RollbackSql])
    ensures !s.tx.needRollback ==> db == s.db
  {
    if s.tx.needRollback then Rollback(s, reply).state.db else s.db
  }

  /** What the code inside a transaction's scope does, with the backend's reply to it. */
  datatype Action =
    | Run(sql: string, reply: SqlError)
    | CommitNow(reply: SqlError)
    | RollbackNow(reply: SqlError)

  function ReplyOf(a: Action): SqlError {
    match a
    case Run(_, e) => e
    case CommitNow(e) => e
    case RollbackNow(e) => e
  }

  function SqlOf(a: Action): string {
    match a
    case Run(sql, _) => sql
    case CommitNow(_) => CommitSql
    case RollbackNow(_) => RollbackSql
  }

  function Perform(s: Scope, a: Action): (r: Outcome<Scope, Failure>)
    requires IsValid(s.db)
    ensures Executed(s.db, r.state.db, [SqlOf(a)])
    ensures r.thrown == ExecCheck(SqlOf(a), ReplyOf(a))
    ensures r.state.tx.needRollback == (s.tx.needRollback && a.Run?)
  {
    match a
    case Run(sql, e) =>
      var o := ExecSql(s.db, sql, e);
      Outcome(Scope(s.tx, o.state), o.thrown)
    case CommitNow(e) => Commit(s, e)
    case RollbackNow(e) => Rollback(s, e)
  }

  /** The actions that run: all of them, or up to and including the first that throws. */
  function Reached(actions: seq<Action>): (r: seq<Action>)
    ensures |r| <= |actions| && r == actions[..|r|]
  {
    if |actions| == 0 then []
    else if ExecCheck(SqlOf(actions[0]), ReplyOf(actions[0])).Some? then [actions[0]]
    else [actions[0]] + Reached(actions[1..])
  }

  /** Whether any of the actions resolves the transaction by commit or rollback. */
  predicate Resolves(actions: seq<Action>) {
    exists i :: 0 <= i < |actions| && !actions[i].Run?
  }

  function Sqls(actions: seq<Action>): (r: seq<string>)
    ensures |r| == |actions|
    ensures forall i :: 0 <= i < |actions| ==> r[i] == SqlOf(actions[i])
  {
    if |actions| == 0 then [] else [SqlOf(actions[0])] + Sqls(actions[1..])
  }

  /** Run the body of a scope: each action in turn, leaving the scope at the first exception. */
  function RunBody(s: Scope, actions: seq<Action>): (r: Scope)
    requires IsValid(s.db)
    ensures IsValid(r.db)
    decreases |actions|
  {
    if |actions| == 0 then s
    else
      var o := Perform(s, actions[0]);
      if o.Threw() then o.state else RunBody(o.state, actions[1..])
  }

  lemma {:induction false} ExecsAppend(a: seq<string>, b: seq<string>)
    ensures Execs(a + b) == Execs(a) + Execs(b)
    decreases |a|
  {
    if |a| == 0 {
      assert a + b == b;
    } else {
      assert (a + b)[0] == a[0];
      assert (a + b)[1..] == a[1..] + b;
      ExecsAppend(a[1..], b);
    }
  }

  /**
   * Running the body sends exactly the statements of the actions reached, and
   * the flag stays set exactly when none of them was a commit or rollback.
   */
  lemma {:induction false} RunBodyEffect(s: Scope, actions: seq<Action>)
    requires IsValid(s.db)
    ensures Executed(s.db, RunBody(s, actions).db, Sqls(Reached(actions)))
    ensures RunBody(s, actions).tx.needRollback == (s.tx.needRollback && !Resolves(Reached(actions)))
    decreases |actions|
  {
    if |actions| == 0 {
      assert s.db.impl.value.log + Execs([]) == s.db.impl.value.log;
    } else {
      var a := actions[0];
      var o := Perform(s, a);
      if o.Threw() {
        assert Reached(actions) == [a];
        assert Sqls([a]) == [SqlOf(a)];
        ResolvesOne(a);
      } else {
        var rest := actions[1..];
        RunBodyEffect(o.state, rest);
        var tail := Reached(rest);
        assert Reached(actions) == [a] + tail;
        assert ([a] + tail)[1..] == tail;
        assert Sqls(Reached(actions)) == [SqlOf(a)] + Sqls(tail);
        ExecutedChain(s.db, o.state.db, RunBody(o.state, rest).db, [SqlOf(a)], Sqls(tail));
        ResolvesCons(a, tail);
      }
    }
  }

  lemma ResolvesOne(a: Action)
    ensures Resolves([a]) == !a.Run?
  {
    if !a.Run? {
      assert [a][0] == a;
    }
  }

  lemma ResolvesCons(a: Action, rest: seq<Action>)
    ensures Resolves([a] + rest) == (!a.Run? || Resolves(rest))
  {
    var all := [a] + rest;
    if !a.Run? {
      assert all[0] == a;
    }
    if Resolves(rest) {
      var i :| 0 <= i < |rest| && !rest[i].Run?;
      assert all[i + 1] == rest[i];
    }
    if Resolves(all) {
      var i :| 0 <= i < |all| && !all[i].Run?;
      if i > 0 {
        assert rest[i - 1] == all[i];
      }
    }
  }

  /**
   * A whole transaction scope: construct, run the body, destroy. The
   * destructor's own failure never escapes, so the result is just the
   * database.
   */
  function Scoped(db: Database, mode: Mode, beginReply: SqlError, actions: seq<Action>, cleanupReply: SqlError): (r: Database)
    requires IsValid(db)
    ensures IsValid(r)
  {
    var b := Begin(db, mode, beginReply);
    match b.tx
    case Err(_) => b.db
    case Ok(tx) => Finish(RunBody(Scope(tx, b.db), actions), cleanupReply)
  }

  /**
   * The protocol of a scope: BEGIN in the mode; if that succeeded, the
   * statements of the actions that ran; and then one ROLLBACK from the
   * destructor exactly when none of those actions committed or rolled back.
   */
  lemma ScopedProtocol(db: Database, mode: Mode, beginReply: SqlError, actions: seq<Action>, cleanupReply: SqlError)
    requires IsValid(db)
    ensures beginReply.kind != NoError ==>
              Executed(db, Scoped(db, mode, beginReply, actions, cleanupReply), [BeginSql(mode)])
    ensures beginReply.kind == NoError ==>
              Executed(db, Scoped(db, mode, beginReply, actions, cleanupReply),
                       [BeginSql(mode)] + Sqls(Reached(actions))
                       + (if Resolves(Reached(actions)) then [] else [RollbackSql]))
  {
    var b := Begin(db, mode, beginReply);
    if beginReply.kind == NoError {
      var s := Scope(b.tx.value, b.db);
      var after := RunBody(s, actions);
      RunBodyEffect(s, actions);
      var body := Sqls(Reached(actions));
      var tail := if Resolves(Reached(actions)) then [] else [RollbackSql];
      var final := Finish(after, cleanupReply);
      assert Executed(after.db, final, tail) by {
        if !Resolves(Reached(actions)) {
        } else {
          assert after.db.impl.value.log + Execs([]) == after.db.impl.value.log;
        }
      }
      ExecutedChain(db, b.db, after.db, [BeginSql(mode)], body);
      ExecutedChain(db, after.db, final, [BeginSql(mode)] + body, tail);
    }
  }

  /**
   * Resolving twice is allowed: the second call still sends its statement,
   * the flag stays cleared, and the destructor sends nothing more.
   */
  lemma CommitThenRollback(s: Scope, commitReply: SqlError, rollbackReply: SqlError, cleanupReply: SqlError)
    requires IsValid(s.db)
    ensures var c := Commit(s, commitReply).state;
      var r := Rollback(c, rollbackReply).state;
      && !r.tx.needRollback
      && Executed(s.db, r.db, [CommitSql, RollbackSql])
      && Finish(r, cleanupReply) == r.db
  {
    var c := Commit(s, commitReply).state;
    ExecutedChain(s.db, c.db, Rollback(c, rollbackReply).state.db, [CommitSql], [RollbackSql]);
  }
}
