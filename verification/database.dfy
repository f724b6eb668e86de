/** `petmail/database.py`: the observable database. Writes that name a table
    queue a `Notice`; `commit` hands every queued notice to each observer
    subscribed to that notice's table, and empties the queue. `get_db` opens
    or creates the database file and refuses any schema version but 1.

    SQL is not modelled: a statement is an abstract function from the
    tables to the new tables and `lastrowid` (or the sqlite error it
    raises), and tables are maps from row id to record. `eventually(o, n)`
    is modelled as appending the call to a log of scheduled calls. */
module Notifications {
  import opened Common

  /** A column value as sqlite3 hands it back. */
  datatype Value = IntValue(i: int) | TextValue(s: string) | NullValue

  type Record = seq<Value>

  /** table name -> row id -> row */
  type Tables = map<string, map<int, Record>>

  datatype Action = Insert | Update | Delete

  /** `Notice(table, action, id, new_value)` */
  datatype Notice = Notice(table: string, action: Action, id: Option<int>, newValue: Option<Record>)

  /** Running one SQL statement: the new tables and the cursor's
      `lastrowid`, or the error sqlite raises. */
  type Statement = Tables -> Result<(Tables, int), Failure>

  /** One `eventually(o, event)` call. */
  datatype Call<O> = Call(observer: O, notice: Notice)

  datatype ObservableDb<O> = ObservableDb(
    tables: Tables,
    /** the `defaultdict(list)` of observers per table */
    observers: map<string, seq<O>>,
    pending: seq<Notice>,
    /** the calls `commit` has scheduled so far */
    scheduled: seq<Call<O>>)

  /** `self.observers[table]`: a table nobody subscribed to has none. */
  function ObserversOf<O>(observers: map<string, seq<O>>, table: string): seq<O>
  {
    if table in observers then observers[table] else []
  }

  // ---------------------------------------------------------------------
  // subscribe / unsubscribe

  /** `subscribe(table, observer)`: appended to that table's list only. */
  function Subscribe<O>(db: ObservableDb<O>, table: string, o: O): (r: ObservableDb<O>)
    ensures ObserversOf(r.observers, table) == ObserversOf(db.observers, table) + [o]
    ensures forall t :: t != table ==> ObserversOf(r.observers, t) == ObserversOf(db.observers, t)
    ensures r.tables == db.tables && r.pending == db.pending && r.scheduled == db.scheduled
  {
    db.(observers := db.observers[table := ObserversOf(db.observers, table) + [o]])
  }

  /** Position of the first occurrence of `x` in `xs`. */
  function FirstIndex<T(==)>(xs: seq<T>, x: T): (i: nat)
    requires x in xs
    ensures i < |xs| && xs[i] == x
    ensures forall j :: 0 <= j < i ==> xs[j] != x
  {
    if xs[0] == x then 0 else 1 + FirstIndex(xs[1..], x)
  }

  /** `list.remove(x)`: drops the first occurrence of `x`. */
  function RemoveFirst<T(==)>(xs: seq<T>, x: T): (r: seq<T>)
    requires x in xs
    ensures var i := FirstIndex(xs, x); r == xs[..i] + xs[i + 1..]
    ensures multiset(r) == multiset(xs) - multiset{x}
  {
    var i := FirstIndex(xs, x);
    assert xs == xs[..i] + [x] + xs[i + 1..];
    xs[..i] + xs[i + 1..]
  }

  /** `unsubscribe(table, observer)`: removes one occurrence from that
      table's list; ValueError when the observer is not subscribed there. */
  function Unsubscribe<O(==)>(db: ObservableDb<O>, table: string, o: O): (r: Result<ObservableDb<O>, Failure>)
    ensures r.Ok? <==> o in ObserversOf(db.observers, table)
    ensures r.Err? ==> r.error.ValueError?
    ensures r.Ok? ==>
      && multiset(ObserversOf(r.value.observers, table)) == multiset(ObserversOf(db.observers, table)) - multiset{o}
      // the first occurrence goes; the others keep their registration order
      && ObserversOf(r.value.observers, table) == RemoveFirst(ObserversOf(db.observers, table), o)
      && (forall t :: t != table ==> ObserversOf(r.value.observers, t) == ObserversOf(db.observers, t))
      && r.value.tables == db.tables && r.value.pending == db.pending && r.value.scheduled == db.scheduled
  {
    var obs := ObserversOf(db.observers, table);
    if o !in obs then Err(ValueError("list.remove(x): x not in list"))
    else Ok(db.(observers := db.observers[table := RemoveFirst(obs, o)]))
  }

  lemma RemoveAppended<T>(xs: seq<T>, x: T)
    requires x !in xs
    ensures RemoveFirst(xs + [x], x) == xs
  {
    var after := xs + [x];
    assert FirstIndex(after, x) == |xs| by {
      forall j | 0 <= j < |xs| ensures after[j] != x {
        assert after[j] == xs[j];
      }
    }
    assert after[..|xs|] == xs;
  }

  /** Re-storing a table's own list changes no table's observers. */
  lemma StoreOwnList<O>(observers: map<string, seq<O>>, table: string)
    ensures forall t :: ObserversOf(observers[table := ObserversOf(observers, table)], t) == ObserversOf(observers, t)
  {
  }

  /** Unsubscribing an observer that was not yet subscribed undoes
      subscribing it exactly. */
  lemma SubscribeUnsubscribe<O>(db: ObservableDb<O>, table: string, o: O)
    requires o !in ObserversOf(db.observers, table)
    ensures var r := Unsubscribe(Subscribe(db, table, o), table, o);
      && r.Ok?
      && (forall t :: ObserversOf(r.value.observers, t) == ObserversOf(db.observers, t))
  {
    var obs := ObserversOf(db.observers, table);
    RemoveAppended(obs, o);
    UnsubscribeAfterSubscribe(db, table, o);
    StoreOwnList(db.observers, table);
  }

  lemma UnsubscribeAfterSubscribe<O>(db: ObservableDb<O>, table: string, o: O)
    requires o !in ObserversOf(db.observers, table)
    requires RemoveFirst(ObserversOf(db.observers, table) + [o], o) == ObserversOf(db.observers, table)
    ensures var r := Unsubscribe(Subscribe(db, table, o), table, o);
      && r.Ok?
      && r.value.observers == db.observers[table := ObserversOf(db.observers, table)]
  {
  }

  // ---------------------------------------------------------------------
  // insert / update / delete

  /** `if table:` — None and the empty string are false. */
  predicate Named(table: Option<string>)
  {
    table.Some? && table.value != ""
  }

  /** `SELECT * FROM table WHERE id=?` then `fetchone()`: the row, or None;
      SqlError when there is no such table. A `None` id matches no row. */
  function Reread(tables: Tables, table: string, id: Option<int>): (r: Result<Option<Record>, Failure>)
    ensures r.Ok? <==> table in tables
    ensures r.Ok? ==> (r.value.Some? <==> id.Some? && id.value in tables[table])
    ensures r.Ok? && r.value.Some? ==> r.value.value == tables[table][id.value]
  {
    if table !in tables then Err(SqlError("no such table: " + table))
    else if id.Some? && id.value in tables[table] then Ok(Some(tables[table][id.value]))
    else Ok(None)
  }

  /** A write that succeeded: the new tables, queue one notice when
      `notice` is given, nothing else changes. */
  function Written<O>(db: ObservableDb<O>, tables: Tables, notice: Option<Notice>): ObservableDb<O>
  {
    db.(tables := tables, pending := db.pending + (if notice.Some? then [notice.value] else []))
  }

  /** `insert(sql, values, table)`: runs the statement and returns the new
      row id; when `table` is named, queues an "insert" notice carrying the
      row read back under that id. Returns the connection afterwards
      together with the row id or the exception: when the read-back raises,
      the statement's write stays on the connection, uncommitted, and the
      next `commit` persists it. */
  function InsertRow<O>(db: ObservableDb<O>, stmt: Statement, table: Option<string>): (r: (ObservableDb<O>, Result<int, Failure>))
    // a statement that raises changes nothing
    ensures stmt(db.tables).Err? ==> r == (db, Err(stmt(db.tables).error))
    ensures stmt(db.tables).Ok? ==>
      var (tables, newId) := stmt(db.tables).value;
      && r.0.tables == tables
      && r.0.observers == db.observers
      && r.0.scheduled == db.scheduled
      && (r.1.Ok? <==> !Named(table) || table.value in tables)
      && (r.1.Ok? ==>
        && r.1.value == newId
        && r.0.pending == db.pending +
             (if Named(table) then [Notice(table.value, Insert, Some(newId), Reread(tables, table.value, Some(newId)).value)] else []))
      // the read-back raised: the write is kept, no notice is queued
      && (r.1.Err? ==> r.1.error.SqlError? && r.0.pending == db.pending)
  {
    match stmt(db.tables)
    case Err(e) => (db, Err(e))
    case Ok((tables, newId)) =>
      if !Named(table) then (Written(db, tables, None), Ok(newId))
      else match Reread(tables, table.value, Some(newId))
        case Err(e) => (Written(db, tables, None), Err(e))
        case Ok(row) => (Written(db, tables, Some(Notice(table.value, Insert, Some(newId), row))), Ok(newId))
  }

  /** `update(sql, values, table, id)`: runs the statement; when `table` is
      named, queues an "update" notice carrying the row read back under
      `id`. As with `insert`, a read-back that raises leaves the
      statement's write on the connection. */
  function UpdateRow<O>(db: ObservableDb<O>, stmt: Statement, table: Option<string>, id: Option<int>): (r: (ObservableDb<O>, Result<(), Failure>))
    ensures stmt(db.tables).Err? ==> r == (db, Err(stmt(db.tables).error))
    ensures stmt(db.tables).Ok? ==>
      var tables := stmt(db.tables).value.0;
      && r.0.tables == tables
      && r.0.observers == db.observers
      && r.0.scheduled == db.scheduled
      && (r.1.Ok? <==> !Named(table) || table.value in tables)
      && (r.1.Ok? ==>
        r.0.pending == db.pending +
          (if Named(table) then [Notice(table.value, Update, id, Reread(tables, table.value, id).value)] else []))
      && (r.1.Err? ==> r.1.error.SqlError? && r.0.pending == db.pending)
  {
    match stmt(db.tables)
    case Err(e) => (db, Err(e))
    case Ok((tables, _)) =>
      if !Named(table) then (Written(db, tables, None), Ok(()))
      else match Reread(tables, table.value, id)
        case Err(e) => (Written(db, tables, None), Err(e))
        case Ok(row) => (Written(db, tables, Some(Notice(table.value, Update, id, row))), Ok(()))
  }

  /** `delete(sql, values, table, id)`: runs the statement and always
      queues a "delete" notice without a row. */
  function DeleteRow<O>(db: ObservableDb<O>, stmt: Statement, table: string, id: Option<int>): (r: (ObservableDb<O>, Result<(), Failure>))
    ensures r.1.Ok? <==> stmt(db.tables).Ok?
    ensures r.1.Err? ==> r == (db, Err(stmt(db.tables).error))
    ensures r.1.Ok? ==>
      && r.0.tables == stmt(db.tables).value.0
      && r.0.observers == db.observers
      && r.0.scheduled == db.scheduled
      && r.0.pending == db.pending + [Notice(table, Delete, id, None)]
  {
    match stmt(db.tables)
    case Err(e) => (db, Err(e))
    case Ok((tables, _)) => (Written(db, tables, Some(Notice(table, Delete, id, None))), Ok(()))
  }

  // ---------------------------------------------------------------------
  // commit

  /** The calls for one notice: each of its table's observers, in
      registration order. */
  function Calls<O>(obs: seq<O>, n: Notice): (r: seq<Call<O>>)
    ensures |r| == |obs|
    ensures forall k :: 0 <= k < |obs| ==> r[k] == Call(obs[k], n)
  {
    seq(|obs|, k requires 0 <= k < |obs| => Call(obs[k], n))
  }

  /** Every call `commit` schedules for a queue of notices: notice by notice
      in queue order, each followed by its table's observers. */
  function Fanout<O>(pending: seq<Notice>, observers: map<string, seq<O>>): seq<Call<O>>
  {
    if |pending| == 0 then []
    else
      var last := pending[|pending| - 1];
      Fanout(pending[..|pending| - 1], observers) + Calls(ObserversOf(observers, last.table), last)
  }

  /** The inner loop of `commit()`: one notice to each observer in turn. */
  method Notify<O>(log: seq<Call<O>>, obs: seq<O>, event: Notice) returns (r: seq<Call<O>>)
    ensures r == log + Calls(obs, event)
  {
    r := log;
    var j := 0;
    while j < |obs|
      invariant 0 <= j <= |obs|
      invariant r == log + Calls(obs[..j], event)
    {
      CallsStep(obs, j, event);
      r := r + [Call(obs[j], event)];
      j := j + 1;
    }
    assert obs[..j] == obs;
  }

  /** `commit()`: schedules, for each pending notice in order, every
      observer of the notice's table in registration order, then empties
      the queue. The tables and subscriptions are left alone. */
  method Commit<O>(db: ObservableDb<O>) returns (r: ObservableDb<O>)
    ensures r.pending == []
    ensures r.scheduled == db.scheduled + Fanout(db.pending, db.observers)
    ensures r.tables == db.tables && r.observers == db.observers
  {
    var log := db.scheduled;
    var i := 0;
    while i < |db.pending|
      invariant 0 <= i <= |db.pending|
      invariant log == db.scheduled + Fanout(db.pending[..i], db.observers)
    {
      var event := db.pending[i];
      log := Notify(log, ObserversOf(db.observers, event.table), event);
      FanoutStep(db.pending, i, db.observers);
      i := i + 1;
    }
    assert db.pending[..i] == db.pending;
    r := db.(pending := [], scheduled := log);
  }

  lemma CallsStep<O>(obs: seq<O>, j: nat, n: Notice)
    requires j < |obs|
    ensures Calls(obs[..j + 1], n) == Calls(obs[..j], n) + [Call(obs[j], n)]
  {
  }

  lemma FanoutStep<O>(pending: seq<Notice>, i: nat, observers: map<string, seq<O>>)
    requires i < |pending|
    ensures Fanout(pending[..i + 1], observers)
         == Fanout(pending[..i], observers) + Calls(ObserversOf(observers, pending[i].table), pending[i])
  {
    assert pending[..i + 1][..i] == pending[..i];
  }

  /** Queue order is kept: the calls for a longer queue extend the calls
      for its prefix. */
  lemma {:induction false} FanoutAppend<O>(p: seq<Notice>, q: seq<Notice>, observers: map<string, seq<O>>)
    ensures Fanout(p + q, observers) == Fanout(p, observers) + Fanout(q, observers)
    decreases |q|
  {
    if |q| == 0 {
      assert p + q == p;
    } else {
      var q' := q[..|q| - 1];
      var last := q[|q| - 1];
      var tail := Calls(ObserversOf(observers, last.table), last);
      assert (p + q)[..|p + q| - 1] == p + q';
      assert (p + q)[|p + q| - 1] == last;
      assert Fanout(p + q, observers) == Fanout(p + q', observers) + tail;
      assert Fanout(q, observers) == Fanout(q', observers) + tail;
      FanoutAppend(p, q', observers);
    }
  }

  /** A call is scheduled exactly when its notice was pending and its
      observer subscribed to that notice's table. */
  lemma {:induction false} FanoutMembers<O>(pending: seq<Notice>, observers: map<string, seq<O>>, o: O, n: Notice)
    ensures Call(o, n) in Fanout(pending, observers) <==> n in pending && o in ObserversOf(observers, n.table)
    decreases |pending|
  {
    if |pending| > 0 {
      var init := pending[..|pending| - 1];
      var last := pending[|pending| - 1];
      FanoutMembers(init, observers, o, n);
      assert pending == init + [last];
      var obs := ObserversOf(observers, last.table);
      assert Call(o, n) in Calls(obs, last) <==> n == last && o in obs by {
        if Call(o, n) in Calls(obs, last) {
          var k :| 0 <= k < |obs| && Calls(obs, last)[k] == Call(o, n);
        }
        if n == last && o in obs {
          var k :| 0 <= k < |obs| && obs[k] == o;
          assert Calls(obs, last)[k] == Call(o, n);
        }
      }
    }
  }

  /** A single pending notice is handed to exactly its table's observers,
      in registration order; observers of other tables hear nothing. */
  lemma FanoutOne<O>(n: Notice, observers: map<string, seq<O>>)
    ensures Fanout([n], observers) == Calls(ObserversOf(observers, n.table), n)
  {
    assert [n][..0] == [];
  }

  /** An insert into a named table that succeeds is delivered by the next
      `commit` to exactly that table's observers, in registration order,
      after the calls for what was already queued. An insert whose
      read-back raised adds no calls. */
  lemma InsertDelivered<O>(db: ObservableDb<O>, stmt: Statement, table: string)
    requires stmt(db.tables).Ok? && table != ""
    ensures var r := InsertRow(db, stmt, Some(table));
      var (tables, newId) := stmt(db.tables).value;
      && (r.1.Ok? ==>
            Fanout(r.0.pending, db.observers) == Fanout(db.pending, db.observers) + Calls(ObserversOf(db.observers, table), Notice(table, Insert, Some(newId), Reread(tables, table, Some(newId)).value)))
      && (r.1.Err? ==> Fanout(r.0.pending, db.observers) == Fanout(db.pending, db.observers))
  {
    var r := InsertRow(db, stmt, Some(table));
    if r.1.Ok? {
      var (tables, newId) := stmt(db.tables).value;
      var n := Notice(table, Insert, Some(newId), Reread(tables, table, Some(newId)).value);
      FanoutAppend(db.pending, [n], db.observers);
      FanoutOne(n, db.observers);
    }
  }

  // ---------------------------------------------------------------------
  // get_db

  /** The `version` table of a database file, or a file sqlite cannot use
      as a database (sqlite3.DatabaseError when read). */
  datatype Stored = Versions(rows: seq<Value>) | Unusable(reason: string)

  datatype DbFile = Missing | Present(stored: Stored)

  /** The only schema version this code understands. */
  const SchemaVersion := 1

  /** `get_db(dbfile)`: a missing file is created with the schema and
      version row 1; DBError when the file cannot be opened, is not a
      usable database, or holds another version; TypeError when the version
      table is empty (`fetchone()` is None). Returns the version table of
      the opened database. */
  function GetDb(file: DbFile, openFails: bool): (r: Result<Stored, Failure>)
    ensures r.Ok? <==>
      && !openFails
      && (file.Missing? || (file.stored.Versions? && |file.stored.rows| > 0 && file.stored.rows[0] == IntValue(SchemaVersion)))
    ensures r.Ok? ==> r.value.Versions? && |r.value.rows| > 0 && r.value.rows[0] == IntValue(SchemaVersion)
    ensures r.Ok? && file.Present? ==> r.value == file.stored
    ensures r.Err? && !openFails && file.Present? && file.stored == Versions([]) ==> r.error.TypeError?
    ensures r.Err? && !(file.Present? && file.stored == Versions([])) ==> r.error.DBError?
  {
    var mustCreate := file.Missing?;
    if openFails then Err(DBError("Unable to create/open db file"))
    else
      var stored := if mustCreate then Versions([IntValue(SchemaVersion)]) else file.stored;
      match stored
      case Unusable(reason) => Err(DBError("db file is unusable: " + reason))
      case Versions(rows) =>
        if |rows| == 0 then Err(TypeError("'NoneType' object has no attribute '__getitem__'"))
        else if rows[0] != IntValue(SchemaVersion) then Err(DBError("Unable to handle db version"))
        else Ok(stored)
  }

  /** A database `get_db` created or accepted opens again unchanged. */
  lemma GetDbReopens(file: DbFile)
    requires GetDb(file, false).Ok?
    ensures GetDb(Present(GetDb(file, false).value), false) == GetDb(file, false)
  {
  }

  /** A fresh file is created at version 1. */
  lemma GetDbCreates()
    ensures GetDb(Missing, false) == Ok(Versions([IntValue(SchemaVersion)]))
  {
  }
}
