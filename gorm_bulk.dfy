/** The package itself: its one piece of state, the batch time `bulkNow`,
    and the functions that read and write it. Each method is proved against
    the specification functions of the normaliser, the assembler and the
    chunker. */
module GormBulk {
  import opened Types
  import opened GoStd
  import opened Gorm
  import opened RowNormalizer
  import opened ExecFuncs
  import opened Assembler
  import opened Chunker

  /** The first loop of scopeFromObjects: the keys of the first object's map,
      taken in whatever order the map yields them, with the names re-sorted
      after every key, and one `?` per key. */
  method ColumnNames(first: map<string, Value>) returns (columnNames: seq<string>, placeholders: seq<string>)
    ensures columnNames == SortedKeys(first.Keys)
    ensures placeholders == Placeholders(|columnNames|)
  {
    columnNames := [];
    placeholders := [];
    var remaining := first.Keys;
    ghost var seen: set<string> := {};
    while remaining != {}
      invariant seen !! remaining && seen + remaining == first.Keys
      invariant Sorted(columnNames) && multiset(columnNames) == multiset(seen)
      invariant placeholders == Placeholders(|columnNames|)
      decreases remaining
    {
      var k :| k in remaining;
      assert multiset(seen + {k}) == multiset(seen) + multiset{k};
      remaining := remaining - {k};
      seen := seen + {k};
      columnNames := columnNames + [k];
      placeholders := placeholders + ["?"];
      columnNames := SortStrings(columnNames);
      assert |columnNames| == |placeholders| by {
        assert |columnNames| == |multiset(columnNames)|;
      }
    }
    assert columnNames == SortedKeys(first.Keys) by {
      SortedUnique(columnNames, SortedKeys(first.Keys));
    }
  }

  /** The second loop of scopeFromObjects: each sorted column name quoted,
      in the same order. */
  method QuoteColumns(columnNames: seq<string>) returns (quotedColumnNames: seq<string>)
    ensures quotedColumnNames == QuoteAll(columnNames)
  {
    quotedColumnNames := [];
    for i := 0 to |columnNames|
      invariant |quotedColumnNames| == i
      invariant forall j :: 0 <= j < i ==> quotedColumnNames[j] == Quote(columnNames[j])
    {
      quotedColumnNames := quotedColumnNames + [Quote(columnNames[i])];
    }
  }

  /** The values one object adds to its own scope: its map read at each
      column, in column order, nil where the map has no such key. */
  method RowValues(row: map<string, Value>, columnNames: seq<string>) returns (objectVars: seq<Value>)
    ensures objectVars == RowArgs(row, columnNames)
  {
    objectVars := [];
    for j := 0 to |columnNames|
      invariant |objectVars| == j
      invariant forall c :: 0 <= c < j ==> objectVars[c] == Lookup(row, columnNames[c])
    {
      var key := columnNames[j];
      objectVars := objectVars + [if key in row then row[key] else Nil];
    }
  }

  /** The package state. `bulkNow` is the batch time: Go's zero time outside
      scopeFromObjects, the clock's reading while it runs, so that every
      object of one statement gets the same CreatedAt and UpdatedAt. */
  class Package {
    var bulkNow: Time

    constructor ()
      ensures bulkNow == ZeroTime
    {
      bulkNow := ZeroTime;
    }

    /** ObjectToMap: the attributes of a struct or a pointer to one, using
        `bulkNow` when it is set and the clock's reading `nowFunc` otherwise. */
    method ObjectToMap(obj: Object, nowFunc: Time) returns (r: Result<map<string, Value>, Error>)
      ensures r == ToMap(obj, if bulkNow.IsZero() then nowFunc else bulkNow)
    {
      var now := bulkNow;
      var o := obj;
      if o.Pointer? {
        o := o.target;
      }
      if !o.Struct? {
        return Failure(NotStruct);
      }
      if now.IsZero() {
        now := nowFunc;
      }
      var attributes: map<string, Value> := map[];
      for i := 0 to |o.fields|
        invariant attributes == AttributesOf(o.fields[..i], now)
      {
        var field := o.fields[i];
        AttributesStep(o.fields, i, now);
        if "FOREIGNKEY" in field.tagSettings {
          continue;
        }
        if field.hasRelationship {
          continue;
        }
        if field.isIgnored {
          continue;
        }
        if field.hasDefaultValue && field.isBlank {
          if "DEFAULT" in field.tagSettings {
            continue;
          }
        }
        if field.dbName == "id" && field.isPrimaryKey && field.isBlank {
          continue;
        }
        if "AUTO_INCREMENT" in field.tagSettings {
          var value := field.tagSettings["AUTO_INCREMENT"];
          if !EqualFold(value, "false") {
            continue;
          }
        }
        if field.structName == "CreatedAt" || field.structName == "UpdatedAt" {
          if field.isBlank {
            attributes := attributes[field.dbName := Timestamp(now)];
            continue;
          }
        }
        attributes := attributes[field.dbName := field.value];
      }
      assert o.fields[..|o.fields|] == o.fields;
      return Success(attributes);
    }

    /** scopeFromObjects: no scope and no error for no objects; otherwise the
        batch time is set to the clock's reading, the columns, groups and
        values are assembled, the strategy runs on a fresh scope, and the
        batch time is reset to the zero time on every way out. */
    method ScopeFromObjects(db: DB, objects: seq<Object>, execFunc: ExecFunc, clock: Time)
      returns (scope: Scope?, err: Option<Error>)
      modifies this
      ensures objects == [] ==> bulkNow == old(bulkNow)
      ensures objects != [] ==> bulkNow == ZeroTime
      ensures match Assemble(objects, clock, execFunc, db.insertOption)
        case Failure(e) => scope == null && err == Some(e)
        case Success(None) => scope == null && err == None
        case Success(Some(st)) => scope != null && fresh(scope) && err == None
                                  && Statement(scope.sql, scope.sqlVars) == st
    {
      if |objects| < 1 {
        return null, None;
      }
      var s := new Scope(Quote(TableOf(objects[0])), db.insertOption);
      bulkNow := clock;

      var first := ObjectToMap(objects[0], clock);
      if first.Failure? {
        AssembleFailure(objects, clock, execFunc, db.insertOption);
        bulkNow := ZeroTime;
        return null, Some(first.error);
      }

      var columnNames, placeholders := ColumnNames(first.value);

      var quotedColumnNames := QuoteColumns(columnNames);

      var groups, e := AddRows(objects, columnNames, placeholders, s, clock);
      if e.Some? {
        AssembleFailure(objects, clock, execFunc, db.insertOption);
        bulkNow := ZeroTime;
        return null, e;
      }
      AssembleSuccess(objects, clock, execFunc, db.insertOption, columnNames, NormalizeAll(objects, clock).value);
      Run(execFunc, s, quotedColumnNames, groups);
      bulkNow := ZeroTime;
      return s, None;
    }

    /** The rows loop of scopeFromObjects: each object's map read in column
        order into the scope's values, and one placeholder group per object;
        the first object that is not a struct stops it with its error. */
    method AddRows(objects: seq<Object>, columnNames: seq<string>, placeholders: seq<string>,
                   scope: Scope, clock: Time)
      returns (groups: seq<string>, err: Option<Error>)
      requires bulkNow == clock && placeholders == Placeholders(|columnNames|) && scope.sqlVars == []
      modifies scope`sqlVars
      ensures match NormalizeAll(objects, clock)
        case Failure(e) => err == Some(e)
        case Success(rows) => err == None && groups == Groups(|objects|, |columnNames|)
                              && scope.sqlVars == FlatArgs(rows, columnNames)
    {
      groups := [];
      ghost var rows: seq<map<string, Value>> := [];
      for idx := 0 to |objects|
        invariant |rows| == idx
        invariant forall j :: 0 <= j < idx ==> ToMap(objects[j], clock) == Success(rows[j])
        invariant groups == Groups(idx, |columnNames|)
        invariant scope.sqlVars == FlatArgs(rows, columnNames)
      {
        var r := objects[idx];
        var row := ObjectToMap(r, clock);
        if row.Failure? {
          NormalizeAllFailure(objects, clock, idx);
          return groups, Some(row.error);
        }
        var objectVars := RowValues(row.value, columnNames);
        groups := groups + [Sprintf("(%s)", [Join(placeholders, ", ")])];
        ghost var prev := rows;
        rows := rows + [row.value];
        assert rows[..|rows| - 1] == prev;
        scope.sqlVars := scope.sqlVars + objectVars;
      }
      NormalizeAllRows(objects, clock, rows);
      return groups, None;
    }

    /** BulkExec: the error of assembling, if any, with nothing executed;
        nothing at all for no objects; otherwise the statement is executed
        once and the data store's error, if any, returned. */
    method BulkExec(db: DB, objects: seq<Object>, execFunc: ExecFunc, clock: Time) returns (err: Option<Error>)
      modifies this, db
      ensures var step := ExecStep(objects, clock, execFunc, db.insertOption, db.respond, |old(db.executed)|);
        err == step.error
        && db.executed == old(db.executed) + (if step.executed.Some? then [step.executed.value] else [])
      ensures objects == [] ==> bulkNow == old(bulkNow)
      ensures objects != [] ==> bulkNow == ZeroTime
    {
      var scope, e := ScopeFromObjects(db, objects, execFunc, clock);
      if e.Some? {
        return e;
      }
      if scope == null {
        return None;
      }
      err := db.Exec(scope.sql, scope.sqlVars);
    }

    /** BulkInsert: BulkExec with the plain INSERT strategy. */
    method BulkInsert(db: DB, objects: seq<Object>, clock: Time) returns (err: Option<Error>)
      modifies this, db
      ensures var step := ExecStep(objects, clock, Insert, db.insertOption, db.respond, |old(db.executed)|);
        err == step.error
        && db.executed == old(db.executed) + (if step.executed.Some? then [step.executed.value] else [])
      ensures objects == [] ==> bulkNow == old(bulkNow)
      ensures objects != [] ==> bulkNow == ZeroTime
    {
      err := BulkExec(db, objects, Insert, clock);
    }

    /** BulkInsertIgnore: BulkExec with the INSERT IGNORE strategy. */
    method BulkInsertIgnore(db: DB, objects: seq<Object>, clock: Time) returns (err: Option<Error>)
      modifies this, db
      ensures var step := ExecStep(objects, clock, InsertIgnore, db.insertOption, db.respond, |old(db.executed)|);
        err == step.error
        && db.executed == old(db.executed) + (if step.executed.Some? then [step.executed.value] else [])
      ensures objects == [] ==> bulkNow == old(bulkNow)
      ensures objects != [] ==> bulkNow == ZeroTime
    {
      err := BulkExec(db, objects, InsertIgnore, clock);
    }

    /** BulkInsertOnDuplicateKeyUpdate: BulkExec with the ON DUPLICATE KEY
        UPDATE strategy. */
    method BulkInsertOnDuplicateKeyUpdate(db: DB, objects: seq<Object>, clock: Time) returns (err: Option<Error>)
      modifies this, db
      ensures var step := ExecStep(objects, clock, InsertOnDuplicateKeyUpdate, db.insertOption, db.respond,
                                   |old(db.executed)|);
        err == step.error
        && db.executed == old(db.executed) + (if step.executed.Some? then [step.executed.value] else [])
      ensures objects == [] ==> bulkNow == old(bulkNow)
      ensures objects != [] ==> bulkNow == ZeroTime
    {
      err := BulkExec(db, objects, InsertOnDuplicateKeyUpdate, clock);
    }

    /** BulkExec on chunk `k`, stated through the loop's `run`. */
    method ExecChunk(db: DB, chunk: seq<Object>, execFunc: ExecFunc, clock: nat -> Time, k: nat,
                     ghost run: (seq<Object>, nat, nat) -> Step)
      returns (err: Option<Error>)
      requires run == Runner(execFunc, db.insertOption, db.respond, clock)
      modifies this, db
      ensures var s := run(chunk, k, |old(db.executed)|);
        err == s.error && db.executed == old(db.executed) + (if s.executed.Some? then [s.executed.value] else [])
      ensures chunk == [] ==> bulkNow == old(bulkNow)
      ensures chunk != [] ==> bulkNow == ZeroTime
    {
      err := BulkExec(db, chunk, execFunc, clock(k));
    }

    /** One turn of BulkExecChunk's loop: cut the next chunk off `objects`
        (all of it when it fits), run BulkExec on it reading `clock(k)`, and
        append its error, if any. The ghost `done` lists the steps taken and
        `all` the steps of the whole run. */
    method NextChunk(db: DB, objects: seq<Object>, execFunc: ExecFunc, chunkSize: int, clock: nat -> Time, k: nat,
                     allErrors: seq<Error>, ghost run: (seq<Object>, nat, nat) -> Step,
                     ghost all: seq<Step>, ghost done: seq<Step>, ghost base: seq<Statement>)
      returns (rest: seq<Object>, errors: seq<Error>, ghost done': seq<Step>)
      requires chunkSize > 0 && run == Runner(execFunc, db.insertOption, db.respond, clock)
      requires all == done + Steps(Chunks(objects, chunkSize), run, k, |db.executed|)
      requires allErrors == Errors(done) && db.executed == base + Executed(done)
      modifies this, db
      ensures |rest| < |objects| || rest == []
      ensures rest == [] ==> all == done'
      ensures rest != [] ==> all == done' + Steps(Chunks(rest, chunkSize), run, k + 1, |db.executed|)
      ensures errors == Errors(done') && db.executed == base + Executed(done')
      ensures objects == [] ==> bulkNow == old(bulkNow)
      ensures objects != [] ==> bulkNow == ZeroTime
    {
      ghost var n := |db.executed|;
      ChunkLoopTurn(all, done, objects, chunkSize, run, k, n);
      var chunkObjects;
      if |objects| <= chunkSize {
        chunkObjects := objects;
        rest := [];
      } else {
        chunkObjects := objects[..chunkSize];
        rest := objects[chunkSize..];
      }
      ghost var step := run(chunkObjects, k, n);
      ghost var before := db.executed;
      var err := ExecChunk(db, chunkObjects, execFunc, clock, k, run);
      RecordStep(done, step, base, before, db.executed, allErrors, err);
      done' := done + [step];
      errors := allErrors;
      if err.Some? {
        errors := errors + [err.value];
      }
    }

    /** BulkExecChunk: BulkExec once per chunk of `chunkSize` objects, in
        order, chunk `k` reading `clock(k)`; every error is collected and a
        failing chunk does not stop the later ones. */
    method BulkExecChunk(db: DB, objects: seq<Object>, execFunc: ExecFunc, chunkSize: int, clock: nat -> Time)
      returns (allErrors: seq<Error>)
      requires chunkSize > 0
      modifies this, db
      ensures var steps := Steps(Chunks(objects, chunkSize), Runner(execFunc, db.insertOption, db.respond, clock),
                                 0, |old(db.executed)|);
        allErrors == Errors(steps) && db.executed == old(db.executed) + Executed(steps)
      ensures objects == [] ==> bulkNow == old(bulkNow)
      ensures objects != [] ==> bulkNow == ZeroTime
    {
      ghost var run := Runner(execFunc, db.insertOption, db.respond, clock);
      ghost var all := Steps(Chunks(objects, chunkSize), run, 0, |db.executed|);
      ghost var done: seq<Step> := [];
      allErrors := [];
      var rest := objects;
      var k: nat := 0;
      while true
        invariant all == done + Steps(Chunks(rest, chunkSize), run, k, |db.executed|)
        invariant allErrors == Errors(done)
        invariant db.executed == old(db.executed) + Executed(done)
        invariant k == 0 ==> rest == objects && bulkNow == old(bulkNow)
        invariant k > 0 ==> objects != [] && bulkNow == ZeroTime
        decreases |rest|
      {
        var next;
        next, allErrors, done := NextChunk(db, rest, execFunc, chunkSize, clock, k, allErrors, run, all, done,
                                           old(db.executed));
        if |next| < 1 {
          return;
        }
        rest, k := next, k + 1;
      }
    }
  }
}
