/** The collaborators the core borrows from the ORM: the statement holder
    (gorm.Scope), the database handle that executes statements (gorm.DB) and
    MySQL identifier quoting. */
module Gorm {
  import opened Types

  /** MySQL identifier quoting: the name between backticks. */
  function Quote(name: string): string {
    "`" + name + "`"
  }

  /** The statement holder passed to an ExecFunc: the statement's SQL and
      placeholder values, plus the read-only settings a strategy may consult. */
  class Scope {
    const quotedTableName: string
    const insertOption: Option<string>   // the "gorm:insert_option" setting, if set
    var sql: string
    var sqlVars: seq<Value>

    constructor (quotedTableName: string, insertOption: Option<string>)
      ensures this.quotedTableName == quotedTableName && this.insertOption == insertOption
      ensures sql == "" && sqlVars == []
    {
      this.quotedTableName := quotedTableName;
      this.insertOption := insertOption;
      sql := "";
      sqlVars := [];
    }

    /** scope.Raw: store the statement text. */
    method Raw(text: string)
      modifies this`sql
      ensures sql == text
    {
      sql := text;
    }
  }

  /** The error, if any, that the data store's answer carries. */
  function ExecError(answer: Option<string>): Option<Error> {
    match answer
    case None => None
    case Some(m) => Some(ExecFailed(m))
  }

  /** A database handle. The data store is an oracle: its answer to the n-th
      statement executed through this handle is `respond(n, statement)`, an
      error message or none. `executed` logs every statement sent to it. */
  class DB {
    const insertOption: Option<string>
    const respond: (nat, Statement) -> Option<string>
    var executed: seq<Statement>

    constructor (insertOption: Option<string>, respond: (nat, Statement) -> Option<string>)
      ensures this.insertOption == insertOption && this.respond == respond
      ensures executed == []
    {
      this.insertOption := insertOption;
      this.respond := respond;
      executed := [];
    }

    /** db.Exec(sql, vars...).Error */
    method Exec(sql: string, vars: seq<Value>) returns (err: Option<Error>)
      modifies this`executed
      ensures executed == old(executed) + [Statement(sql, vars)]
      ensures err == ExecError(respond(|old(executed)|, Statement(sql, vars)))
    {
      err := ExecError(respond(|executed|, Statement(sql, vars)));
      executed := executed + [Statement(sql, vars)];
    }
  }
}
