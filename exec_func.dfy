/** The statement strategies (ExecFunc values): given the quoted column names
    and one placeholder group per row, each writes the statement's SQL text into
    the scope. */
module ExecFuncs {
  import opened Types
  import opened GoStd
  import opened Gorm

  // The format strings, written as their literal runs and `%s` verbs so that
  // the expansion lemmas below can name each run.
  const IntoFormat := " INTO " + "%s" + " (" + "%s" + ") VALUES " + "%s"
  const InsertFormat := "INSERT" + IntoFormat                    // "INSERT INTO %s (%s) VALUES %s"
  const InsertIgnoreFormat := "INSERT IGNORE" + IntoFormat       // "INSERT IGNORE INTO %s (%s) VALUES %s"
  const OnDuplicateKeyUpdateFormat :=
    "INSERT INTO " + "%s" + " (" + "%s" + ") VALUES " + "%s" + " ON DUPLICATE KEY UPDATE " + "%s"
  const UpdateClauseFormat := "%s" + " = VALUES(" + "%s" + ")"  // "%s = VALUES(%s)"

  /** The text every built-in strategy starts with, written out:
      `<verb> INTO <table> (<columns>) VALUES <groups>`, the lists comma-joined. */
  function InsertStatement(verb: string, quotedTable: string, columns: seq<string>, groups: seq<string>): string {
    verb + " INTO " + quotedTable + " (" + Join(columns, ", ") + ") VALUES " + Join(groups, ", ")
  }

  /** What the "gorm:insert_option" setting adds at the end: a space and its text. */
  function OptionSuffix(insertOption: Option<string>): string {
    if insertOption.Some? then " " + insertOption.value else ""
  }

  /** `c = VALUES(c)` for one column. */
  function UpdateClause(column: string): string {
    column + " = VALUES(" + column + ")"
  }

  /** One update clause per column, in column order. */
  function UpdateClauses(columns: seq<string>): seq<string> {
    seq(|columns|, i requires 0 <= i < |columns| => UpdateClause(columns[i]))
  }

  /** The SQL of the ON DUPLICATE KEY UPDATE strategy, written out. */
  function OnDuplicateKeyUpdateSQL(quotedTable: string, columns: seq<string>, groups: seq<string>): string {
    InsertStatement("INSERT", quotedTable, columns, groups)
      + " ON DUPLICATE KEY UPDATE " + Join(UpdateClauses(columns), ", ")
  }

  // ---------------------------------------------------------------------------
  // How the fixed format strings expand

  /** `fmt.Sprintf("%s%%s", format)` appends a `%s` verb to `format`, whatever
      `format` holds. */
  lemma AppendVerb(format: string)
    ensures Sprintf("%s%%s", [format]) == format + "%s"
  {
    SprintfVerb("%%s", format, []);
    assert Sprintf("%%s", []) == "%s";
  }

  /** defaultWithFormat on a format of the shape the two plain strategies use:
      the verb, then the table, columns, groups and the option's text, each
      inserted verbatim. */
  lemma DefaultWithFormatShape(verb: string, quotedTable: string, insertOption: Option<string>,
                               columns: seq<string>, groups: seq<string>)
    requires '%' !in verb
    ensures DefaultWithFormat(quotedTable, insertOption, columns, groups, verb + IntoFormat)
         == InsertStatement(verb, quotedTable, columns, groups) + OptionSuffix(insertOption)
  {
    var format := verb + IntoFormat;
    AppendVerb(format);
    var extra := if insertOption.Some? then Sprintf(" %s", [insertOption.value]) else "";
    if insertOption.Some? {
      assert " %s" == " " + "%s" + "";
      SprintfOne(" ", "", insertOption.value);
    }
    assert extra == OptionSuffix(insertOption);
    assert '%' !in " INTO " && '%' !in " (" && '%' !in ") VALUES ";
    assert format + "%s" == (verb + " INTO ") + "%s" + " (" + "%s" + ") VALUES " + "%s" + "" + "%s" + "";
    SprintfFour(verb + " INTO ", " (", ") VALUES ", "", "",
                quotedTable, Join(columns, ", "), Join(groups, ", "), extra);
  }

  // ---------------------------------------------------------------------------
  // The strategies

  /** defaultWithFormat: the format with a trailing `%s` for the insert option,
      filled with the table, the comma-joined columns and groups, and the option
      text (a space and the option when it is set, nothing otherwise). The option
      is an argument, not part of the format, so its text is never interpreted. */
  function DefaultWithFormat(quotedTable: string, insertOption: Option<string>,
                             columns: seq<string>, groups: seq<string>, format: string): string
  {
    var extraOptions := if insertOption.Some? then Sprintf(" %s", [insertOption.value]) else "";
    var sqlFormat := Sprintf("%s%%s", [format]);
    Sprintf(sqlFormat, [quotedTable, Join(columns, ", "), Join(groups, ", "), extraOptions])
  }

  /** InsertFunc: a plain multi-row INSERT, followed by the insert option when
      one is set. */
  function InsertFunc(quotedTable: string, insertOption: Option<string>,
                      columns: seq<string>, groups: seq<string>): (sql: string)
    ensures sql == InsertStatement("INSERT", quotedTable, columns, groups) + OptionSuffix(insertOption)
  {
    DefaultWithFormatShape("INSERT", quotedTable, insertOption, columns, groups);
    DefaultWithFormat(quotedTable, insertOption, columns, groups, InsertFormat)
  }

  /** InsertIgnoreFunc: the same with INSERT IGNORE; it shares defaultWithFormat
      and so honours the insert option as well. */
  function InsertIgnoreFunc(quotedTable: string, insertOption: Option<string>,
                            columns: seq<string>, groups: seq<string>): (sql: string)
    ensures sql == InsertStatement("INSERT IGNORE", quotedTable, columns, groups) + OptionSuffix(insertOption)
  {
    DefaultWithFormatShape("INSERT IGNORE", quotedTable, insertOption, columns, groups);
    DefaultWithFormat(quotedTable, insertOption, columns, groups, InsertIgnoreFormat)
  }

  lemma UpdateClauseFormatShape(column: string)
    ensures Sprintf(UpdateClauseFormat, [column, column]) == UpdateClause(column)
  {
    assert UpdateClauseFormat == "" + "%s" + " = VALUES(" + "%s" + ")";
    assert '%' !in " = VALUES(" && '%' !in ")";
    SprintfTwo("", " = VALUES(", ")", column, column);
  }

  lemma OnDuplicateKeyUpdateFormatShape(quotedTable: string, columns: seq<string>, groups: seq<string>,
                                        updates: seq<string>)
    requires updates == UpdateClauses(columns)
    ensures Sprintf(OnDuplicateKeyUpdateFormat,
                    [quotedTable, Join(columns, ", "), Join(groups, ", "), Join(updates, ", ")])
         == OnDuplicateKeyUpdateSQL(quotedTable, columns, groups)
  {
    var t, c, g, u := quotedTable, Join(columns, ", "), Join(groups, ", "), Join(updates, ", ");
    assert Sprintf(OnDuplicateKeyUpdateFormat, [t, c, g, u])
        == "INSERT INTO " + t + " (" + c + ") VALUES " + g + " ON DUPLICATE KEY UPDATE " + u + "" by {
      assert OnDuplicateKeyUpdateFormat
          == "INSERT INTO " + "%s" + " (" + "%s" + ") VALUES " + "%s" + " ON DUPLICATE KEY UPDATE " + "%s" + "";
      assert '%' !in "INSERT INTO " && '%' !in " (" && '%' !in ") VALUES " && '%' !in " ON DUPLICATE KEY UPDATE ";
      SprintfFour("INSERT INTO ", " (", ") VALUES ", " ON DUPLICATE KEY UPDATE ", "", t, c, g, u);
    }
    assert "INSERT INTO " == "INSERT" + " INTO ";
  }

  /** InsertOnDuplicateKeyUpdateFunc: the plain INSERT followed by one
      `c = VALUES(c)` clause per column, in column order. It takes no insert
      option: the source never reads it. */
  method InsertOnDuplicateKeyUpdateFunc(quotedTable: string, columns: seq<string>, groups: seq<string>)
    returns (sql: string)
    ensures sql == OnDuplicateKeyUpdateSQL(quotedTable, columns, groups)
  {
    var duplicateUpdates: seq<string> := [];
    for i := 0 to |columns|
      invariant duplicateUpdates == UpdateClauses(columns[..i])
    {
      UpdateClauseFormatShape(columns[i]);
      duplicateUpdates := duplicateUpdates + [Sprintf(UpdateClauseFormat, [columns[i], columns[i]])];
    }
    assert columns[..|columns|] == columns;
    OnDuplicateKeyUpdateFormatShape(quotedTable, columns, groups, duplicateUpdates);
    sql := Sprintf(OnDuplicateKeyUpdateFormat,
                   [quotedTable, Join(columns, ", "), Join(groups, ", "), Join(duplicateUpdates, ", ")]);
  }

  /** The ExecFunc type: one of the three bundled strategies, or a caller's own
      function, which receives the table, the insert option, the statement built
      so far, the quoted columns and the groups, and may set both the SQL and
      the values. */
  datatype ExecFunc =
    | Insert
    | InsertIgnore
    | InsertOnDuplicateKeyUpdate
    | Custom(apply: (string, Option<string>, Statement, seq<string>, seq<string>) -> Statement)

  /** The statement a scope holds after `execFunc` ran on it. */
  function Apply(execFunc: ExecFunc, quotedTable: string, insertOption: Option<string>,
                 current: Statement, columns: seq<string>, groups: seq<string>): (st: Statement)
    ensures !execFunc.Custom? ==> st.vars == current.vars
  {
    match execFunc
    case Insert => Statement(InsertFunc(quotedTable, insertOption, columns, groups), current.vars)
    case InsertIgnore => Statement(InsertIgnoreFunc(quotedTable, insertOption, columns, groups), current.vars)
    case InsertOnDuplicateKeyUpdate => Statement(OnDuplicateKeyUpdateSQL(quotedTable, columns, groups), current.vars)
    case Custom(f) => f(quotedTable, insertOption, current, columns, groups)
  }

  /** Calling an ExecFunc on a scope: the bundled strategies set only the SQL
      text (through scope.Raw); a caller's function may set both. */
  method Run(execFunc: ExecFunc, scope: Scope, columns: seq<string>, groups: seq<string>)
    modifies scope
    ensures Statement(scope.sql, scope.sqlVars)
         == Apply(execFunc, scope.quotedTableName, scope.insertOption,
                  old(Statement(scope.sql, scope.sqlVars)), columns, groups)
    ensures !execFunc.Custom? ==> scope.sqlVars == old(scope.sqlVars)
  {
    match execFunc {
      case Insert =>
        scope.Raw(InsertFunc(scope.quotedTableName, scope.insertOption, columns, groups));
      case InsertIgnore =>
        scope.Raw(InsertIgnoreFunc(scope.quotedTableName, scope.insertOption, columns, groups));
      case InsertOnDuplicateKeyUpdate =>
        var sql := InsertOnDuplicateKeyUpdateFunc(scope.quotedTableName, columns, groups);
        scope.Raw(sql);
      case Custom(f) =>
        var st := f(scope.quotedTableName, scope.insertOption, Statement(scope.sql, scope.sqlVars), columns, groups);
        scope.sql, scope.sqlVars := st.sql, st.vars;
    }
  }
}
