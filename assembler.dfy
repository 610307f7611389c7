/** The batch assembler: what scopeFromObjects builds from a list of objects.
    The column names are the first row's keys in ascending order, quoted only
    after sorting; every object contributes one placeholder group and, in that
    column order, one value per column. */
module Assembler {
  import opened Types
  import opened GoStd
  import opened Gorm
  import opened RowNormalizer
  import opened ExecFuncs

  /** Reading `row[key]` from a Go map of interfaces: a missing key reads as nil. */
  function Lookup(row: map<string, Value>, key: string): Value {
    if key in row then row[key] else Nil
  }

  /** The values one row binds, one per column, in column order. */
  function RowArgs(row: map<string, Value>, columns: seq<string>): (r: seq<Value>)
    ensures |r| == |columns|
    ensures forall j :: 0 <= j < |columns| ==> r[j] == Lookup(row, columns[j])
  {
    seq(|columns|, j requires 0 <= j < |columns| => Lookup(row, columns[j]))
  }

  /** Where row `k` starts among the flattened values when every row has `n`:
      k * n, counted out by repeated addition. */
  function Offset(k: nat, n: nat): nat {
    if k == 0 then 0 else Offset(k - 1, n) + n
  }

  lemma {:induction false} OffsetIsProduct(k: nat, n: nat)
    ensures Offset(k, n) == k * n
  {
    if k > 0 {
      OffsetIsProduct(k - 1, n);
    }
  }

  /** Column `j` of row `k` lies before the start of any later row `m`. */
  lemma {:induction false} OffsetBound(k: nat, j: nat, n: nat, m: nat)
    requires k < m && j < n
    ensures Offset(k, n) + j < Offset(m, n)
  {
    if k < m - 1 {
      OffsetBound(k, j, n, m - 1);
    }
  }

  /** `vars` holds the values of `rows`, row after row in column order: the
      value at `Offset(k, n) + j` is row `k`'s value for column `j`. */
  predicate RowMajor(vars: seq<Value>, rows: seq<map<string, Value>>, columns: seq<string>) {
    |vars| == Offset(|rows|, |columns|)
    && forall k, j :: 0 <= k < |rows| && 0 <= j < |columns| ==> BindsAt(vars, rows, columns, k, j)
  }

  /** Row `k`'s value for column `j` sits at `Offset(k, n) + j`. */
  predicate BindsAt(vars: seq<Value>, rows: seq<map<string, Value>>, columns: seq<string>, k: nat, j: nat)
    requires k < |rows| && j < |columns|
  {
    Offset(k, |columns|) + j < |vars| && vars[Offset(k, |columns|) + j] == Lookup(rows[k], columns[j])
  }

  /** Appending the values of one more row keeps the layout. */
  lemma AppendRow(init: seq<Value>, rows: seq<map<string, Value>>, columns: seq<string>)
    requires rows != [] && RowMajor(init, rows[..|rows| - 1], columns)
    ensures RowMajor(init + RowArgs(rows[|rows| - 1], columns), rows, columns)
  {
    var n := |columns|;
    var m := |rows| - 1;
    var last := RowArgs(rows[m], columns);
    var r := init + last;
    assert |r| == Offset(|rows|, n);
    forall k, j | 0 <= k < |rows| && 0 <= j < n
      ensures BindsAt(r, rows, columns, k, j)
    {
      if k < m {
        OffsetBound(k, j, n, m);
        assert BindsAt(init, rows[..m], columns, k, j);
        assert rows[..m][k] == rows[k];
      } else {
        assert |rows[..m]| == m;
        assert Offset(k, n) == |init|;
        assert r[|init| + j] == last[j];
      }
    }
    assert RowMajor(r, rows, columns);
  }

  /** The values of all rows, flattened as the rows loop appends them. */
  function FlatArgs(rows: seq<map<string, Value>>, columns: seq<string>): seq<Value>
    decreases |rows|
  {
    if rows == [] then []
    else FlatArgs(rows[..|rows| - 1], columns) + RowArgs(rows[|rows| - 1], columns)
  }

  /** The flattened values are laid out row after row, in column order. */
  lemma {:induction false} FlatArgsAreRowMajor(rows: seq<map<string, Value>>, columns: seq<string>)
    ensures RowMajor(FlatArgs(rows, columns), rows, columns)
    decreases |rows|
  {
    if rows != [] {
      FlatArgsAreRowMajor(rows[..|rows| - 1], columns);
      AppendRow(FlatArgs(rows[..|rows| - 1], columns), rows, columns);
    }
  }

  /** ObjectToMap on every object, in order, stopping at the first that is not
      a struct. */
  function NormalizeAll(objects: seq<Object>, now: Time): (r: Result<seq<map<string, Value>>, Error>)
    ensures r.Success? <==> forall i :: 0 <= i < |objects| ==> ToMap(objects[i], now).Success?
    ensures r.Success? ==> (|r.value| == |objects|
      && forall i :: 0 <= i < |objects| ==> ToMap(objects[i], now) == Success(r.value[i]))
    ensures r.Failure? ==> r.error == NotStruct
    decreases |objects|
  {
    if objects == [] then Success([])
    else
      var n := |objects| - 1;
      assert forall i :: 0 <= i < n ==> objects[..n][i] == objects[i];
      match NormalizeAll(objects[..n], now)
      case Failure(e) => Failure(e)
      case Success(rows) =>
        match ToMap(objects[n], now)
        case Failure(e) => Failure(e)
        case Success(row) => Success(rows + [row])
  }

  /** When every object has a map, the maps are the rows, in order. */
  lemma NormalizeAllRows(objects: seq<Object>, now: Time, rows: seq<map<string, Value>>)
    requires |rows| == |objects|
    requires forall j :: 0 <= j < |objects| ==> ToMap(objects[j], now) == Success(rows[j])
    ensures NormalizeAll(objects, now) == Success(rows)
  {
    var all := NormalizeAll(objects, now);
    assert forall j :: 0 <= j < |objects| ==> ToMap(objects[j], now).Success?;
    assert all.Success? && |all.value| == |rows|;
    assert forall j :: 0 <= j < |rows| ==> all.value[j] == rows[j];
    assert all.value == rows;
  }

  /** One object without a map makes the whole normalisation fail with NotStruct. */
  lemma NormalizeAllFailure(objects: seq<Object>, now: Time, i: int)
    requires 0 <= i < |objects| && ToMap(objects[i], now).Failure?
    ensures NormalizeAll(objects, now) == Failure(NotStruct)
  {
  }

  /** One `?` per column. */
  function Placeholders(n: nat): (r: seq<string>)
    ensures |r| == n && forall i :: 0 <= i < n ==> r[i] == "?"
  {
    seq(n, _ => "?")
  }

  /** The placeholder group of one row: the placeholders comma-joined inside
      parentheses. */
  function Group(n: nat): string {
    Sprintf("(%s)", [Join(Placeholders(n), ", ")])
  }

  /** One identical group per object. */
  function Groups(count: nat, n: nat): (r: seq<string>)
    ensures |r| == count && forall k :: 0 <= k < count ==> r[k] == Group(n)
  {
    seq(count, _ => Group(n))
  }

  /** Identifier quoting applied to each column name, keeping the order. */
  function QuoteAll(columns: seq<string>): (r: seq<string>)
    ensures |r| == |columns| && forall i :: 0 <= i < |columns| ==> r[i] == Quote(columns[i])
  {
    seq(|columns|, i requires 0 <= i < |columns| => Quote(columns[i]))
  }

  /** What scopeFromObjects hands the statement strategy: the quoted table,
      the raw and the quoted column names, the groups and the values. */
  datatype Parts = Parts(quotedTable: string, columns: seq<string>, quoted: seq<string>,
                         groups: seq<string>, vars: seq<Value>)

  /** The parts built from a non-empty list of objects, or the error of the
      first object that is not a struct. What the parts hold is stated by the
      lemmas below. */
  ghost function PartsOf(objects: seq<Object>, now: Time): Result<Parts, Error>
    requires objects != []
  {
    match ToMap(objects[0], now)
    case Failure(e) => Failure(e)
    case Success(first) =>
      var columns := SortedKeys(first.Keys);
      match NormalizeAll(objects, now)
      case Failure(e) => Failure(e)
      case Success(rows) =>
        Success(Parts(Quote(TableOf(objects[0])), columns, QuoteAll(columns),
                      Groups(|objects|, |columns|), FlatArgs(rows, columns)))
  }

  /** scopeFromObjects: nothing (no scope, no error) for no objects; the error
      when an object is not a struct; otherwise the statement the strategy
      leaves in a fresh scope holding the assembled values. */
  ghost function Assemble(objects: seq<Object>, now: Time, execFunc: ExecFunc,
                          insertOption: Option<string>): Result<Option<Statement>, Error>
  {
    if objects == [] then Success(None)
    else
      match PartsOf(objects, now)
      case Failure(e) => Failure(e)
      case Success(p) =>
        Success(Some(Apply(execFunc, p.quotedTable, insertOption, Statement("", p.vars), p.quoted, p.groups)))
  }

  // ---------------------------------------------------------------------------
  // Properties of the assembler

  /** Assembling fails exactly when some object is not a struct or a pointer
      to one, and then with the NotStruct error; no objects assemble to
      nothing, and any other success carries a statement. */
  lemma AssembleOutcome(objects: seq<Object>, now: Time, execFunc: ExecFunc, insertOption: Option<string>)
    ensures var r := Assemble(objects, now, execFunc, insertOption);
      (objects == [] ==> r == Success(None))
      && (objects != [] ==> (r.Success? <==> PartsOf(objects, now).Success?) && (r.Success? ==> r.value.Some?))
      && (r.Failure? <==> exists i :: 0 <= i < |objects| && ToMap(objects[i], now).Failure?)
      && (r.Failure? ==> r.error == NotStruct)
  {
    if objects != [] {
      var all := NormalizeAll(objects, now);
      if ToMap(objects[0], now).Failure? || all.Failure? {
        AssembleFailure(objects, now, execFunc, insertOption);
        if all.Failure? {
          var i :| 0 <= i < |objects| && ToMap(objects[i], now).Failure?;
        }
      } else {
        AssembleSuccess(objects, now, execFunc, insertOption,
                        SortedKeys(ToMap(objects[0], now).value.Keys), all.value);
      }
    }
  }

  /** Assembling stops with NotStruct when the first object or any later
      one has no map. */
  lemma AssembleFailure(objects: seq<Object>, now: Time, execFunc: ExecFunc, insertOption: Option<string>)
    requires objects != []
    requires ToMap(objects[0], now).Failure? || NormalizeAll(objects, now).Failure?
    ensures Assemble(objects, now, execFunc, insertOption) == Failure(NotStruct)
  {
  }

  /** Assembling succeeds with the strategy's statement over the parts. */
  lemma AssembleSuccess(objects: seq<Object>, now: Time, execFunc: ExecFunc, insertOption: Option<string>,
                        columns: seq<string>, rows: seq<map<string, Value>>)
    requires objects != [] && ToMap(objects[0], now).Success?
    requires columns == SortedKeys(ToMap(objects[0], now).value.Keys)
    requires NormalizeAll(objects, now) == Success(rows)
    ensures Assemble(objects, now, execFunc, insertOption)
         == Success(Some(Apply(execFunc, Quote(TableOf(objects[0])), insertOption,
                               Statement("", FlatArgs(rows, columns)), QuoteAll(columns),
                               Groups(|objects|, |columns|))))
  {
  }

  /** The table is the first object's; the columns are the first object's
      keys in ascending order, each once. */
  lemma ColumnsAreSortedFirstKeys(objects: seq<Object>, now: Time)
    requires objects != [] && PartsOf(objects, now).Success?
    ensures var p := PartsOf(objects, now).value;
      p.quotedTable == Quote(TableOf(objects[0]))
      && ToMap(objects[0], now).Success?
      && StrictlySorted(p.columns)
      && (forall c :: c in p.columns <==> c in ToMap(objects[0], now).value)
  {
  }

  /** The quoted column names are the sorted raw names quoted one by one, so
      they keep the raw order. */
  lemma QuotedFollowRawOrder(objects: seq<Object>, now: Time)
    requires objects != [] && PartsOf(objects, now).Success?
    ensures var p := PartsOf(objects, now).value;
      |p.quoted| == |p.columns| && forall i :: 0 <= i < |p.columns| ==> p.quoted[i] == Quote(p.columns[i])
  {
  }

  /** Every object adds one group of as many placeholders as there are columns. */
  lemma OneGroupPerObject(objects: seq<Object>, now: Time)
    requires objects != [] && PartsOf(objects, now).Success?
    ensures var p := PartsOf(objects, now).value;
      |p.groups| == |objects|
      && forall k :: 0 <= k < |objects| ==>
           p.groups[k] == "(" + Join(Placeholders(|p.columns|), ", ") + ")"
           && multiset(p.groups[k])['?'] == |p.columns|
  {
    var p := PartsOf(objects, now).value;
    GroupShape(|p.columns|);
    GroupPlaceholderCount(|p.columns|);
  }

  /** The values are every object's map read column by column, row after row. */
  lemma ValuesAreRowMajor(objects: seq<Object>, now: Time)
    requires objects != [] && PartsOf(objects, now).Success?
    ensures NormalizeAll(objects, now).Success?
    ensures RowMajor(PartsOf(objects, now).value.vars, NormalizeAll(objects, now).value,
                     PartsOf(objects, now).value.columns)
  {
    var p := PartsOf(objects, now).value;
    FlatArgsAreRowMajor(NormalizeAll(objects, now).value, p.columns);
  }

  /** The value at `Offset(k, n) + j` is object `k`'s value for column `j`. */
  lemma ArgOfRow(objects: seq<Object>, now: Time, k: int, j: int)
    requires objects != [] && PartsOf(objects, now).Success?
    requires 0 <= k < |objects| && 0 <= j < |PartsOf(objects, now).value.columns|
    ensures var p := PartsOf(objects, now).value;
      ToMap(objects[k], now).Success?
      && Offset(k, |p.columns|) + j < |p.vars|
      && p.vars[Offset(k, |p.columns|) + j] == Lookup(ToMap(objects[k], now).value, p.columns[j])
  {
    var p := PartsOf(objects, now).value;
    var rows := NormalizeAll(objects, now).value;
    ValuesAreRowMajor(objects, now);
    var row := ToMap(objects[k], now);
    assert row == Success(rows[k]);
    assert BindsAt(p.vars, rows, p.columns, k, j);
    assert p.vars[Offset(k, |p.columns|) + j] == Lookup(rows[k], p.columns[j]);
  }

  /** There are rows × columns arguments. */
  lemma ArgCount(objects: seq<Object>, now: Time)
    requires objects != [] && PartsOf(objects, now).Success?
    ensures |PartsOf(objects, now).value.vars| == |objects| * |PartsOf(objects, now).value.columns|
  {
    ValuesAreRowMajor(objects, now);
    OffsetIsProduct(|objects|, |PartsOf(objects, now).value.columns|);
  }

  /** Argument `i` comes from object `i / n` and column `i % n`. */
  lemma ArgAt(objects: seq<Object>, now: Time, i: int)
    requires objects != [] && PartsOf(objects, now).Success?
    requires 0 <= i < |PartsOf(objects, now).value.vars|
    ensures var p := PartsOf(objects, now).value;
      var n := |p.columns|;
      n > 0 && 0 <= i / n < |objects| && 0 <= i % n < n
      && p.vars[i] == Lookup(ToMap(objects[i / n], now).value, p.columns[i % n])
  {
    var p := PartsOf(objects, now).value;
    var rows := NormalizeAll(objects, now).value;
    ValuesAreRowMajor(objects, now);
    RowMajorAt(p.vars, rows, p.columns, i);
    var k := i / |p.columns|;
    assert ToMap(objects[k], now) == Success(rows[k]);
  }

  lemma RowMajorAt(vars: seq<Value>, rows: seq<map<string, Value>>, columns: seq<string>, i: int)
    requires RowMajor(vars, rows, columns) && 0 <= i < |vars|
    ensures |columns| > 0 && 0 <= i / |columns| < |rows| && 0 <= i % |columns| < |columns|
    ensures vars[i] == Lookup(rows[i / |columns|], columns[i % |columns|])
  {
    var n := |columns|;
    if n == 0 {
      OffsetIsProduct(|rows|, n);
      assert false;
    }
    DivModOffset(i, n, |rows|);
    var k, j := i / n, i % n;
    assert BindsAt(vars, rows, columns, k, j);
  }

  /** Index `i` of `m` rows of `n` values lies in row `i / n` at column `i % n`. */
  lemma DivModOffset(i: int, n: nat, m: nat)
    requires n > 0 && 0 <= i < Offset(m, n)
    ensures 0 <= i / n < m && 0 <= i % n < n && i == Offset(i / n, n) + i % n
  {
    var k, j := i / n, i % n;
    assert i == k * n + j && 0 <= j < n;
    OffsetIsProduct(k, n);
    assert i == Offset(k, n) + j;
    if k >= m {
      OffsetMonotone(m, k, n);
    }
  }

  lemma {:induction false} OffsetMonotone(a: nat, b: nat, n: nat)
    requires a <= b
    ensures Offset(a, n) <= Offset(b, n)
    decreases b - a
  {
    if a < b {
      OffsetMonotone(a, b - 1, n);
    }
  }

  /** A later object without one of the first object's columns binds nil in
      that slot, without error. */
  lemma MissingColumnIsNil(objects: seq<Object>, now: Time, k: int, j: int)
    requires objects != [] && PartsOf(objects, now).Success?
    requires 0 <= k < |objects| && 0 <= j < |PartsOf(objects, now).value.columns|
    requires PartsOf(objects, now).value.columns[j] !in ToMap(objects[k], now).value
    ensures var p := PartsOf(objects, now).value;
      Offset(k, |p.columns|) + j < |p.vars| && p.vars[Offset(k, |p.columns|) + j] == Nil
  {
    ArgOfRow(objects, now, k, j);
  }

  /** A key that only later objects have is not a column, so no value of it is
      bound. */
  lemma LaterOnlyKeyDropped(objects: seq<Object>, now: Time, key: string)
    requires objects != [] && PartsOf(objects, now).Success?
    requires key !in ToMap(objects[0], now).value
    ensures key !in PartsOf(objects, now).value.columns
  {
    ColumnsAreSortedFirstKeys(objects, now);
  }

  /** All blank timestamps of one batch get the same time: the time of the
      call, whatever row they are in. */
  lemma TimestampsShareNow(objects: seq<Object>, now: Time, k: int, j: int, fi: int)
    requires objects != [] && PartsOf(objects, now).Success?
    requires 0 <= k < |objects| && 0 <= j < |PartsOf(objects, now).value.columns|
    requires var o := Deref(objects[k]);
      o.Struct? && 0 <= fi < |o.fields|
      && LastKept(o.fields, fi, PartsOf(objects, now).value.columns[j])
      && IsTimestampField(o.fields[fi]) && o.fields[fi].isBlank
    ensures var p := PartsOf(objects, now).value;
      Offset(k, |p.columns|) + j < |p.vars| && p.vars[Offset(k, |p.columns|) + j] == Timestamp(now)
  {
    var o := Deref(objects[k]);
    BlankTimestampGetsNow(o.fields, now, fi);
    ArgOfRow(objects, now, k, j);
  }

  /** The group of a row: its placeholders, comma-joined, in parentheses. */
  lemma GroupShape(n: nat)
    ensures Group(n) == "(" + Join(Placeholders(n), ", ") + ")"
  {
    assert "(%s)" == "(" + "%s" + ")";
    SprintfOne("(", ")", Join(Placeholders(n), ", "));
  }

  /** The group of a row holds exactly as many `?` as there are columns, so the
      values of one row fill its group. */
  lemma GroupPlaceholderCount(n: nat)
    ensures multiset(Group(n))['?'] == n
  {
    GroupShape(n);
    JoinPlaceholderCount(n);
  }

  lemma {:induction false} JoinPlaceholderCount(n: nat)
    ensures multiset(Join(Placeholders(n), ", "))['?'] == n
  {
    if n >= 2 {
      JoinPlaceholderCount(n - 1);
      assert Placeholders(n)[1..] == Placeholders(n - 1);
      assert Join(Placeholders(n), ", ") == "?" + ", " + Join(Placeholders(n - 1), ", ");
    } else if n == 1 {
      assert Join(Placeholders(n), ", ") == "?";
    }
  }

  /** The group of a two-column row. */
  lemma GroupOfTwo()
    ensures Group(2) == "(?, ?)"
  {
    GroupShape(2);
    var ps := Placeholders(2);
    assert ps == ["?", "?"];
    assert ps[1..] == ["?"];
    assert Join(ps, ", ") == "?, ?" by {
      assert Join(ps, ", ") == "?" + ", " + "?";
      assert "?" + ", " + "?" == "?, ?";
    }
    assert "(" + "?, ?" + ")" == "(?, ?)";
  }

  /** Quoting after sorting matters: "time" sorts before "time_from", yet the
      quoted forms sort the other way round, since '_' comes before the
      backtick. Sorting the raw names keeps the two lists in the same order. */
  lemma QuotingAfterSortingMatters()
    ensures Less("time", "time_from")
    ensures Less(Quote("time_from"), Quote("time"))
  {
    assert Quote("time_from") == "`time_from`" && Quote("time") == "`time`";
    assert "`time_from`"[1..] == "time_from`" && "`time`"[1..] == "time`";
    assert "time_from`"[1..] == "ime_from`" && "time`"[1..] == "ime`";
    assert "ime_from`"[1..] == "me_from`" && "ime`"[1..] == "me`";
    assert "me_from`"[1..] == "e_from`" && "me`"[1..] == "e`";
    assert "e_from`"[1..] == "_from`" && "e`"[1..] == "`";
    assert "time"[1..] == "ime" && "time_from"[1..] == "ime_from";
    assert "ime"[1..] == "me" && "ime_from"[1..] == "me_from";
    assert "me"[1..] == "e" && "me_from"[1..] == "e_from";
    assert "e"[1..] == "" && "e_from"[1..] == "_from";
  }

  /** With a bundled strategy the statement's values are the assembled ones,
      and its text is the strategy's SQL over the quoted table, the quoted
      columns and the groups. */
  lemma BuiltInStatement(objects: seq<Object>, now: Time, execFunc: ExecFunc, insertOption: Option<string>)
    requires objects != [] && PartsOf(objects, now).Success? && !execFunc.Custom?
    ensures var p := PartsOf(objects, now).value;
      var st := Assemble(objects, now, execFunc, insertOption).value.value;
      st.vars == p.vars
      && (execFunc.Insert? ==>
            st.sql == InsertStatement("INSERT", p.quotedTable, p.quoted, p.groups) + OptionSuffix(insertOption))
      && (execFunc.InsertIgnore? ==>
            st.sql == InsertStatement("INSERT IGNORE", p.quotedTable, p.quoted, p.groups) + OptionSuffix(insertOption))
      && (execFunc.InsertOnDuplicateKeyUpdate? ==>
            st.sql == OnDuplicateKeyUpdateSQL(p.quotedTable, p.quoted, p.groups))
  {
  }
}
