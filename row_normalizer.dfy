/** The row normaliser: what ObjectToMap makes of one object. Each field is
    either left out by one of six exclusion rules or kept under its column
    name; a blank CreatedAt or UpdatedAt is kept with the batch time. */
module RowNormalizer {
  import opened Types
  import opened GoStd

  /** The exclusion rules, in the order the loop body tests them. */
  datatype Exclusion =
    | ForeignKey          // a FOREIGNKEY tag
    | Relationship        // an association, not a column
    | Ignored             // tagged `gorm:"-"`
    | BlankWithDefault    // blank, with a DEFAULT tag the database fills in
    | BlankPrimaryKeyId   // the blank primary key named id
    | AutoIncrement       // an AUTO_INCREMENT tag whose value is not "false"

  /** Whether `rule` leaves the field out. */
  predicate Excludes(rule: Exclusion, f: Field) {
    match rule
    case ForeignKey => "FOREIGNKEY" in f.tagSettings
    case Relationship => f.hasRelationship
    case Ignored => f.isIgnored
    case BlankWithDefault => f.hasDefaultValue && f.isBlank && "DEFAULT" in f.tagSettings
    case BlankPrimaryKeyId => f.dbName == "id" && f.isPrimaryKey && f.isBlank
    case AutoIncrement =>
      "AUTO_INCREMENT" in f.tagSettings && !EqualFold(f.tagSettings["AUTO_INCREMENT"], "false")
  }

  /** The position of a rule in the order of the tests. */
  function Rank(rule: Exclusion): nat {
    match rule
    case ForeignKey => 0
    case Relationship => 1
    case Ignored => 2
    case BlankWithDefault => 3
    case BlankPrimaryKeyId => 4
    case AutoIncrement => 5
  }

  /** A field some rule leaves out. */
  predicate Excluded(f: Field) {
    exists rule: Exclusion :: Excludes(rule, f)
  }

  /** The two timestamp fields the ORM maintains, recognised by the Go field name. */
  predicate IsTimestampField(f: Field) {
    f.structName == "CreatedAt" || f.structName == "UpdatedAt"
  }

  /** What one iteration of the field loop does: skip the field for a rule, or
      keep it with a value. */
  datatype Disposition = Skip(rule: Exclusion) | Keep(value: Value)

  function Dispose(f: Field, now: Time): (d: Disposition)
    // a field is skipped exactly when some rule excludes it ...
    ensures d.Skip? <==> Excluded(f)
    // ... and then for the first rule, in the order of the tests, that does
    ensures d.Skip? ==> Excludes(d.rule, f) && forall r: Exclusion :: Rank(r) < Rank(d.rule) ==> !Excludes(r, f)
    // a kept timestamp that is blank takes the batch time; everything else keeps its own value
    ensures d.Keep? && IsTimestampField(f) && f.isBlank ==> d.value == Timestamp(now)
    ensures d.Keep? && !(IsTimestampField(f) && f.isBlank) ==> d.value == f.value
  {
    if "FOREIGNKEY" in f.tagSettings then assert Excludes(ForeignKey, f); Skip(ForeignKey)
    else if f.hasRelationship then assert Excludes(Relationship, f); Skip(Relationship)
    else if f.isIgnored then assert Excludes(Ignored, f); Skip(Ignored)
    else if f.hasDefaultValue && f.isBlank && "DEFAULT" in f.tagSettings then
      assert Excludes(BlankWithDefault, f); Skip(BlankWithDefault)
    else if f.dbName == "id" && f.isPrimaryKey && f.isBlank then
      assert Excludes(BlankPrimaryKeyId, f); Skip(BlankPrimaryKeyId)
    else if "AUTO_INCREMENT" in f.tagSettings && !EqualFold(f.tagSettings["AUTO_INCREMENT"], "false") then
      assert Excludes(AutoIncrement, f); Skip(AutoIncrement)
    else if IsTimestampField(f) && f.isBlank then Keep(Timestamp(now))
    else Keep(f.value)
  }

  /** The value a kept field is stored with. */
  function KeptValue(f: Field, now: Time): Value {
    if IsTimestampField(f) && f.isBlank then Timestamp(now) else f.value
  }

  /** Field `i` is the last field of `fields` kept under the column `name`. */
  predicate LastKept(fields: seq<Field>, i: int, name: string) {
    0 <= i < |fields| && fields[i].dbName == name && !Excluded(fields[i])
    && forall j :: i < j < |fields| ==> fields[j].dbName != name || Excluded(fields[j])
  }

  /** The column names of the fields no rule excludes. */
  function KeptNames(fields: seq<Field>): set<string> {
    set i | 0 <= i < |fields| && !Excluded(fields[i]) :: fields[i].dbName
  }

  lemma KeptNamesAppend(fields: seq<Field>)
    requires fields != []
    ensures var init, f := fields[..|fields| - 1], fields[|fields| - 1];
      KeptNames(fields) == KeptNames(init) + (if Excluded(f) then {} else {f.dbName})
  {
    var init, f := fields[..|fields| - 1], fields[|fields| - 1];
    forall name | name in KeptNames(fields)
      ensures name in KeptNames(init) + (if Excluded(f) then {} else {f.dbName})
    {
      var i :| 0 <= i < |fields| && !Excluded(fields[i]) && fields[i].dbName == name;
      if i < |fields| - 1 {
        assert init[i] == fields[i];
      }
    }
    forall name | name in KeptNames(init)
      ensures name in KeptNames(fields)
    {
      var i :| 0 <= i < |init| && !Excluded(init[i]) && init[i].dbName == name;
      assert fields[i] == init[i];
    }
  }

  /** The attributes map after the loop has seen `fields`: one entry per column
      name of a kept field, a later field under the same name overwriting an
      earlier one. */
  function AttributesOf(fields: seq<Field>, now: Time): (m: map<string, Value>)
    ensures m.Keys == KeptNames(fields)
    decreases |fields|
  {
    if fields == [] then map[]
    else
      var prior := AttributesOf(fields[..|fields| - 1], now);
      var f := fields[|fields| - 1];
      KeptNamesAppend(fields);
      match Dispose(f, now)
      case Skip(_) => prior
      case Keep(v) => prior[f.dbName := v]
  }

  /** One more field: the map is unchanged when the field is skipped, and
      gains or overwrites the field's entry when it is kept. */
  lemma AttributesStep(fields: seq<Field>, i: int, now: Time)
    requires 0 <= i < |fields|
    ensures AttributesOf(fields[..i + 1], now) == match Dispose(fields[i], now)
      case Skip(_) => AttributesOf(fields[..i], now)
      case Keep(v) => AttributesOf(fields[..i], now)[fields[i].dbName := v]
  {
    assert fields[..i + 1][..i] == fields[..i];
  }

  /** reflect's one-level dereference: a pointer is replaced by what it points
      to, anything else stays as it is. */
  function Deref(obj: Object): Object {
    if obj.Pointer? then obj.target else obj
  }

  /** ObjectToMap with the time it settles on: the attributes of a struct or of
      a pointer to one, and the "value must be kind of Struct" error for
      anything else, a pointer to a pointer included. */
  function ToMap(obj: Object, now: Time): (r: Result<map<string, Value>, Error>)
    ensures r.Success? <==> obj.Struct? || (obj.Pointer? && obj.target.Struct?)
    ensures r.Failure? ==> r.error == NotStruct && r.error.Message() == "value must be kind of Struct"
  {
    var o := Deref(obj);
    if !o.Struct? then Failure(NotStruct) else Success(AttributesOf(o.fields, now))
  }

  /** The table name the ORM derives for an object's type, through one pointer. */
  function TableOf(obj: Object): string {
    var o := Deref(obj);
    if o.Struct? then o.table else ""
  }

  // ---------------------------------------------------------------------------
  // Properties of the normaliser

  /** The last kept field under a name decides what the map holds for it. */
  lemma {:induction false} AttributeIsLastKept(fields: seq<Field>, now: Time, i: int)
    requires 0 <= i < |fields| && LastKept(fields, i, fields[i].dbName)
    ensures fields[i].dbName in AttributesOf(fields, now)
    ensures AttributesOf(fields, now)[fields[i].dbName] == KeptValue(fields[i], now)
    decreases |fields|
  {
    var name := fields[i].dbName;
    var n := |fields|;
    var init := fields[..n - 1];
    assert fields == init + [fields[n - 1]];
    if i == n - 1 {
      assert Dispose(fields[i], now) == Keep(KeptValue(fields[i], now));
    } else {
      assert LastKept(init, i, name) by {
        forall j | i < j < |init| ensures init[j].dbName != name || Excluded(init[j]) {
          assert init[j] == fields[j];
        }
      }
      AttributeIsLastKept(init, now, i);
      assert fields[n - 1].dbName != name || Excluded(fields[n - 1]);
    }
  }

  /** A field any rule excludes never reaches the map under its name unless
      another, kept field carries the same name. */
  lemma ExcludedFieldAbsent(fields: seq<Field>, now: Time, i: int)
    requires 0 <= i < |fields| && Excluded(fields[i])
    requires forall j :: 0 <= j < |fields| && j != i && fields[j].dbName == fields[i].dbName ==> Excluded(fields[j])
    ensures fields[i].dbName !in AttributesOf(fields, now)
  {
  }

  /** A blank CreatedAt or UpdatedAt that no rule excludes is stored with the
      batch time; a non-blank one keeps its own value. */
  lemma BlankTimestampGetsNow(fields: seq<Field>, now: Time, i: int)
    requires 0 <= i < |fields| && LastKept(fields, i, fields[i].dbName) && IsTimestampField(fields[i])
    ensures fields[i].isBlank ==> AttributesOf(fields, now)[fields[i].dbName] == Timestamp(now)
    ensures !fields[i].isBlank ==> AttributesOf(fields, now)[fields[i].dbName] == fields[i].value
  {
    AttributeIsLastKept(fields, now, i);
  }

  /** The DEFAULT rule is tested before the timestamp substitution: a blank
      timestamp field with a DEFAULT tag and a default value is left to the
      database, not set to the batch time. */
  lemma BlankTimestampWithDefaultOmitted(f: Field, now: Time)
    requires IsTimestampField(f) && f.isBlank && f.hasDefaultValue && "DEFAULT" in f.tagSettings
    ensures Dispose(f, now).Skip?
    ensures f.dbName !in AttributesOf([f], now)
  {
    assert Excludes(BlankWithDefault, f);
  }

  /** The AUTO_INCREMENT tag excludes the field unless its value is "false"
      in any letter case; an empty value or "true" excludes it. */
  lemma AutoIncrementFalseKeepsField(f: Field)
    requires "AUTO_INCREMENT" in f.tagSettings
    ensures var v := f.tagSettings["AUTO_INCREMENT"];
      !Excludes(AutoIncrement, f) <==> |v| == 5 && forall k :: 0 <= k < 5 ==> AsciiLower(v[k]) == "false"[k]
    ensures f.tagSettings["AUTO_INCREMENT"] in {"", "true"} ==> Excludes(AutoIncrement, f)
  {
    var v := f.tagSettings["AUTO_INCREMENT"];
    if |v| == 5 && (forall k :: 0 <= k < 5 ==> AsciiLower(v[k]) == "false"[k]) {
      assert EqualFold(v, "false") by {
        forall k | 0 <= k < 5 ensures AsciiLower(v[k]) == AsciiLower("false"[k]) {
          assert AsciiLower("false"[k]) == "false"[k];
        }
      }
    } else if v == "true" {
      assert AsciiLower(v[0]) != AsciiLower("false"[0]);
    }
  }
}
