/** The values the bulk-insert core works on, with the ORM's reflection replaced
    by plain data. */
module Types {

  datatype Option<+T> = None | Some(value: T)

  datatype Result<+T, +E> = Success(value: T) | Failure(error: E)

  /** A time.Time, compared only for equality. Go's zero time is a value of its
      own, since the core tests for it. */
  datatype Time = ZeroTime | Instant(token: nat) {
    predicate IsZero() { ZeroTime? }
  }

  /** A value bound to a placeholder. `Nil` is Go's nil interface, which reading
      a missing key of a map yields. */
  datatype Value = Nil | Text(text: string) | Number(number: int) | Timestamp(time: Time)

  /** What the ORM's reflection reports about one struct field. */
  datatype Field = Field(
    dbName: string,                      // column name the ORM derives for the field
    structName: string,                  // the Go field name, e.g. "CreatedAt"
    tagSettings: map<string, string>,    // `gorm:"..."` tag settings, keys upper-cased
    hasRelationship: bool,               // the field holds an association
    isIgnored: bool,                     // tagged `gorm:"-"`
    hasDefaultValue: bool,               // the ORM believes the column has a default
    isPrimaryKey: bool,
    isBlank: bool,                       // the field holds its type's zero value
    value: Value)

  /** An element of the `[]interface{}` handed to the bulk functions: a struct
      (with the table name the ORM derives from its type), a non-nil pointer,
      or anything else (`Scalar(Nil)` is the nil interface). */
  datatype Object =
    | Struct(table: string, fields: seq<Field>)
    | Pointer(target: Object)
    | Scalar(scalar: Value)

  datatype Error = NotStruct | ExecFailed(message: string) {
    function Message(): string {
      match this
      case NotStruct => "value must be kind of Struct"
      case ExecFailed(m) => m
    }
  }

  /** SQL text with the values for its placeholders. */
  datatype Statement = Statement(sql: string, vars: seq<Value>)
}
