/**
 Rows of a SQL join result as the database driver hands them to the
 materializer: a mapping from column name to a scalar value.
 */
module Rows {

  /** A scalar column value. A timestamp is an opaque instant. */
  datatype Value = Null | Bool(b: bool) | Int(i: int) | Text(s: string) | Timestamp(instant: int)

  /** Python truthiness of a column value: None, False, 0 and "" are false;
      a datetime object is always true. */
  predicate Truthy(v: Value)
  {
    match v
    case Null => false
    case Bool(b) => b
    case Int(i) => i != 0
    case Text(s) => s != ""
    case Timestamp(_) => true
  }

  /** One tuple of a join result, indexed by column name. */
  type Row = map<string, Value>

  /** Columns of the joined client table carry this prefix. */
  const ClientPrefix: string := "client_"

  /** The client entry of a row: every column whose name starts with the
      client prefix, with its value, and no other column. */
  function ClientColumns(row: Row): (entry: Row)
    ensures forall k :: k in entry <==> k in row && ClientPrefix <= k
    ensures forall k :: k in entry ==> entry[k] == row[k]
  {
    map k | k in row && ClientPrefix <= k :: row[k]
  }

  /** Outcome of a materialization: a value, or the KeyError raised by the
      first lookup of a column that the row does not have. */
  datatype Result<T> = Ok(value: T) | KeyError(column: string)

  datatype Option<T> = None | Some(value: T)
}
