/** The shared data types of internal/connector/connector.go. */
module Connector {

  /** A column value. The writer never inspects one, so only NULL is singled out. */
  datatype Value = Null | Int(n: int) | Text(s: string)

  /** Column name to value. A column that is not in the map is NULL (or its default). */
  type Row = map<string, Value>

  /** Go's `Op int`: the three named codes and everything else. */
  datatype Op = Insert | Update | Delete | Other(code: int)

  /** A row-level change. `Before` is left out: no modelled code reads it. */
  datatype Change = Change(schema: string, table: string, op: Op, pk: Row, after: Row)

  /** A table reference; the empty schema is the unqualified form. */
  datatype TableRef = TableRef(schema: string, name: string)

  function Ref(ch: Change): TableRef {
    TableRef(ch.schema, ch.table)
  }

  predicate IsUpsert(ch: Change) {
    ch.op == Insert || ch.op == Update
  }

  function Restrict(row: Row, cols: set<string>): Row {
    map c | c in row && c in cols :: row[c]
  }
}
