/** The column lists of the generated queries, and what a projected row lets the loaders see. */
module QuerySpec {
  import opened Prelude
  import opened AccountSchema

  // Foreign-key columns of the neighbouring tables; their id column is ID too.
  const ACCOUNT_ID: Column := 29
  const GROUP_ID: Column := 30

  /** `AppendFieldOnce` and `AddColumnOnce`. */
  function AddOnce(columns: seq<Column>, c: Column): seq<Column> {
    if c in columns then columns else columns + [c]
  }

  function Without(fields: seq<Column>, c: Column): seq<Column> {
    if fields == [] then []
    else Without(fields[..|fields|-1], c) + if fields[|fields|-1] == c then [] else [fields[|fields|-1]]
  }

  /** The columns of an entity query: all of them, or the id, the other chosen fields, and one foreign key if needed. */
  function SelectedWithId(fields: seq<Column>, all: seq<Column>, foreignKey: Option<Column>): seq<Column> {
    if fields == [] then all
    else
      var chosen := [ID] + Without(fields, ID);
      if foreignKey.Some? then AddOnce(chosen, foreignKey.value) else chosen
  }

  lemma {:induction false} WithoutKeepsTheRest(fields: seq<Column>, c: Column)
    ensures forall d :: d in Without(fields, c) <==> d in fields && d != c
  {
    if fields != [] {
      WithoutKeepsTheRest(fields[..|fields|-1], c);
      assert fields == fields[..|fields|-1] + [fields[|fields|-1]];
    }
  }

  /** The rest keeps its order and its repetitions. */
  lemma {:induction false} WithoutItemByItem(fields: seq<Column>, more: seq<Column>, c: Column)
    ensures Without(fields + more, c) == Without(fields, c) + Without(more, c)
  {
    if more == [] {
      assert fields + more == fields;
    } else {
      assert (fields + more)[..|fields + more|-1] == fields + more[..|more|-1];
      WithoutItemByItem(fields, more[..|more|-1], c);
    }
  }

  lemma WithoutOne(d: Column, c: Column)
    ensures Without([d], c) == if d == c then [] else [d]
  {
    assert [d][..0] == [];
  }

  /** A projection keeps the id in front, exactly once, and holds the chosen fields and the foreign key. */
  lemma ProjectionHasIdOnce(fields: seq<Column>, all: seq<Column>, foreignKey: Option<Column>)
    requires fields != [] && foreignKey != Some(ID)
    ensures var columns := SelectedWithId(fields, all, foreignKey);
            && columns[0] == ID && (forall i :: 0 < i < |columns| ==> columns[i] != ID)
            && (forall c :: c in columns <==> c == ID || c in fields || foreignKey == Some(c))
  {
    WithoutKeepsTheRest(fields, ID);
    var rest := Without(fields, ID);
    forall i | 0 <= i < |rest| ensures rest[i] != ID {
      assert rest[i] in rest;
    }
  }

  /** `AccountQuery.querySpec`: the selected columns. */
  method AccountQuerySpec(fields: seq<Column>, withProxy: bool) returns (columns: seq<Column>)
    ensures columns == SelectedWithId(fields, Columns(), if withProxy then Some(PROXY_ID) else None)
  {
    columns := Columns();
    if |fields| > 0 {
      columns := [ID];
      for i := 0 to |fields|
        invariant columns == [ID] + Without(fields[..i], ID)
      {
        assert fields[..i+1][..i] == fields[..i];
        if fields[i] != ID {
          columns := columns + [fields[i]];
        }
      }
      assert fields[..|fields|] == fields;
      if withProxy {
        columns := AddOnce(columns, PROXY_ID);
      }
    }
  }

  /** The columns of a join-entity query: the chosen fields, and the foreign keys of the requested edges. */
  function JoinColumns(fields: seq<Column>, all: seq<Column>, withAccount: bool, withGroup: bool): seq<Column> {
    if fields == [] then all
    else
      var columns := if withAccount then AddOnce(fields, ACCOUNT_ID) else fields;
      if withGroup then AddOnce(columns, GROUP_ID) else columns
  }

  /** `AccountGroupQuery.querySpec`, for an entity with no id column. */
  method AccountGroupQuerySpec(fields: seq<Column>, all: seq<Column>, withAccount: bool, withGroup: bool) returns (columns: seq<Column>)
    ensures columns == JoinColumns(fields, all, withAccount, withGroup)
    ensures fields == [] ==> columns == all
    ensures fields != [] ==> fields <= columns
    ensures fields != [] ==>
              forall c :: c in columns <==> c in fields || (withAccount && c == ACCOUNT_ID) || (withGroup && c == GROUP_ID)
    ensures fields != [] ==>
              |columns| - |fields| ==
              (if withAccount && ACCOUNT_ID !in fields then 1 else 0) + (if withGroup && GROUP_ID !in fields then 1 else 0)
  {
    columns := all;
    if |fields| > 0 {
      columns := [];
      for i := 0 to |fields|
        invariant columns == fields[..i]
      {
        columns := columns + [fields[i]];
      }
      assert columns == fields;
      if withAccount {
        columns := AddOnce(columns, ACCOUNT_ID);
      }
      if withGroup {
        columns := AddOnce(columns, GROUP_ID);
      }
    }
  }

  // ---------- Neighbour queries ----------

  /** The query of a neighbouring table: chosen fields, all its columns, and whether it has an id column. */
  datatype ChildQuery = ChildQuery(fields: seq<Column>, table: seq<Column>, hasId: bool)

  function ChildColumns(q: ChildQuery): seq<Column> {
    if q.hasId then SelectedWithId(q.fields, q.table, None)
    else if q.fields == [] then q.table else q.fields
  }

  /** A one-to-many loader appends the foreign key to a projection before it queries. */
  function Requiring(q: ChildQuery, foreignKey: Column): ChildQuery {
    if |q.fields| > 0 then q.(fields := AddOnce(q.fields, foreignKey)) else q
  }

  lemma RequiredColumnIsSelected(q: ChildQuery, c: Column)
    requires c in q.table
    ensures c in ChildColumns(Requiring(q, c))
  {
    var q' := Requiring(q, c);
    if q'.fields != [] {
      WithoutKeepsTheRest(q'.fields, ID);
    }
  }

  lemma IdIsSelected(q: ChildQuery)
    requires q.hasId && ID in q.table
    ensures ID in ChildColumns(q)
  {
  }

  /** A neighbour as read: the cells of the selected columns. */
  datatype Record = Record(cells: map<Column, Cell>)

  function ReadRecord(columns: seq<Column>, row: Row): Record {
    Record(map c | c in columns :: row(c))
  }

  function Reader(columns: seq<Column>): Row -> Record {
    (row: Row) => ReadRecord(columns, row)
  }

  /** A nillable integer field: nil when the column is NULL or was not selected. */
  function OptionalInt(r: Record, c: Column): Option<int> {
    if c in r.cells && r.cells[c].IntCell? then Some(r.cells[c].n) else None
  }

  /** A plain integer field: zero when the column is NULL or was not selected. */
  function RequiredInt(r: Record, c: Column): int {
    match OptionalInt(r, c) case Some(n) => n case None => 0
  }

  /** The id of a neighbour. */
  function KeyOf(r: Record): int {
    RequiredInt(r, ID)
  }

  /** An answer of the database, read through a projection. */
  function Records(columns: seq<Column>, answer: Result<seq<Row>, int>): Result<seq<Record>, int> {
    match answer
    case Err(e) => Err(e)
    case Ok(rows) => Ok(seq(|rows|, i requires 0 <= i < |rows| => Reader(columns)(rows[i])))
  }

  /** The integer a full row holds in a column, NULL counting as zero. */
  function RowInt(row: Row, c: Column): int {
    match row(c) case IntCell(n) => n case _ => 0
  }

  function RowOptionalInt(row: Row, c: Column): Option<int> {
    match row(c) case IntCell(n) => Some(n) case _ => None
  }

  lemma SelectedColumnIsRead(columns: seq<Column>, row: Row, c: Column)
    requires c in columns
    ensures RequiredInt(Reader(columns)(row), c) == RowInt(row, c)
    ensures OptionalInt(Reader(columns)(row), c) == RowOptionalInt(row, c)
  {
  }
}
