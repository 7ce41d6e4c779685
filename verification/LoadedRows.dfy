/** What loaded entities and their neighbours hold, in terms of the cells of the rows the database returned. */
module LoadedRows {
  import opened Prelude
  import opened AccountSchema
  import opened EdgeLoaders
  import opened Projection
  import opened QuerySpec
  import opened AccountQuery
  import opened QueryTheorems

  /** The columns a neighbour is read with: all, or the chosen ones, its id, and the key the loader appends. */
  predicate Chosen(q: ChildQuery, key: Option<Column>, c: Column) {
    if q.fields == [] then c in q.table else c in q.fields || (q.hasId && c == ID) || key == Some(c)
  }

  /** The neighbour has exactly those columns, each with the cell of the row, whatever its kind. */
  ghost predicate Shows(r: Record, row: Row, q: ChildQuery, key: Option<Column>) {
    && (forall c :: c in r.cells <==> Chosen(q, key, c))
    && (forall c :: c in r.cells ==> r.cells[c] == row(c))
  }

  ghost predicate AllShow(rs: seq<Record>, rows: seq<Row>, q: ChildQuery, key: Option<Column>) {
    |rs| == |rows| && forall k :: 0 <= k < |rs| ==> Shows(rs[k], rows[k], q, key)
  }

  ghost predicate OneShows(r: Option<Record>, row: Option<Row>, q: ChildQuery) {
    r.Some? == row.Some? && (r.Some? ==> Shows(r.value, row.value, q, None))
  }

  /** The integer a cell holds, NULL counting as zero. */
  predicate Holds(cell: Cell, n: int) {
    if cell.IntCell? then cell.n == n else n == 0
  }

  lemma ReaderShows(q: ChildQuery, row: Row)
    ensures Shows(Reader(ChildColumns(q))(row), row, q, None)
  {
    if q.hasId && q.fields != [] { WithoutKeepsTheRest(q.fields, ID); }
  }

  lemma RequiringReaderShows(q: ChildQuery, key: Column, row: Row)
    ensures Shows(Reader(ChildColumns(Requiring(q, key)))(row), row, q, Some(key))
  {
    var q' := Requiring(q, key);
    if q.hasId && q.fields != [] { WithoutKeepsTheRest(q'.fields, ID); }
  }

  lemma MappedShow(rows: seq<Row>, q: ChildQuery)
    ensures AllShow(MapSeq(Reader(ChildColumns(q)), rows), rows, q, None)
  {
    MapSeqAt(Reader(ChildColumns(q)), rows);
    forall k | 0 <= k < |rows| ensures Shows(MapSeq(Reader(ChildColumns(q)), rows)[k], rows[k], q, None) {
      ReaderShows(q, rows[k]);
    }
  }

  lemma RequiringMappedShow(rows: seq<Row>, q: ChildQuery, key: Column)
    ensures AllShow(MapSeq(Reader(ChildColumns(Requiring(q, key))), rows), rows, q, Some(key))
  {
    var f := Reader(ChildColumns(Requiring(q, key)));
    MapSeqAt(f, rows);
    forall k | 0 <= k < |rows| ensures Shows(MapSeq(f, rows)[k], rows[k], q, Some(key)) {
      RequiringReaderShows(q, key, rows[k]);
    }
  }

  /** The children of an id are exactly the rows that reference it. */
  lemma {:induction false} ChildrenAreTheRows(rows: seq<Row>, fk: Row -> Option<int>, id: int)
    ensures forall row :: row in ChildrenOf(rows, fk, id) <==> row in rows && fk(row) == Some(id)
  {
    if rows != [] {
      ChildrenAreTheRows(rows[..|rows|-1], fk, id);
      assert rows == rows[..|rows|-1] + [rows[|rows|-1]];
    }
  }

  /** The keys the loaders go by are the cells of the id and foreign-key columns. */
  lemma KeysAreCells(rows: seq<Row>, i: nat)
    requires i < |rows|
    ensures Holds(rows[i](ID), RowIds(rows)[i]) && RowIds(rows)[i] == RowKey(rows[i])
    ensures RowProxies(rows)[i] == if rows[i](PROXY_ID).IntCell? then Some(rows[i](PROXY_ID).n) else None
  {
  }

  // ---------- After `AccountQuery.sqlAll` ----------

  /** The nodes are the rows read, as `SqlAll` leaves them. */
  ghost predicate AreRead(nodes: seq<AccountNode>, q: Query, rows: seq<Row>, codec: Codec) {
    AllFit(rows, codec) && RowsRead(q, rows, codec) && EntitiesOf(nodes) == Entities(q, rows, codec)
  }

  /** Every account shows its row: all columns, or the id, the chosen ones, and the key of a requested proxy. */
  lemma AccountsShowTheirRows(nodes: seq<AccountNode>, q: Query, rows: seq<Row>, codec: Codec, i: nat, c: Column)
    requires AreRead(nodes, q, rows, codec) && i < |nodes| && IsAccountColumn(c)
    ensures nodes[i].entity.Field(c) ==
            if q.fields == [] || c == ID || c in q.fields || (c == PROXY_ID && q.proxy.Some?) then Meaning(c, rows[i](c), codec) else Zero(c)
  {
    assert nodes[i].entity == EntitiesOf(nodes)[i] == Entities(q, rows, codec)[i];
    ReadIsProjection(SelectedColumns(q), rows[i], codec);
    if q.fields == [] {
      ColumnsAreComplete(c);
    } else {
      ProjectionHasIdOnce(q.fields, Columns(), if q.proxy.Some? then Some(PROXY_ID) else None);
    }
  }

  /** An account's groups are, in order, the first returned row of each group linked to it, with every chosen cell. */
  lemma GroupsShowTheirRows(nodes: seq<AccountNode>, q: Query, db: Database, rows: seq<Row>, codec: Codec, i: nat)
    requires AreRead(nodes, q, rows, codec) && HasKeyColumns(q) && q.groups.Some? && GroupsDone(nodes, q, db) && i < |nodes|
    ensures var answer := db.groups(RowIds(rows));
            answer.Ok? &&
            AllShow(nodes[i].groups.items, ManyToManyEdge(RowIds(rows), i, answer.value, RowKey, Firsts(answer.value, RowKey)), q.groups.value, None)
  {
    GroupsIgnoreProjection(q, db, rows, codec);
    var answer := db.groups(RowIds(rows));
    MappedShow(ManyToManyEdge(RowIds(rows), i, answer.value, RowKey, Firsts(answer.value, RowKey)), q.groups.value);
  }

  /** An account's proxy is the returned row with its foreign key, with every chosen cell. */
  lemma ProxyShowsItsRow(nodes: seq<AccountNode>, q: Query, db: Database, rows: seq<Row>, codec: Codec, i: nat)
    requires AreRead(nodes, q, rows, codec) && HasKeyColumns(q) && q.proxy.Some? && ProxyDone(nodes, q, db) && i < |nodes|
    ensures FullProxyLoads(db, rows)
    ensures OneShows(nodes[i].proxy.item, ManyToOneEdge(RowProxy(rows[i]), FullProxies(db, rows).value, RowKey, None), q.proxy.value)
  {
    ProxyIgnoresProjection(q, db, rows, codec);
    var row := ManyToOneEdge(RowProxy(rows[i]), FullProxies(db, rows).value, RowKey, None);
    if row.Some? { ReaderShows(q.proxy.value, row.value); }
  }

  /** The children that a node with an id gets from the rows returned. */
  ghost predicate AreChildren(items: seq<Record>, rows: seq<Row>, q: ChildQuery, key: Column, ids: seq<int>, i: nat)
    requires i < |ids|
  {
    exists es :: AllShow(items, es, q, Some(key)) && AreRowsOf(es, rows, key, ids, i)
  }

  /** They are exactly the rows whose key cell holds the id, unless a later node has that id. */
  ghost predicate AreRowsOf(es: seq<Row>, rows: seq<Row>, key: Column, ids: seq<int>, i: nat)
    requires i < |ids|
  {
    if IsLast(ids, i) then forall row :: row in es <==> row in rows && Holds(row(key), ids[i]) else es == []
  }

  lemma AccountRowsOf(rows: seq<Row>, ids: seq<int>, i: nat)
    requires i < |ids|
    ensures AreRowsOf(OneToManyEdge(ids, i, rows, RowAccountID), rows, ACCOUNT_ID, ids, i)
  {
    ChildrenAreTheRows(rows, RowAccountID, ids[i]);
  }

  lemma UsageLogsShowTheirRows(nodes: seq<AccountNode>, q: Query, db: Database, rows: seq<Row>, codec: Codec, i: nat)
    requires AreRead(nodes, q, rows, codec) && HasKeyColumns(q) && q.usageLogs.Some? && UsageLogsDone(nodes, q, db) && i < |nodes|
    ensures var answer := db.usageLogs(RowIds(rows));
            && answer.Ok?
            && AllShow(nodes[i].usageLogs.items, OneToManyEdge(RowIds(rows), i, answer.value, RowAccountID), q.usageLogs.value, Some(ACCOUNT_ID))
            && AreChildren(nodes[i].usageLogs.items, answer.value, q.usageLogs.value, ACCOUNT_ID, RowIds(rows), i)
  {
    UsageLogsIgnoreProjection(q, db, rows, codec);
    var answer := db.usageLogs(RowIds(rows));
    RequiringMappedShow(OneToManyEdge(RowIds(rows), i, answer.value, RowAccountID), q.usageLogs.value, ACCOUNT_ID);
    AccountRowsOf(answer.value, RowIds(rows), i);
  }

  lemma AccountGroupsShowTheirRows(nodes: seq<AccountNode>, q: Query, db: Database, rows: seq<Row>, codec: Codec, i: nat)
    requires AreRead(nodes, q, rows, codec) && HasKeyColumns(q) && q.accountGroups.Some? && AccountGroupsDone(nodes, q, db) && i < |nodes|
    ensures var answer := db.accountGroups(RowIds(rows));
            && answer.Ok?
            && AllShow(nodes[i].accountGroups.items, OneToManyEdge(RowIds(rows), i, answer.value, RowAccountID), q.accountGroups.value, Some(ACCOUNT_ID))
            && AreChildren(nodes[i].accountGroups.items, answer.value, q.accountGroups.value, ACCOUNT_ID, RowIds(rows), i)
  {
    AccountGroupsIgnoreProjection(q, db, rows, codec);
    var answer := db.accountGroups(RowIds(rows));
    RequiringMappedShow(OneToManyEdge(RowIds(rows), i, answer.value, RowAccountID), q.accountGroups.value, ACCOUNT_ID);
    AccountRowsOf(answer.value, RowIds(rows), i);
  }
}
