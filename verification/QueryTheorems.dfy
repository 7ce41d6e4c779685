/** Whole-query properties: projections change no edge, honest answers never fail, and what the accessors report. */
module QueryTheorems {
  import opened Prelude
  import opened AccountSchema
  import opened EdgeLoaders
  import opened EdgeTheorems
  import opened Projection
  import opened QuerySpec
  import opened AccountQuery

  function RowKey(row: Row): int {
    RowInt(row, ID)
  }

  function RowAccountID(row: Row): Option<int> {
    Some(RowInt(row, ACCOUNT_ID))
  }

  function RowProxy(row: Row): Option<int> {
    RowOptionalInt(row, PROXY_ID)
  }

  ghost function RowIds(rows: seq<Row>): (r: seq<int>)
    ensures |r| == |rows| && forall i :: 0 <= i < |r| ==> r[i] == RowInt(rows[i], ID)
  {
    seq(|rows|, i requires 0 <= i < |rows| => RowInt(rows[i], ID))
  }

  ghost function RowProxies(rows: seq<Row>): (r: seq<Option<int>>)
    ensures |r| == |rows| && forall i :: 0 <= i < |r| ==> r[i] == RowProxy(rows[i])
  {
    seq(|rows|, i requires 0 <= i < |rows| => RowProxy(rows[i]))
  }

  ghost predicate AllFit(rows: seq<Row>, codec: Codec) {
    forall i :: 0 <= i < |rows| ==> FitsSchema(rows[i], codec)
  }

  /** The neighbouring tables have the key columns that the loaders rely on. */
  ghost predicate HasKeyColumns(q: Query) {
    && (q.groups.Some? ==> q.groups.value.hasId && ID in q.groups.value.table)
    && (q.proxy.Some? ==> q.proxy.value.hasId && ID in q.proxy.value.table)
    && (q.usageLogs.Some? ==> ACCOUNT_ID in q.usageLogs.value.table)
    && (q.accountGroups.Some? ==> ACCOUNT_ID in q.accountGroups.value.table)
  }

  // ---------- What a projection keeps ----------

  lemma KeysSurvive(q: Query, row: Row, codec: Codec)
    requires FitsSchema(row, codec)
    ensures var read := ReadRow(SelectedColumns(q), row, codec);
            && read.Ok?
            && EntityId(read.value) == RowInt(row, ID)
            && (q.proxy.Some? ==> EntityProxy(read.value) == RowProxy(row))
  {
    var columns := SelectedColumns(q);
    ColumnsAreComplete(ID);
    ColumnsAreComplete(PROXY_ID);
    if q.fields != [] {
      ProjectionHasIdOnce(q.fields, Columns(), if q.proxy.Some? then Some(PROXY_ID) else None);
    }
    assert ID in columns;
    ReadIsProjection(columns, row, codec);
    assert FitsHolder(ScanType(ID), row(ID), codec) && FitsHolder(ScanType(PROXY_ID), row(PROXY_ID), codec);
  }

  /** The ids and foreign keys the loaders work on do not depend on the chosen fields. */
  lemma LoadersSeeTheRows(q: Query, rows: seq<Row>, codec: Codec)
    requires AllFit(rows, codec)
    ensures RowsRead(q, rows, codec)
    ensures Ids(Entities(q, rows, codec)) == RowIds(rows)
    ensures q.proxy.Some? ==> ProxyKeys(Entities(q, rows, codec)) == RowProxies(rows)
  {
    forall i | 0 <= i < |rows|
      ensures ReadRow(SelectedColumns(q), rows[i], codec).Ok?
      ensures EntityId(ReadRow(SelectedColumns(q), rows[i], codec).value) == RowInt(rows[i], ID)
      ensures q.proxy.Some? ==> EntityProxy(ReadRow(SelectedColumns(q), rows[i], codec).value) == RowProxy(rows[i])
    {
      KeysSurvive(q, rows[i], codec);
    }
  }

  lemma RecordsAreMapped(columns: seq<Column>, answer: Result<seq<Row>, int>)
    requires answer.Ok?
    ensures Records(columns, answer) == Ok(MapSeq(Reader(columns), answer.value))
  {
    MapSeqAt(Reader(columns), answer.value);
    assert Records(columns, answer).value == MapSeq(Reader(columns), answer.value);
  }

  lemma LinkRecordsAreMapped(columns: seq<Column>, answer: Result<seq<LinkRow<Row>>, int>)
    requires answer.Ok?
    ensures LinkRecords(columns, answer) == Ok(MapLinks(Reader(columns), answer.value))
  {
    MapLinksAt(Reader(columns), answer.value);
    assert LinkRecords(columns, answer).value == MapLinks(Reader(columns), answer.value);
  }

  /** The foreign keys' rows, all columns read. */
  ghost function FullProxies(db: Database, rows: seq<Row>): Result<seq<Row>, int> {
    if Requested(RowProxies(rows)) == [] then Ok([]) else db.proxies(Requested(RowProxies(rows)))
  }

  ghost predicate FullProxyLoads(db: Database, rows: seq<Row>) {
    FullProxies(db, rows).Ok? && AllRequested(Requested(RowProxies(rows)), FullProxies(db, rows).value, RowKey)
  }

  ghost predicate FullProxyFails(db: Database, rows: seq<Row>, e: LoadError) {
    match FullProxies(db, rows)
    case Err(code) => e == QueryFailed(code)
    case Ok(full) => NotRequested(Requested(RowProxies(rows)), full, RowKey, e)
  }

  ghost predicate FullChildrenLoad(answer: Result<seq<Row>, int>, ids: seq<int>) {
    answer.Ok? && AllReference(ids, answer.value, RowAccountID)
  }

  ghost predicate FullChildrenFail(answer: Result<seq<Row>, int>, ids: seq<int>, e: LoadError) {
    match answer
    case Err(code) => e == QueryFailed(code)
    case Ok(full) => FirstStray(ids, full, RowAccountID, e)
  }

  /**
    Projection transparency.  Whatever fields are chosen for the accounts and for each neighbour, a load
    fails exactly as it would on full rows, with the same error, and otherwise every edge is the edge
    computed on the full rows, read through the neighbour's projection: which neighbours a node is given,
    and in which order, does not depend on any projection.
   */
  lemma GroupsIgnoreProjection(q: Query, db: Database, rows: seq<Row>, codec: Codec)
    requires AllFit(rows, codec) && HasKeyColumns(q) && q.groups.Some?
    ensures RowsRead(q, rows, codec)
    ensures var es, answer := Entities(q, rows, codec), db.groups(RowIds(rows));
            && (GroupsLoad(q, db, es) <==> answer.Ok?)
            && (forall e :: GroupsFail(q.groups.value, db, es, e) <==> answer.Err? && e == QueryFailed(answer.error))
            && (answer.Ok? ==> forall i :: 0 <= i < |rows| ==>
                  GroupsEdge(q, db, es, i)
                  == MapSeq(Reader(ChildColumns(q.groups.value)),
                            ManyToManyEdge(RowIds(rows), i, answer.value, RowKey, Firsts(answer.value, RowKey))))
  {
    LoadersSeeTheRows(q, rows, codec);
    var columns, answer := ChildColumns(q.groups.value), db.groups(RowIds(rows));
    IdIsSelected(q.groups.value);
    forall row: Row ensures KeyOf(Reader(columns)(row)) == RowKey(row) {
      SelectedColumnIsRead(columns, row, ID);
    }
    if answer.Ok? {
      LinkRecordsAreMapped(columns, answer);
      forall i | 0 <= i < |rows|
        ensures ManyToManyEdge(RowIds(rows), i, MapLinks(Reader(columns), answer.value), KeyOf, Firsts(MapLinks(Reader(columns), answer.value), KeyOf))
                == MapSeq(Reader(columns), ManyToManyEdge(RowIds(rows), i, answer.value, RowKey, Firsts(answer.value, RowKey)))
      {
        ManyToManyMap(Reader(columns), RowKey, KeyOf, answer.value, RowIds(rows), i);
      }
    }
  }

  lemma {:induction false} ProxyIgnoresProjection(q: Query, db: Database, rows: seq<Row>, codec: Codec)
    requires AllFit(rows, codec) && HasKeyColumns(q) && q.proxy.Some?
    ensures RowsRead(q, rows, codec)
    ensures var es := Entities(q, rows, codec);
            && (ProxyLoads(q, db, es) <==> FullProxyLoads(db, rows))
            && (forall e :: ProxyFails(q.proxy.value, db, es, e) <==> FullProxyFails(db, rows, e))
            && (FullProxyLoads(db, rows) ==> forall i :: 0 <= i < |rows| ==>
                  ProxyEdge(q, db, es, i)
                  == MapOption(Reader(ChildColumns(q.proxy.value)),
                               ManyToOneEdge(RowProxy(rows[i]), FullProxies(db, rows).value, RowKey, None)))
  {
    LoadersSeeTheRows(q, rows, codec);
    var columns, ids, es, full := ChildColumns(q.proxy.value), Requested(RowProxies(rows)), Entities(q, rows, codec), FullProxies(db, rows);
    IdIsSelected(q.proxy.value);
    forall row: Row ensures KeyOf(Reader(columns)(row)) == RowKey(row) {
      SelectedColumnIsRead(columns, row, ID);
    }
    if full.Ok? {
      ProxyRowsAreMapped(q, db, rows, es);
      SameRequests(Reader(columns), RowKey, KeyOf, ids, full.value);
      forall i | 0 <= i < |rows|
        ensures ManyToOneEdge(EntityProxy(es[i]), MapSeq(Reader(columns), full.value), KeyOf, None)
                == MapOption(Reader(columns), ManyToOneEdge(RowProxy(rows[i]), full.value, RowKey, None))
      {
        assert EntityProxy(es[i]) == ProxyKeys(es)[i];
        if RowProxy(rows[i]).Some? {
          LookupMap(Reader(columns), RowKey, KeyOf, full.value, RowProxy(rows[i]).value);
        }
      }
    }
  }

  lemma ProxyRowsAreMapped(q: Query, db: Database, rows: seq<Row>, es: seq<Entity>)
    requires q.proxy.Some? && ProxyKeys(es) == RowProxies(rows) && FullProxies(db, rows).Ok?
    ensures ProxyRows(q.proxy.value, db, es) == Ok(MapSeq(Reader(ChildColumns(q.proxy.value)), FullProxies(db, rows).value))
  {
    if Requested(RowProxies(rows)) != [] {
      RecordsAreMapped(ChildColumns(q.proxy.value), db.proxies(Requested(RowProxies(rows))));
    }
  }

  lemma UsageLogsIgnoreProjection(q: Query, db: Database, rows: seq<Row>, codec: Codec)
    requires AllFit(rows, codec) && HasKeyColumns(q) && q.usageLogs.Some?
    ensures RowsRead(q, rows, codec)
    ensures var es, ids := Entities(q, rows, codec), RowIds(rows);
            var answer := db.usageLogs(ids);
            && (UsageLogsLoad(q, db, es) <==> FullChildrenLoad(answer, ids))
            && (forall e :: ChildrenFail(UsageLogRows(q.usageLogs.value, db, es), es, e) <==> FullChildrenFail(answer, ids, e))
            && (FullChildrenLoad(answer, ids) ==> forall i :: 0 <= i < |rows| ==>
                  UsageLogsEdge(q, db, es, i)
                  == MapSeq(Reader(ChildColumns(Requiring(q.usageLogs.value, ACCOUNT_ID))), OneToManyEdge(ids, i, answer.value, RowAccountID)))
  {
    LoadersSeeTheRows(q, rows, codec);
    ChildrenIgnoreProjection(q.usageLogs.value, db.usageLogs(RowIds(rows)), RowIds(rows));
  }

  lemma AccountGroupsIgnoreProjection(q: Query, db: Database, rows: seq<Row>, codec: Codec)
    requires AllFit(rows, codec) && HasKeyColumns(q) && q.accountGroups.Some?
    ensures RowsRead(q, rows, codec)
    ensures var es, ids := Entities(q, rows, codec), RowIds(rows);
            var answer := db.accountGroups(ids);
            && (AccountGroupsLoad(q, db, es) <==> FullChildrenLoad(answer, ids))
            && (forall e :: ChildrenFail(AccountGroupRows(q.accountGroups.value, db, es), es, e) <==> FullChildrenFail(answer, ids, e))
            && (FullChildrenLoad(answer, ids) ==> forall i :: 0 <= i < |rows| ==>
                  AccountGroupsEdge(q, db, es, i)
                  == MapSeq(Reader(ChildColumns(Requiring(q.accountGroups.value, ACCOUNT_ID))), OneToManyEdge(ids, i, answer.value, RowAccountID)))
  {
    LoadersSeeTheRows(q, rows, codec);
    ChildrenIgnoreProjection(q.accountGroups.value, db.accountGroups(RowIds(rows)), RowIds(rows));
  }

  ghost predicate RecordsFail(answer: Result<seq<Record>, int>, ids: seq<int>, e: LoadError) {
    match answer
    case Err(code) => e == QueryFailed(code)
    case Ok(records) => FirstStray(ids, records, AccountIDOf, e)
  }

  /** The appended foreign key is what makes a projected child land on the right node. */
  lemma ChildrenIgnoreProjection(child: ChildQuery, answer: Result<seq<Row>, int>, ids: seq<int>)
    requires ACCOUNT_ID in child.table
    ensures var columns := ChildColumns(Requiring(child, ACCOUNT_ID));
            var read := Records(columns, answer);
            && (read.Ok? && AllReference(ids, read.value, AccountIDOf) <==> FullChildrenLoad(answer, ids))
            && (forall e :: RecordsFail(read, ids, e) <==> FullChildrenFail(answer, ids, e))
            && (answer.Ok? ==> read.Ok? && forall i :: 0 <= i < |ids| ==>
                  OneToManyEdge(ids, i, read.value, AccountIDOf) == MapSeq(Reader(columns), OneToManyEdge(ids, i, answer.value, RowAccountID)))
  {
    var columns := ChildColumns(Requiring(child, ACCOUNT_ID));
    RequiredColumnIsSelected(child, ACCOUNT_ID);
    forall row: Row ensures AccountIDOf(Reader(columns)(row)) == RowAccountID(row) {
      SelectedColumnIsRead(columns, row, ACCOUNT_ID);
    }
    if answer.Ok? {
      RecordsAreMapped(columns, answer);
      SameReferences(Reader(columns), RowAccountID, AccountIDOf, ids, answer.value);
      forall i | 0 <= i < |ids|
        ensures OneToManyEdge(ids, i, MapSeq(Reader(columns), answer.value), AccountIDOf)
                == MapSeq(Reader(columns), OneToManyEdge(ids, i, answer.value, RowAccountID))
      {
        OneToManyMap(Reader(columns), RowAccountID, AccountIDOf, answer.value, ids, i);
      }
    }
  }

  // ---------- Honest answers ----------

  /** Each answer holds only rows that satisfy the predicate its loader added. */
  ghost predicate Honest(db: Database) {
    && HonoursOwners(db)
    && (forall ids :: db.proxies(ids).Ok? ==> AllRequested(ids, db.proxies(ids).value, RowKey))
    && (forall ids :: db.usageLogs(ids).Ok? ==> AllReference(ids, db.usageLogs(ids).value, RowAccountID))
    && (forall ids :: db.accountGroups(ids).Ok? ==> AllReference(ids, db.accountGroups(ids).value, RowAccountID))
  }

  ghost predicate QueriesSucceed(q: Query, db: Database, rows: seq<Row>) {
    && (q.groups.Some? ==> db.groups(RowIds(rows)).Ok?)
    && (q.proxy.Some? && Requested(RowProxies(rows)) != [] ==> db.proxies(Requested(RowProxies(rows))).Ok?)
    && (q.usageLogs.Some? ==> db.usageLogs(RowIds(rows)).Ok?)
    && (q.accountGroups.Some? ==> db.accountGroups(RowIds(rows)).Ok?)
  }

  /** With honest answers, a query fails exactly when one of the queries it sends fails. */
  lemma HonestAnswersLoad(q: Query, db: Database, rows: seq<Row>, codec: Codec)
    requires AllFit(rows, codec) && HasKeyColumns(q) && Honest(db) && rows != []
    ensures RowsRead(q, rows, codec)
    ensures EdgesLoad(q, db, Entities(q, rows, codec)) <==> QueriesSucceed(q, db, rows)
  {
    LoadersSeeTheRows(q, rows, codec);
    if QueriesSucceed(q, db, rows) {
      if q.groups.Some? { GroupsIgnoreProjection(q, db, rows, codec); }
      if q.proxy.Some? && Requested(RowProxies(rows)) != [] { ProxyIgnoresProjection(q, db, rows, codec); }
      if q.usageLogs.Some? { UsageLogsIgnoreProjection(q, db, rows, codec); }
      if q.accountGroups.Some? { AccountGroupsIgnoreProjection(q, db, rows, codec); }
    }
  }

  // ---------- What the accessors report ----------

  ghost predicate Returned(rows: seq<Record>, fk: Option<int>, e: Record) {
    fk.Some? && RowWith(rows, KeyOf, fk.value) == Some(e)
  }

  /**
    The proxy accessor after a query: NotLoaded exactly if the edge was not requested, NotFound exactly
    if it was and no returned row has the foreign key, and otherwise the row that has it.
   */
  lemma ProxyTrichotomy(nodes: seq<AccountNode>, q: Query, db: Database, i: nat)
    requires i < |nodes| && ProxyDone(nodes, q, db) && nodes[i].loaded == RequestedEdges(q)
    ensures nodes[i].ProxyOrErr() == Err(NotLoaded) <==> q.proxy.None?
    ensures q.proxy.Some? ==>
              var rows := ProxyRows(q.proxy.value, db, EntitiesOf(nodes)).value;
              var fk := EntityProxy(nodes[i].entity);
              && (nodes[i].ProxyOrErr() == Err(NotFound) <==>
                    fk.None? || forall k :: 0 <= k < |rows| ==> KeyOf(rows[k]) != fk.value)
              && (forall e :: nodes[i].ProxyOrErr() == Ok(e) <==> Returned(rows, fk, e))
  {
    if q.proxy.Some? && EntityProxy(nodes[i].entity).Some? {
      NoRowMeansNone(ProxyRows(q.proxy.value, db, EntitiesOf(nodes)).value, KeyOf, EntityProxy(nodes[i].entity).value);
    }
  }

  /** The list accessors: an error exactly if the edge was not requested, and otherwise the whole edge. */
  lemma ListAccessors(nodes: seq<AccountNode>, q: Query, db: Database, i: nat)
    requires i < |nodes| && nodes[i].loaded == RequestedEdges(q)
    requires GroupsDone(nodes, q, db) && UsageLogsDone(nodes, q, db) && AccountGroupsDone(nodes, q, db)
    ensures nodes[i].GroupsOrErr() ==
            if q.groups.Some? then Ok(GroupsEdge(q, db, EntitiesOf(nodes), i)) else Err(NotLoaded)
    ensures nodes[i].UsageLogsOrErr() ==
            if q.usageLogs.Some? then Ok(UsageLogsEdge(q, db, EntitiesOf(nodes), i)) else Err(NotLoaded)
    ensures nodes[i].AccountGroupsOrErr() ==
            if q.accountGroups.Some? then Ok(AccountGroupsEdge(q, db, EntitiesOf(nodes), i)) else Err(NotLoaded)
  {
  }
}
