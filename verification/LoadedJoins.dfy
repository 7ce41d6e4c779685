/** The same for the join entity, and for the neighbours of an AuthIdentity. */
module LoadedJoins {
  import opened Prelude
  import opened AccountSchema
  import opened EdgeLoaders
  import opened Projection
  import opened QuerySpec
  import opened OtherLoaders
  import opened JoinQuery
  import opened LoadedRows
  import QueryTheorems

  // ---------- After `AccountGroupQuery.sqlAll` ----------

  /** The join entity's own columns: all, or the chosen ones and the keys of the requested edges. */
  predicate JoinChosen(q: Query, c: Column) {
    if q.fields == [] then c in q.table
    else c in q.fields || (c == ACCOUNT_ID && q.account.Some?) || (c == GROUP_ID && q.group.Some?)
  }

  ghost predicate JoinShows(r: Record, row: Row, q: Query) {
    && (forall c :: c in r.cells <==> JoinChosen(q, c))
    && (forall c :: c in r.cells ==> r.cells[c] == row(c))
  }

  /** Every join record shows its row, whatever the kinds of its cells. */
  lemma JoinsShowTheirRows(nodes: seq<JoinNode>, q: Query, rows: seq<Row>, i: nat)
    requires RecordsIn(nodes) == RecordsOf(q, rows) && i < |nodes|
    ensures |nodes| == |rows| && JoinShows(nodes[i].record, rows[i], q)
  {
    MapSeqAt(Reader(ColumnsOf(q)), rows);
    assert nodes[i].record == RecordsIn(nodes)[i] == RecordsOf(q, rows)[i];
  }

  /** The neighbour of a join row: the last returned row with its key. */
  ghost function NeighbourOf(row: Row, key: Column, full: seq<Row>): Option<Row> {
    RowWith(full, RowId, RowInt(row, key))
  }

  /** And every edge shows the returned row whose id is in the row's key column. */
  lemma JoinEdgesShowTheirRows(nodes: seq<JoinNode>, q: Query, db: Database, rows: seq<Row>, i: nat)
    requires RecordsIn(nodes) == RecordsOf(q, rows) && EdgesDone(nodes, q, db) && i < |nodes| == |rows|
    requires q.account.Some? ==> q.account.value.hasId && ID in q.account.value.table && ACCOUNT_ID in q.table
    requires q.group.Some? ==> q.group.value.hasId && ID in q.group.value.table && GROUP_ID in q.table
    ensures q.account.Some? ==>
              var answer := db.accounts(Requested(RowKeys(rows, ACCOUNT_ID)));
              answer.Ok? && OneShows(nodes[i].account.item, NeighbourOf(rows[i], ACCOUNT_ID, answer.value), q.account.value)
    ensures q.group.Some? ==>
              var answer := db.groups(Requested(RowKeys(rows, GROUP_ID)));
              answer.Ok? && OneShows(nodes[i].group.item, NeighbourOf(rows[i], GROUP_ID, answer.value), q.group.value)
    ensures q.account.None? ==> nodes[i].account.item == None
    ensures q.group.None? ==> nodes[i].group.item == None
  {
    if q.account.Some? {
      KeysIgnoreProjection(q, rows, ACCOUNT_ID);
      EdgeShows(q, q.account.value, db.accounts, ACCOUNT_ID, rows, i);
    }
    if q.group.Some? {
      KeysIgnoreProjection(q, rows, GROUP_ID);
      EdgeShows(q, q.group.value, db.groups, GROUP_ID, rows, i);
    }
  }

  lemma EdgeShows(q: Query, child: ChildQuery, answers: Answers, c: Column, rows: seq<Row>, i: nat)
    requires c in ColumnsOf(q) && child.hasId && ID in child.table && i < |rows|
    requires KeysIn(RecordsOf(q, rows), c) == RowKeys(rows, c) && Loads(Some(child), answers, RowKeys(rows, c))
    ensures var answer := answers(Requested(RowKeys(rows, c)));
            answer.Ok? && OneShows(EdgeOf(Some(child), answers, RowKeys(rows, c), i), NeighbourOf(rows[i], c, answer.value), child)
  {
    EdgeIgnoresProjection(q, child, answers, c, rows);
    var row := NeighbourOf(rows[i], c, answers(Requested(RowKeys(rows, c))).value);
    if row.Some? { ReaderShows(child, row.value); }
  }

  // ---------- The neighbours of an AuthIdentity ----------

  /** The nullable key of a decision, and the plain key of a channel, in a full row. */
  function DecisionKey(row: Row): Option<int> {
    if row(IDENTITY_ID).IntCell? then Some(row(IDENTITY_ID).n) else None
  }

  function ChannelKey(row: Row): Option<int> {
    Some(if row(IDENTITY_ID).IntCell? then row(IDENTITY_ID).n else 0)
  }

  /** Decisions are exactly the returned rows whose key cell is the identity's id, with every chosen cell. */
  lemma DecisionsShowTheirRows(q: ChildQuery, answer: Result<seq<Row>, int>, ids: seq<int>, i: nat)
    requires IDENTITY_ID in q.table && answer.Ok? && i < |ids|
    ensures var read := Records(ChildColumns(Requiring(q, IDENTITY_ID)), answer);
            && read.Ok?
            && (AllReference(ids, read.value, NillableIdentity) <==>
                  forall k :: 0 <= k < |answer.value| ==> answer.value[k](IDENTITY_ID).IntCell? && answer.value[k](IDENTITY_ID).n in ids)
            && AllShow(OneToManyEdge(ids, i, read.value, NillableIdentity), OneToManyEdge(ids, i, answer.value, DecisionKey), q, Some(IDENTITY_ID))
    ensures IsLast(ids, i) ==> forall row :: row in OneToManyEdge(ids, i, answer.value, DecisionKey) <==>
              row in answer.value && row(IDENTITY_ID) == IntCell(ids[i])
  {
    var columns := ChildColumns(Requiring(q, IDENTITY_ID));
    RequiredColumnIsSelected(q, IDENTITY_ID);
    QueryTheorems.RecordsAreMapped(columns, answer);
    forall row: Row ensures NillableIdentity(Reader(columns)(row)) == DecisionKey(row) {
      SelectedColumnIsRead(columns, row, IDENTITY_ID);
    }
    SameReferences(Reader(columns), DecisionKey, NillableIdentity, ids, answer.value);
    assert AllReference(ids, answer.value, DecisionKey) <==>
           forall k :: 0 <= k < |answer.value| ==> References(ids, DecisionKey, answer.value[k]);
    OneToManyMap(Reader(columns), DecisionKey, NillableIdentity, answer.value, ids, i);
    RequiringMappedShow(OneToManyEdge(ids, i, answer.value, DecisionKey), q, IDENTITY_ID);
    ChildrenAreTheRows(answer.value, DecisionKey, ids[i]);
  }

  /** Channels are exactly the returned rows whose key cell holds the identity's id, with every chosen cell. */
  lemma ChannelsShowTheirRows(q: ChildQuery, answer: Result<seq<Row>, int>, ids: seq<int>, i: nat)
    requires IDENTITY_ID in q.table && answer.Ok? && i < |ids|
    ensures var read := Records(ChildColumns(Requiring(q, IDENTITY_ID)), answer);
            && read.Ok?
            && AllShow(OneToManyEdge(ids, i, read.value, PlainIdentity), OneToManyEdge(ids, i, answer.value, ChannelKey), q, Some(IDENTITY_ID))
    ensures AreRowsOf(OneToManyEdge(ids, i, answer.value, ChannelKey), answer.value, IDENTITY_ID, ids, i)
  {
    var columns := ChildColumns(Requiring(q, IDENTITY_ID));
    RequiredColumnIsSelected(q, IDENTITY_ID);
    QueryTheorems.RecordsAreMapped(columns, answer);
    forall row: Row ensures PlainIdentity(Reader(columns)(row)) == ChannelKey(row) {
      SelectedColumnIsRead(columns, row, IDENTITY_ID);
    }
    OneToManyMap(Reader(columns), ChannelKey, PlainIdentity, answer.value, ids, i);
    RequiringMappedShow(OneToManyEdge(ids, i, answer.value, ChannelKey), q, IDENTITY_ID);
    ChildrenAreTheRows(answer.value, ChannelKey, ids[i]);
  }
}
