/** `AccountGroupQuery.sqlAll`: the join entity, which has no id, and its two to-one edges. */
module JoinQuery {
  import opened Prelude
  import opened AccountSchema
  import opened EdgeLoaders
  import opened EdgeTheorems
  import opened Projection
  import opened QuerySpec
  import opened OtherLoaders
  import QueryTheorems

  /** The columns of the join table, and those chosen; and the query of each edge to load. */
  datatype Query = Query(fields: seq<Column>, table: seq<Column>, account: Option<ChildQuery>, group: Option<ChildQuery>)

  datatype Database = Database(rows: Result<seq<Row>, int>, accounts: Answers, groups: Answers)

  class JoinNode {
    const record: Record
    const loadedAccount: bool
    const loadedGroup: bool
    const account: EdgeOne<Record>
    const group: EdgeOne<Record>

    constructor (record: Record, loadedAccount: bool, loadedGroup: bool)
      ensures this.record == record && this.loadedAccount == loadedAccount && this.loadedGroup == loadedGroup
      ensures fresh(account) && fresh(group) && account != group && account.item == None && group.item == None
    {
      this.record, this.loadedAccount, this.loadedGroup := record, loadedAccount, loadedGroup;
      account := new EdgeOne();
      group := new EdgeOne();
    }
  }

  function ColumnsOf(q: Query): seq<Column> {
    JoinColumns(q.fields, q.table, q.account.Some?, q.group.Some?)
  }

  ghost function RecordsOf(q: Query, rows: seq<Row>): seq<Record> {
    MapSeq(Reader(ColumnsOf(q)), rows)
  }

  /** The foreign keys a loader sees. */
  ghost function KeysIn(records: seq<Record>, c: Column): (r: seq<Option<int>>)
    ensures |r| == |records| && forall i :: 0 <= i < |r| ==> r[i] == Some(RequiredInt(records[i], c))
  {
    seq(|records|, i requires 0 <= i < |records| => Some(RequiredInt(records[i], c)))
  }

  ghost function RowKeys(rows: seq<Row>, c: Column): (r: seq<Option<int>>)
    ensures |r| == |rows| && forall i :: 0 <= i < |r| ==> r[i] == Some(RowInt(rows[i], c))
  {
    seq(|rows|, i requires 0 <= i < |rows| => Some(RowInt(rows[i], c)))
  }

  ghost function Answer(child: ChildQuery, answers: Answers, keys: seq<Option<int>>): Result<seq<Record>, int> {
    Records(ChildColumns(child), answers(Requested(keys)))
  }

  ghost predicate Loads(child: Option<ChildQuery>, answers: Answers, keys: seq<Option<int>>) {
    child.Some? ==>
      var rows := Answer(child.value, answers, keys);
      rows.Ok? && AllRequested(Requested(keys), rows.value, KeyOf)
  }

  ghost predicate FailsWith(child: ChildQuery, answers: Answers, keys: seq<Option<int>>, e: LoadError) {
    match Answer(child, answers, keys)
    case Err(code) => e == QueryFailed(code)
    case Ok(rows) => NotRequested(Requested(keys), rows, KeyOf, e)
  }

  ghost function EdgeOf(child: Option<ChildQuery>, answers: Answers, keys: seq<Option<int>>, i: nat): Option<Record>
    requires i < |keys| && Loads(child, answers, keys)
  {
    if child.None? then None else ManyToOneEdge(keys[i], Answer(child.value, answers, keys).value, KeyOf, None)
  }

  ghost predicate Apart(nodes: seq<JoinNode>) {
    && (forall i, j :: 0 <= i < j < |nodes| ==> nodes[i].account != nodes[j].account)
    && (forall i, j :: 0 <= i < j < |nodes| ==> nodes[i].group != nodes[j].group)
    && (forall i, j :: 0 <= i < |nodes| && 0 <= j < |nodes| ==> nodes[i].account != nodes[j].group)
  }

  ghost function Accounts(nodes: seq<JoinNode>): set<EdgeOne<Record>> {
    set n | n in nodes :: n.account
  }

  ghost function GroupsOf(nodes: seq<JoinNode>): set<EdgeOne<Record>> {
    set n | n in nodes :: n.group
  }

  function RecordsIn(nodes: seq<JoinNode>): (r: seq<Record>)
    ensures |r| == |nodes| && forall i :: 0 <= i < |r| ==> r[i] == nodes[i].record
  {
    seq(|nodes|, i requires 0 <= i < |nodes| => nodes[i].record)
  }

  method LoadAccounts(nodes: seq<JoinNode>, child: Option<ChildQuery>, answers: Answers) returns (r: Outcome)
    requires nodes != [] && Apart(nodes) && forall n :: n in nodes ==> n.account.item == None
    modifies Accounts(nodes)
    ensures var keys := KeysIn(RecordsIn(nodes), ACCOUNT_ID);
            && (r.Pass? <==> Loads(child, answers, keys))
            && (r.Fail? ==> FailsWith(child.value, answers, keys, r.error))
            && (r.Pass? ==> forall i :: 0 <= i < |nodes| ==> nodes[i].account.item == EdgeOf(child, answers, keys, i))
  {
    assert forall i :: 0 <= i < |nodes| ==> nodes[i] in nodes;
    if child.None? {
      return Pass;
    }
    var parts := seq(|nodes|, i requires 0 <= i < |nodes| => Holder(Some(RequiredInt(nodes[i].record, ACCOUNT_ID)), nodes[i].account));
    assert KeysOf(parts) == KeysIn(RecordsIn(nodes), ACCOUNT_ID);
    assert forall i :: 0 <= i < |nodes| ==> parts[i].edge == nodes[i].account && parts[i] in parts;
    r := LoadRequired(parts, child.value, answers);
  }

  method LoadGroups(nodes: seq<JoinNode>, child: Option<ChildQuery>, answers: Answers) returns (r: Outcome)
    requires nodes != [] && Apart(nodes) && forall n :: n in nodes ==> n.group.item == None
    modifies GroupsOf(nodes)
    ensures var keys := KeysIn(RecordsIn(nodes), GROUP_ID);
            && (r.Pass? <==> Loads(child, answers, keys))
            && (r.Fail? ==> FailsWith(child.value, answers, keys, r.error))
            && (r.Pass? ==> forall i :: 0 <= i < |nodes| ==> nodes[i].group.item == EdgeOf(child, answers, keys, i))
  {
    assert forall i :: 0 <= i < |nodes| ==> nodes[i] in nodes;
    if child.None? {
      return Pass;
    }
    var parts := seq(|nodes|, i requires 0 <= i < |nodes| => Holder(Some(RequiredInt(nodes[i].record, GROUP_ID)), nodes[i].group));
    assert KeysOf(parts) == KeysIn(RecordsIn(nodes), GROUP_ID);
    assert forall i :: 0 <= i < |nodes| ==> parts[i].edge == nodes[i].group && parts[i] in parts;
    r := LoadRequired(parts, child.value, answers);
  }

  /** A node read from a row, with nothing loaded yet. */
  ghost predicate Blank(n: JoinNode, q: Query, row: Row)
    reads n.account, n.group
  {
    && n.record == Reader(ColumnsOf(q))(row) && n.loadedAccount == q.account.Some? && n.loadedGroup == q.group.Some?
    && n.account.item == None && n.group.item == None
  }

  ghost predicate Within(nodes: seq<JoinNode>, made: set<object>) {
    forall k :: 0 <= k < |nodes| ==> nodes[k].account in made && nodes[k].group in made
  }

  lemma ApartExtend(nodes: seq<JoinNode>, n: JoinNode, made: set<object>)
    requires Apart(nodes) && Within(nodes, made) && n.account !in made && n.group !in made && n.account != n.group
    ensures Apart(nodes + [n]) && Within(nodes + [n], made + {n.account, n.group})
  {
  }

  method ReadNodes(q: Query, rows: seq<Row>) returns (nodes: seq<JoinNode>)
    ensures |nodes| == |rows| && Apart(nodes)
    ensures forall k :: 0 <= k < |nodes| ==> Blank(nodes[k], q, rows[k]) && fresh(nodes[k].account) && fresh(nodes[k].group)
  {
    var columns := AccountGroupQuerySpec(q.fields, q.table, q.account.Some?, q.group.Some?);
    nodes := [];
    ghost var made: set<object> := {};
    for i := 0 to |rows|
      invariant |nodes| == i && Apart(nodes) && Within(nodes, made) && fresh(made)
      invariant forall k :: 0 <= k < i ==> Blank(nodes[k], q, rows[k])
    {
      var node := new JoinNode(ReadRecord(columns, rows[i]), q.account.Some?, q.group.Some?);
      ApartExtend(nodes, node, made);
      nodes := nodes + [node];
      made := made + {node.account, node.group};
    }
  }

  lemma BlankRecords(nodes: seq<JoinNode>, q: Query, rows: seq<Row>)
    requires |nodes| == |rows| && forall k :: 0 <= k < |nodes| ==> nodes[k].record == Reader(ColumnsOf(q))(rows[k])
    ensures RecordsIn(nodes) == RecordsOf(q, rows)
  {
    MapSeqAt(Reader(ColumnsOf(q)), rows);
  }

  datatype QueryError = RowsFailed(code: int) | LoadFailed(load: LoadError)

  /** The error of the first loader that fails, the account's before the group's. */
  ghost predicate FirstFailure(q: Query, db: Database, accounts: seq<Option<int>>, groups: seq<Option<int>>, e: LoadError) {
    if !Loads(q.account, db.accounts, accounts) then FailsWith(q.account.value, db.accounts, accounts, e)
    else !Loads(q.group, db.groups, groups) && FailsWith(q.group.value, db.groups, groups, e)
  }

  ghost predicate EdgesDone(nodes: seq<JoinNode>, q: Query, db: Database)
    reads Accounts(nodes), GroupsOf(nodes)
  {
    var accounts, groups := KeysIn(RecordsIn(nodes), ACCOUNT_ID), KeysIn(RecordsIn(nodes), GROUP_ID);
    && Loads(q.account, db.accounts, accounts) && Loads(q.group, db.groups, groups)
    && forall i :: 0 <= i < |nodes| ==>
         && nodes[i] in nodes
         && nodes[i].account.item == EdgeOf(q.account, db.accounts, accounts, i)
         && nodes[i].group.item == EdgeOf(q.group, db.groups, groups, i)
  }

  method SqlAll(q: Query, db: Database) returns (r: Result<seq<JoinNode>, QueryError>)
    ensures match db.rows
            case Err(code) => r == Err(RowsFailed(code))
            case Ok(rows) =>
              var records := RecordsOf(q, rows);
              var accounts, groups := KeysIn(records, ACCOUNT_ID), KeysIn(records, GROUP_ID);
              && (r.Ok? <==> rows == [] || (Loads(q.account, db.accounts, accounts) && Loads(q.group, db.groups, groups)))
              && (r.Err? ==> r.error.LoadFailed? && FirstFailure(q, db, accounts, groups, r.error.load))
              && (r.Ok? ==> RecordsIn(r.value) == records)
              && (r.Ok? ==> forall n :: n in r.value ==> n.loadedAccount == q.account.Some? && n.loadedGroup == q.group.Some?)
              && (r.Ok? && rows != [] ==> EdgesDone(r.value, q, db))
  {
    if db.rows.Err? {
      return Err(RowsFailed(db.rows.error));
    }
    var nodes := ReadNodes(q, db.rows.value);
    BlankRecords(nodes, q, db.rows.value);
    if |nodes| == 0 {
      return Ok(nodes);
    }
    var outcome := LoadAccounts(nodes, q.account, db.accounts);
    if outcome.Fail? {
      return Err(LoadFailed(outcome.error));
    }
    outcome := LoadGroups(nodes, q.group, db.groups);
    if outcome.Fail? {
      return Err(LoadFailed(outcome.error));
    }
    r := Ok(nodes);
  }

  // ---------- Projections ----------

  /** A loader sees the foreign keys of the full rows, whatever fields were chosen. */
  lemma KeysIgnoreProjection(q: Query, rows: seq<Row>, c: Column)
    requires c in ColumnsOf(q)
    ensures KeysIn(RecordsOf(q, rows), c) == RowKeys(rows, c)
  {
    MapSeqAt(Reader(ColumnsOf(q)), rows);
    forall i | 0 <= i < |rows| ensures RequiredInt(RecordsOf(q, rows)[i], c) == RowInt(rows[i], c) {
      SelectedColumnIsRead(ColumnsOf(q), rows[i], c);
    }
  }

  /** The foreign key of a requested edge is always read. */
  lemma ForeignKeysAreSelected(q: Query)
    requires ACCOUNT_ID in q.table && GROUP_ID in q.table
    ensures q.account.Some? ==> ACCOUNT_ID in ColumnsOf(q)
    ensures q.group.Some? ==> GROUP_ID in ColumnsOf(q)
  {
  }

  function RowId(row: Row): int {
    RowInt(row, ID)
  }

  /**
    Projection transparency for the join entity: whatever fields are chosen for it and for its neighbour, a
    requested edge fails exactly if it would on full rows, and holds the same neighbour, read through the
    neighbour's projection.
   */
  lemma EdgeIgnoresProjection(q: Query, child: ChildQuery, answers: Answers, c: Column, rows: seq<Row>)
    requires c in ColumnsOf(q) && child.hasId && ID in child.table && answers(Requested(RowKeys(rows, c))).Ok?
    ensures var keys, full := KeysIn(RecordsOf(q, rows), c), answers(Requested(RowKeys(rows, c))).value;
            && keys == RowKeys(rows, c)
            && (Loads(Some(child), answers, keys) <==> AllRequested(Requested(keys), full, RowId))
            && (Loads(Some(child), answers, keys) ==> forall i :: 0 <= i < |rows| ==>
                  EdgeOf(Some(child), answers, keys, i)
                  == MapOption(Reader(ChildColumns(child)), ManyToOneEdge(Some(RowInt(rows[i], c)), full, RowId, None)))
  {
    KeysIgnoreProjection(q, rows, c);
    var keys, columns := RowKeys(rows, c), ChildColumns(child);
    var full := answers(Requested(keys)).value;
    IdIsSelected(child);
    forall row: Row ensures KeyOf(Reader(columns)(row)) == RowId(row) {
      SelectedColumnIsRead(columns, row, ID);
    }
    MapSeqAt(Reader(columns), full);
    QueryTheorems.RecordsAreMapped(columns, answers(Requested(keys)));
    forall i | 0 <= i < |rows|
      ensures RowWith(MapSeq(Reader(columns), full), KeyOf, RowInt(rows[i], c))
              == MapOption(Reader(columns), RowWith(full, RowId, RowInt(rows[i], c)))
    {
      LookupMap(Reader(columns), RowId, KeyOf, full, RowInt(rows[i], c));
    }
  }
}
