/** `AccountQuery.sqlAll`: read the accounts, then load every requested edge. */
module AccountQuery {
  import opened Prelude
  import opened AccountSchema
  import opened EdgeLoaders
  import opened EdgeTheorems
  import opened QuerySpec

  /** The chosen fields, and the query of each edge to load. */
  datatype Query = Query(
    fields: seq<Column>, groups: Option<ChildQuery>, proxy: Option<ChildQuery>,
    usageLogs: Option<ChildQuery>, accountGroups: Option<ChildQuery>)

  /** What the database answers: the account rows, and the rows of each batched query. */
  datatype Database = Database(
    accounts: Result<seq<Row>, int>,
    groups: seq<int> -> Result<seq<LinkRow<Row>>, int>,
    proxies: seq<int> -> Result<seq<Row>, int>,
    usageLogs: seq<int> -> Result<seq<Row>, int>,
    accountGroups: seq<int> -> Result<seq<Row>, int>)

  // ---------- The loaders' view of rows ----------

  function AccountIDOf(r: Record): Option<int> {
    Some(RequiredInt(r, ACCOUNT_ID))
  }

  function LinkRecords(columns: seq<Column>, answer: Result<seq<LinkRow<Row>>, int>): Result<seq<LinkRow<Record>>, int> {
    match answer
    case Err(e) => Err(e)
    case Ok(rows) => Ok(seq(|rows|, i requires 0 <= i < |rows| => LinkRow(rows[i].owner, Reader(columns)(rows[i].entity))))
  }

  function EntityId(e: Entity): int {
    match e.Field(ID) case Int(n) => n case _ => 0
  }

  function EntityProxy(e: Entity): Option<int> {
    match e.Field(PROXY_ID) case Int(n) => Some(n) case _ => None
  }

  ghost function Ids(entities: seq<Entity>): (r: seq<int>)
    ensures |r| == |entities| && forall i :: 0 <= i < |r| ==> r[i] == EntityId(entities[i])
  {
    seq(|entities|, i requires 0 <= i < |entities| => EntityId(entities[i]))
  }

  ghost function ProxyKeys(entities: seq<Entity>): (r: seq<Option<int>>)
    ensures |r| == |entities| && forall i :: 0 <= i < |r| ==> r[i] == EntityProxy(entities[i])
  {
    seq(|entities|, i requires 0 <= i < |entities| => EntityProxy(entities[i]))
  }

  // ---------- What each edge should hold ----------

  ghost function GroupRows(q: ChildQuery, db: Database, entities: seq<Entity>): Result<seq<LinkRow<Record>>, int> {
    LinkRecords(ChildColumns(q), db.groups(Ids(entities)))
  }

  ghost function ProxyRows(q: ChildQuery, db: Database, entities: seq<Entity>): Result<seq<Record>, int> {
    if Requested(ProxyKeys(entities)) == [] then Ok([])
    else Records(ChildColumns(q), db.proxies(Requested(ProxyKeys(entities))))
  }

  ghost function UsageLogRows(q: ChildQuery, db: Database, entities: seq<Entity>): Result<seq<Record>, int> {
    Records(ChildColumns(Requiring(q, ACCOUNT_ID)), db.usageLogs(Ids(entities)))
  }

  ghost function AccountGroupRows(q: ChildQuery, db: Database, entities: seq<Entity>): Result<seq<Record>, int> {
    Records(ChildColumns(Requiring(q, ACCOUNT_ID)), db.accountGroups(Ids(entities)))
  }

  ghost predicate GroupsLoad(q: Query, db: Database, es: seq<Entity>) {
    q.groups.Some? ==> GroupRows(q.groups.value, db, es).Ok?
  }

  ghost predicate ProxyLoads(q: Query, db: Database, es: seq<Entity>) {
    q.proxy.Some? ==>
      var rows := ProxyRows(q.proxy.value, db, es);
      rows.Ok? && AllRequested(Requested(ProxyKeys(es)), rows.value, KeyOf)
  }

  ghost predicate UsageLogsLoad(q: Query, db: Database, es: seq<Entity>) {
    q.usageLogs.Some? ==>
      var rows := UsageLogRows(q.usageLogs.value, db, es);
      rows.Ok? && AllReference(Ids(es), rows.value, AccountIDOf)
  }

  ghost predicate AccountGroupsLoad(q: Query, db: Database, es: seq<Entity>) {
    q.accountGroups.Some? ==>
      var rows := AccountGroupRows(q.accountGroups.value, db, es);
      rows.Ok? && AllReference(Ids(es), rows.value, AccountIDOf)
  }

  /** The error of a loader that fails. */
  ghost predicate GroupsFail(q: ChildQuery, db: Database, es: seq<Entity>, e: LoadError) {
    GroupRows(q, db, es).Err? && e == QueryFailed(GroupRows(q, db, es).error)
  }

  ghost predicate ProxyFails(q: ChildQuery, db: Database, es: seq<Entity>, e: LoadError) {
    match ProxyRows(q, db, es)
    case Err(code) => e == QueryFailed(code)
    case Ok(rows) => NotRequested(Requested(ProxyKeys(es)), rows, KeyOf, e)
  }

  ghost predicate ChildrenFail(answer: Result<seq<Record>, int>, es: seq<Entity>, e: LoadError) {
    match answer
    case Err(code) => e == QueryFailed(code)
    case Ok(rows) => FirstStray(Ids(es), rows, AccountIDOf, e)
  }

  /** The error of the first loader that fails, in the order groups, proxy, usage logs, account groups. */
  ghost predicate EdgesFail(q: Query, db: Database, es: seq<Entity>, e: LoadError) {
    if !GroupsLoad(q, db, es) then GroupsFail(q.groups.value, db, es, e)
    else if !ProxyLoads(q, db, es) then ProxyFails(q.proxy.value, db, es, e)
    else if !UsageLogsLoad(q, db, es) then ChildrenFail(UsageLogRows(q.usageLogs.value, db, es), es, e)
    else !AccountGroupsLoad(q, db, es) && ChildrenFail(AccountGroupRows(q.accountGroups.value, db, es), es, e)
  }

  /** There is only one such error. */
  lemma {:induction false} OneLoadError(q: Query, db: Database, es: seq<Entity>, e: LoadError, e': LoadError)
    requires EdgesFail(q, db, es, e) && EdgesFail(q, db, es, e')
    ensures e == e'
  {
    if GroupsLoad(q, db, es) && !ProxyLoads(q, db, es) {
      var rows := ProxyRows(q.proxy.value, db, es);
      if rows.Ok? { OneNotRequested(Requested(ProxyKeys(es)), rows.value, KeyOf, e, e'); }
    } else if GroupsLoad(q, db, es) && !UsageLogsLoad(q, db, es) {
      OneChildrenError(UsageLogRows(q.usageLogs.value, db, es), es, e, e');
    } else if GroupsLoad(q, db, es) {
      OneChildrenError(AccountGroupRows(q.accountGroups.value, db, es), es, e, e');
    }
  }

  lemma OneChildrenError(answer: Result<seq<Record>, int>, es: seq<Entity>, e: LoadError, e': LoadError)
    requires ChildrenFail(answer, es, e) && ChildrenFail(answer, es, e')
    ensures e == e'
  {
    if answer.Ok? { OneStray(Ids(es), answer.value, AccountIDOf, e, e'); }
  }

  ghost function GroupsEdge(q: Query, db: Database, es: seq<Entity>, i: nat): seq<Record>
    requires i < |es| && GroupsLoad(q, db, es)
  {
    if q.groups.None? then []
    else
      var rows := GroupRows(q.groups.value, db, es).value;
      ManyToManyEdge(Ids(es), i, rows, KeyOf, Firsts(rows, KeyOf))
  }

  ghost function ProxyEdge(q: Query, db: Database, es: seq<Entity>, i: nat): Option<Record>
    requires i < |es| && ProxyLoads(q, db, es)
  {
    if q.proxy.None? then None
    else ManyToOneEdge(EntityProxy(es[i]), ProxyRows(q.proxy.value, db, es).value, KeyOf, None)
  }

  ghost function UsageLogsEdge(q: Query, db: Database, es: seq<Entity>, i: nat): seq<Record>
    requires i < |es| && UsageLogsLoad(q, db, es)
  {
    if q.usageLogs.None? then []
    else OneToManyEdge(Ids(es), i, UsageLogRows(q.usageLogs.value, db, es).value, AccountIDOf)
  }

  ghost function AccountGroupsEdge(q: Query, db: Database, es: seq<Entity>, i: nat): seq<Record>
    requires i < |es| && AccountGroupsLoad(q, db, es)
  {
    if q.accountGroups.None? then []
    else OneToManyEdge(Ids(es), i, AccountGroupRows(q.accountGroups.value, db, es).value, AccountIDOf)
  }

  // ---------- Nodes ----------

  datatype Loaded = Loaded(groups: bool, proxy: bool, usageLogs: bool, accountGroups: bool)

  datatype EdgeError = NotLoaded | NotFound

  /** A loaded account: the entity read from its row, and its edges. */
  class AccountNode {
    const entity: Entity
    const loaded: Loaded
    const groups: EdgeList<Record>
    const proxy: EdgeOne<Record>
    const usageLogs: EdgeList<Record>
    const accountGroups: EdgeList<Record>

    constructor (entity: Entity, loaded: Loaded)
      ensures this.entity == entity && this.loaded == loaded
      ensures fresh(groups) && fresh(proxy) && fresh(usageLogs) && fresh(accountGroups)
      ensures groups != usageLogs && groups != accountGroups && usageLogs != accountGroups
      ensures groups.items == [] && proxy.item == None && usageLogs.items == [] && accountGroups.items == []
    {
      this.entity, this.loaded := entity, loaded;
      groups := new EdgeList<Record>();
      proxy := new EdgeOne<Record>();
      usageLogs := new EdgeList<Record>();
      accountGroups := new EdgeList<Record>();
    }

    function GroupsOrErr(): Result<seq<Record>, EdgeError>
      reads groups
    {
      if loaded.groups then Ok(groups.items) else Err(NotLoaded)
    }

    function ProxyOrErr(): Result<Record, EdgeError>
      reads proxy
    {
      if proxy.item.Some? then Ok(proxy.item.value)
      else if loaded.proxy then Err(NotFound)
      else Err(NotLoaded)
    }

    function UsageLogsOrErr(): Result<seq<Record>, EdgeError>
      reads usageLogs
    {
      if loaded.usageLogs then Ok(usageLogs.items) else Err(NotLoaded)
    }

    function AccountGroupsOrErr(): Result<seq<Record>, EdgeError>
      reads accountGroups
    {
      if loaded.accountGroups then Ok(accountGroups.items) else Err(NotLoaded)
    }
  }

  ghost function GroupEdges(nodes: seq<AccountNode>): set<EdgeList<Record>> { set n | n in nodes :: n.groups }
  ghost function ProxyEdges(nodes: seq<AccountNode>): set<EdgeOne<Record>> { set n | n in nodes :: n.proxy }
  ghost function UsageLogEdges(nodes: seq<AccountNode>): set<EdgeList<Record>> { set n | n in nodes :: n.usageLogs }
  ghost function AccountGroupEdges(nodes: seq<AccountNode>): set<EdgeList<Record>> { set n | n in nodes :: n.accountGroups }

  /** Every edge of every node is an object of its own. */
  ghost predicate Apart(nodes: seq<AccountNode>) {
    && (forall i, j :: 0 <= i < j < |nodes| ==> nodes[i].groups != nodes[j].groups)
    && (forall i, j :: 0 <= i < j < |nodes| ==> nodes[i].proxy != nodes[j].proxy)
    && (forall i, j :: 0 <= i < j < |nodes| ==> nodes[i].usageLogs != nodes[j].usageLogs)
    && (forall i, j :: 0 <= i < j < |nodes| ==> nodes[i].accountGroups != nodes[j].accountGroups)
    && GroupEdges(nodes) !! UsageLogEdges(nodes)
    && GroupEdges(nodes) !! AccountGroupEdges(nodes)
    && UsageLogEdges(nodes) !! AccountGroupEdges(nodes)
  }

  function EntitiesOf(nodes: seq<AccountNode>): (r: seq<Entity>)
    ensures |r| == |nodes| && forall i :: 0 <= i < |r| ==> r[i] == nodes[i].entity
  {
    seq(|nodes|, i requires 0 <= i < |nodes| => nodes[i].entity)
  }

  datatype QueryError = AccountsFailed(code: int) | ReadFailed(read: ReadError) | LoadFailed(load: LoadError)

  // ---------- One method per edge ----------

  method LoadGroups(nodes: seq<AccountNode>, q: ChildQuery, db: Database) returns (r: Outcome)
    requires Apart(nodes)
    requires db.groups(Ids(EntitiesOf(nodes))).Ok? ==>
               OwnersAmong(db.groups(Ids(EntitiesOf(nodes))).value, Ids(EntitiesOf(nodes)))
    modifies GroupEdges(nodes)
    ensures var es := EntitiesOf(nodes);
            && (r.Pass? <==> GroupRows(q, db, es).Ok?)
            && (r.Fail? ==> GroupsFail(q, db, es, r.error))
            && (r.Pass? ==> forall i :: 0 <= i < |nodes| ==>
                  var rows := GroupRows(q, db, es).value;
                  nodes[i].groups.items == ManyToManyEdge(Ids(es), i, rows, KeyOf, Firsts(rows, KeyOf)))
  {
    var parts := seq(|nodes|, i requires 0 <= i < |nodes| => Node(EntityId(nodes[i].entity), nodes[i].groups));
    ghost var ids := Ids(EntitiesOf(nodes));
    assert IdsOf(parts) == ids;
    assert (set n | n in parts :: n.edge) == GroupEdges(nodes) by { SameObjects(parts, nodes); }
    ghost var rows := GroupRows(q, db, EntitiesOf(nodes));
    if rows.Ok? { ManyToManyIsTheJoin(rows.value, KeyOf, 0); }
    r := LoadManyToMany(parts, KeyOf, ids => LinkRecords(ChildColumns(q), db.groups(ids)), es => Ok(es));
    assert forall i :: 0 <= i < |nodes| ==> parts[i].edge == nodes[i].groups;
  }

  lemma SameObjects(parts: seq<Node<Record>>, nodes: seq<AccountNode>)
    requires |parts| == |nodes| && forall i :: 0 <= i < |nodes| ==> parts[i].edge == nodes[i].groups
    ensures (set n | n in parts :: n.edge) == GroupEdges(nodes)
  {
    forall i | 0 <= i < |nodes| ensures nodes[i] in nodes && parts[i] in parts {}
  }

  method LoadProxy(nodes: seq<AccountNode>, q: ChildQuery, db: Database) returns (r: Outcome)
    requires Apart(nodes)
    requires forall n :: n in nodes ==> n.proxy.item == None
    modifies ProxyEdges(nodes)
    ensures var es := EntitiesOf(nodes);
            var rows := ProxyRows(q, db, es);
            && (r.Pass? <==> rows.Ok? && AllRequested(Requested(ProxyKeys(es)), rows.value, KeyOf))
            && (r.Fail? ==> ProxyFails(q, db, es, r.error))
            && (r.Pass? ==> forall i :: 0 <= i < |nodes| ==>
                  nodes[i].proxy.item == ManyToOneEdge(EntityProxy(nodes[i].entity), rows.value, KeyOf, None))
  {
    var parts := seq(|nodes|, i requires 0 <= i < |nodes| => Holder(EntityProxy(nodes[i].entity), nodes[i].proxy));
    assert KeysOf(parts) == ProxyKeys(EntitiesOf(nodes));
    assert forall i :: 0 <= i < |nodes| ==> parts[i].edge == nodes[i].proxy && parts[i] in parts && nodes[i] in nodes;
    r := LoadManyToOne(parts, KeyOf, ids => Records(ChildColumns(q), db.proxies(ids)));
  }

  method LoadUsageLogs(nodes: seq<AccountNode>, q: ChildQuery, db: Database) returns (r: Outcome)
    requires Apart(nodes)
    modifies UsageLogEdges(nodes)
    ensures var es := EntitiesOf(nodes);
            var rows := UsageLogRows(q, db, es);
            && (r.Pass? <==> rows.Ok? && AllReference(Ids(es), rows.value, AccountIDOf))
            && (r.Fail? ==> ChildrenFail(rows, es, r.error))
            && (r.Pass? ==> forall i :: 0 <= i < |nodes| ==>
                  nodes[i].usageLogs.items == OneToManyEdge(Ids(es), i, rows.value, AccountIDOf))
  {
    var parts := seq(|nodes|, i requires 0 <= i < |nodes| => Node(EntityId(nodes[i].entity), nodes[i].usageLogs));
    assert IdsOf(parts) == Ids(EntitiesOf(nodes));
    assert forall i :: 0 <= i < |nodes| ==> parts[i].edge == nodes[i].usageLogs && parts[i] in parts && nodes[i] in nodes;
    var columns := ChildColumns(Requiring(q, ACCOUNT_ID));
    r := LoadOneToMany(parts, AccountIDOf, ids => Records(columns, db.usageLogs(ids)));
  }

  method LoadAccountGroups(nodes: seq<AccountNode>, q: ChildQuery, db: Database) returns (r: Outcome)
    requires Apart(nodes)
    modifies AccountGroupEdges(nodes)
    ensures var es := EntitiesOf(nodes);
            var rows := AccountGroupRows(q, db, es);
            && (r.Pass? <==> rows.Ok? && AllReference(Ids(es), rows.value, AccountIDOf))
            && (r.Fail? ==> ChildrenFail(rows, es, r.error))
            && (r.Pass? ==> forall i :: 0 <= i < |nodes| ==>
                  nodes[i].accountGroups.items == OneToManyEdge(Ids(es), i, rows.value, AccountIDOf))
  {
    var parts := seq(|nodes|, i requires 0 <= i < |nodes| => Node(EntityId(nodes[i].entity), nodes[i].accountGroups));
    assert IdsOf(parts) == Ids(EntitiesOf(nodes));
    assert forall i :: 0 <= i < |nodes| ==> parts[i].edge == nodes[i].accountGroups && parts[i] in parts && nodes[i] in nodes;
    var columns := ChildColumns(Requiring(q, ACCOUNT_ID));
    r := LoadOneToMany(parts, AccountIDOf, ids => Records(columns, db.accountGroups(ids)));
  }

  // ---------- The whole query ----------

  function SelectedColumns(q: Query): seq<Column> {
    SelectedWithId(q.fields, Columns(), if q.proxy.Some? then Some(PROXY_ID) else None)
  }

  function RequestedEdges(q: Query): Loaded {
    Loaded(q.groups.Some?, q.proxy.Some?, q.usageLogs.Some?, q.accountGroups.Some?)
  }

  ghost predicate RowsRead(q: Query, rows: seq<Row>, codec: Codec) {
    forall i :: 0 <= i < |rows| ==> ReadRow(SelectedColumns(q), rows[i], codec).Ok?
  }

  /** The error of the first row that cannot be read. */
  ghost predicate FirstUnread(q: Query, rows: seq<Row>, codec: Codec, e: ReadError) {
    exists k :: 0 <= k < |rows| && RowsRead(q, rows[..k], codec) && ReadRow(SelectedColumns(q), rows[k], codec) == Err(e)
  }

  ghost function Entities(q: Query, rows: seq<Row>, codec: Codec): (r: seq<Entity>)
    requires RowsRead(q, rows, codec)
    ensures |r| == |rows| && forall i :: 0 <= i < |r| ==> r[i] == ReadRow(SelectedColumns(q), rows[i], codec).value
  {
    seq(|rows|, i requires 0 <= i < |rows| => ReadRow(SelectedColumns(q), rows[i], codec).value)
  }

  ghost predicate EdgesLoad(q: Query, db: Database, es: seq<Entity>) {
    GroupsLoad(q, db, es) && ProxyLoads(q, db, es) && UsageLogsLoad(q, db, es) && AccountGroupsLoad(q, db, es)
  }

  ghost predicate Blank(nodes: seq<AccountNode>, q: Query)
    reads GroupEdges(nodes), ProxyEdges(nodes), UsageLogEdges(nodes), AccountGroupEdges(nodes)
  {
    forall n :: n in nodes ==>
      n.loaded == RequestedEdges(q)
      && n.groups.items == [] && n.proxy.item == None && n.usageLogs.items == [] && n.accountGroups.items == []
  }

  /** `QueryNodes` with the `ScanValues` and `Assign` callbacks. */
  method ReadNodes(q: Query, rows: seq<Row>, codec: Codec) returns (r: Result<seq<AccountNode>, ReadError>)
    ensures r.Ok? <==> RowsRead(q, rows, codec)
    ensures r.Err? ==> FirstUnread(q, rows, codec, r.error)
    ensures r.Ok? ==> EntitiesOf(r.value) == Entities(q, rows, codec)
    ensures r.Ok? ==> Apart(r.value) && Blank(r.value, q)
    ensures r.Ok? ==> forall n :: n in r.value ==> fresh(n.groups) && fresh(n.proxy) && fresh(n.usageLogs) && fresh(n.accountGroups)
  {
    var columns := AccountQuerySpec(q.fields, q.proxy.Some?);
    var nodes: seq<AccountNode> := [];
    ghost var made: set<object> := {};
    for i := 0 to |rows|
      invariant |nodes| == i && fresh(made) && Within(nodes, made)
      invariant Apart(nodes) && Blank(nodes, q)
      invariant forall k :: 0 <= k < i ==> ReadRow(columns, rows[k], codec) == Ok(nodes[k].entity)
    {
      var node := ReadNode(columns, rows[i], codec, RequestedEdges(q));
      if node.Err? {
        return Err(node.error);
      }
      ApartExtend(nodes, node.value, made);
      WithinExtend(nodes, node.value, made);
      nodes := nodes + [node.value];
      made := made + {node.value.groups, node.value.proxy, node.value.usageLogs, node.value.accountGroups};
    }
    r := Ok(nodes);
  }

  /** The edges of the nodes are among some objects. */
  ghost predicate Within(nodes: seq<AccountNode>, made: set<object>) {
    forall n :: n in nodes ==> n.groups in made && n.proxy in made && n.usageLogs in made && n.accountGroups in made
  }

  lemma WithinExtend(nodes: seq<AccountNode>, n: AccountNode, made: set<object>)
    requires Within(nodes, made)
    ensures Within(nodes + [n], made + {n.groups, n.proxy, n.usageLogs, n.accountGroups})
  {
    Membership(nodes, n);
  }

  method ReadNode(columns: seq<Column>, row: Row, codec: Codec, loaded: Loaded) returns (r: Result<AccountNode, ReadError>)
    ensures match ReadRow(columns, row, codec)
            case Err(e) => r == Err(e)
            case Ok(entity) =>
              && r.Ok? && r.value.entity == entity && r.value.loaded == loaded
              && fresh(r.value.groups) && fresh(r.value.proxy) && fresh(r.value.usageLogs) && fresh(r.value.accountGroups)
              && r.value.groups != r.value.usageLogs && r.value.groups != r.value.accountGroups
              && r.value.usageLogs != r.value.accountGroups
              && r.value.groups.items == [] && r.value.proxy.item == None
              && r.value.usageLogs.items == [] && r.value.accountGroups.items == []
  {
    var scanned := ScanRow(columns, row);
    if scanned.Err? {
      return Err(scanned.error);
    }
    var account := new Account();
    var error := account.AssignValues(columns, scanned.value, codec);
    if error.Some? {
      return Err(error.value);
    }
    var node := new AccountNode(account.entity, loaded);
    r := Ok(node);
  }

  lemma ApartExtend(nodes: seq<AccountNode>, n: AccountNode, made: set<object>)
    requires Apart(nodes) && Within(nodes, made)
    requires n.groups !in made && n.proxy !in made && n.usageLogs !in made && n.accountGroups !in made
    requires n.groups != n.usageLogs && n.groups != n.accountGroups && n.usageLogs != n.accountGroups
    ensures Apart(nodes + [n])
  {
    var all := nodes + [n];
    assert GroupEdges(all) == GroupEdges(nodes) + {n.groups} by { Membership(nodes, n); }
    assert UsageLogEdges(all) == UsageLogEdges(nodes) + {n.usageLogs} by { Membership(nodes, n); }
    assert AccountGroupEdges(all) == AccountGroupEdges(nodes) + {n.accountGroups} by { Membership(nodes, n); }
    forall i | 0 <= i < |nodes| ensures nodes[i] in nodes {}
  }

  lemma Membership(nodes: seq<AccountNode>, n: AccountNode)
    ensures n in nodes + [n]
    ensures forall m :: m in nodes ==> m in nodes + [n]
    ensures forall m :: m in nodes + [n] ==> m in nodes || m == n
  {
  }

  /** The groups query honours the predicate the loader adds: only rows of requested accounts. */
  ghost predicate HonoursOwners(db: Database) {
    forall ids :: db.groups(ids).Ok? ==> OwnersAmong(db.groups(ids).value, ids)
  }

  method SqlAll(q: Query, db: Database, codec: Codec) returns (r: Result<seq<AccountNode>, QueryError>)
    requires HonoursOwners(db)
    ensures match db.accounts
            case Err(code) => r == Err(AccountsFailed(code))
            case Ok(rows) =>
              && (r.Ok? <==> RowsRead(q, rows, codec) && (rows == [] || EdgesLoad(q, db, Entities(q, rows, codec))))
              && (!RowsRead(q, rows, codec) ==> r.Err? && r.error.ReadFailed? && FirstUnread(q, rows, codec, r.error.read))
              && (RowsRead(q, rows, codec) && r.Err? ==>
                    r.error.LoadFailed? && EdgesFail(q, db, Entities(q, rows, codec), r.error.load))
              && (r.Ok? ==> EntitiesOf(r.value) == Entities(q, rows, codec))
              && (r.Ok? ==> forall n :: n in r.value ==> n.loaded == RequestedEdges(q))
              && (r.Ok? && rows != [] ==> GroupsDone(r.value, q, db) && ProxyDone(r.value, q, db)
                                          && UsageLogsDone(r.value, q, db) && AccountGroupsDone(r.value, q, db))
  {
    if db.accounts.Err? {
      return Err(AccountsFailed(db.accounts.error));
    }
    var read := ReadNodes(q, db.accounts.value, codec);
    if read.Err? {
      return Err(ReadFailed(read.error));
    }
    var nodes := read.value;
    if |nodes| == 0 {
      return Ok(nodes);
    }
    var loaded := LoadEdges(nodes, q, db);
    if loaded.Fail? {
      return Err(LoadFailed(loaded.error));
    }
    r := Ok(nodes);
  }

  ghost predicate GroupsDone(nodes: seq<AccountNode>, q: Query, db: Database)
    reads GroupEdges(nodes)
  {
    GroupsLoad(q, db, EntitiesOf(nodes)) && forall i :: 0 <= i < |nodes| ==>
      nodes[i] in nodes && nodes[i].groups.items == GroupsEdge(q, db, EntitiesOf(nodes), i)
  }

  ghost predicate ProxyDone(nodes: seq<AccountNode>, q: Query, db: Database)
    reads ProxyEdges(nodes)
  {
    ProxyLoads(q, db, EntitiesOf(nodes)) && forall i :: 0 <= i < |nodes| ==>
      nodes[i] in nodes && nodes[i].proxy.item == ProxyEdge(q, db, EntitiesOf(nodes), i)
  }

  ghost predicate UsageLogsDone(nodes: seq<AccountNode>, q: Query, db: Database)
    reads UsageLogEdges(nodes)
  {
    UsageLogsLoad(q, db, EntitiesOf(nodes)) && forall i :: 0 <= i < |nodes| ==>
      nodes[i] in nodes && nodes[i].usageLogs.items == UsageLogsEdge(q, db, EntitiesOf(nodes), i)
  }

  ghost predicate AccountGroupsDone(nodes: seq<AccountNode>, q: Query, db: Database)
    reads AccountGroupEdges(nodes)
  {
    AccountGroupsLoad(q, db, EntitiesOf(nodes)) && forall i :: 0 <= i < |nodes| ==>
      nodes[i] in nodes && nodes[i].accountGroups.items == AccountGroupsEdge(q, db, EntitiesOf(nodes), i)
  }

  method LoadGroupsIfRequested(nodes: seq<AccountNode>, q: Query, db: Database) returns (r: Outcome)
    requires HonoursOwners(db) && Apart(nodes) && forall n :: n in nodes ==> n.groups.items == []
    modifies GroupEdges(nodes)
    ensures r.Pass? <==> GroupsLoad(q, db, EntitiesOf(nodes))
    ensures r.Fail? ==> GroupsFail(q.groups.value, db, EntitiesOf(nodes), r.error)
    ensures r.Pass? ==> GroupsDone(nodes, q, db)
  {
    r := Pass;
    if q.groups.Some? {
      r := LoadGroups(nodes, q.groups.value, db);
    }
  }

  method LoadProxyIfRequested(nodes: seq<AccountNode>, q: Query, db: Database) returns (r: Outcome)
    requires Apart(nodes) && forall n :: n in nodes ==> n.proxy.item == None
    modifies ProxyEdges(nodes)
    ensures r.Pass? <==> ProxyLoads(q, db, EntitiesOf(nodes))
    ensures r.Fail? ==> ProxyFails(q.proxy.value, db, EntitiesOf(nodes), r.error)
    ensures r.Pass? ==> ProxyDone(nodes, q, db)
  {
    r := Pass;
    if q.proxy.Some? {
      r := LoadProxy(nodes, q.proxy.value, db);
    }
  }

  method LoadUsageLogsIfRequested(nodes: seq<AccountNode>, q: Query, db: Database) returns (r: Outcome)
    requires Apart(nodes) && forall n :: n in nodes ==> n.usageLogs.items == []
    modifies UsageLogEdges(nodes)
    ensures r.Pass? <==> UsageLogsLoad(q, db, EntitiesOf(nodes))
    ensures r.Fail? ==> ChildrenFail(UsageLogRows(q.usageLogs.value, db, EntitiesOf(nodes)), EntitiesOf(nodes), r.error)
    ensures r.Pass? ==> UsageLogsDone(nodes, q, db)
  {
    r := Pass;
    if q.usageLogs.Some? {
      r := LoadUsageLogs(nodes, q.usageLogs.value, db);
    }
  }

  method LoadAccountGroupsIfRequested(nodes: seq<AccountNode>, q: Query, db: Database) returns (r: Outcome)
    requires Apart(nodes) && forall n :: n in nodes ==> n.accountGroups.items == []
    modifies AccountGroupEdges(nodes)
    ensures r.Pass? <==> AccountGroupsLoad(q, db, EntitiesOf(nodes))
    ensures r.Fail? ==> ChildrenFail(AccountGroupRows(q.accountGroups.value, db, EntitiesOf(nodes)), EntitiesOf(nodes), r.error)
    ensures r.Pass? ==> AccountGroupsDone(nodes, q, db)
  {
    r := Pass;
    if q.accountGroups.Some? {
      r := LoadAccountGroups(nodes, q.accountGroups.value, db);
    }
  }

  /** The requested edges, one loader after the other; each touches its own edge only. */
  method LoadEdges(nodes: seq<AccountNode>, q: Query, db: Database) returns (r: Outcome)
    requires HonoursOwners(db) && Apart(nodes) && Blank(nodes, q)
    modifies GroupEdges(nodes), ProxyEdges(nodes), UsageLogEdges(nodes), AccountGroupEdges(nodes)
    ensures r.Pass? <==> EdgesLoad(q, db, EntitiesOf(nodes))
    ensures r.Fail? ==> EdgesFail(q, db, EntitiesOf(nodes), r.error)
    ensures r.Pass? ==> GroupsDone(nodes, q, db) && ProxyDone(nodes, q, db)
    ensures r.Pass? ==> UsageLogsDone(nodes, q, db) && AccountGroupsDone(nodes, q, db)
  {
    r := LoadGroupsAndProxy(nodes, q, db);
    if r.Fail? { return; }
    r := LoadUsageLogsAndAccountGroups(nodes, q, db);
  }

  method LoadGroupsAndProxy(nodes: seq<AccountNode>, q: Query, db: Database) returns (r: Outcome)
    requires HonoursOwners(db) && Apart(nodes)
    requires forall n :: n in nodes ==> n.groups.items == [] && n.proxy.item == None
    modifies GroupEdges(nodes), ProxyEdges(nodes)
    ensures r.Pass? <==> GroupsLoad(q, db, EntitiesOf(nodes)) && ProxyLoads(q, db, EntitiesOf(nodes))
    ensures r.Fail? ==> EdgesFail(q, db, EntitiesOf(nodes), r.error)
    ensures r.Pass? ==> GroupsDone(nodes, q, db) && ProxyDone(nodes, q, db)
  {
    r := LoadGroupsIfRequested(nodes, q, db);
    if r.Fail? { return; }
    r := LoadProxyIfRequested(nodes, q, db);
  }

  method LoadUsageLogsAndAccountGroups(nodes: seq<AccountNode>, q: Query, db: Database) returns (r: Outcome)
    requires Apart(nodes)
    requires forall n :: n in nodes ==> n.usageLogs.items == [] && n.accountGroups.items == []
    modifies UsageLogEdges(nodes), AccountGroupEdges(nodes)
    ensures r.Pass? <==> UsageLogsLoad(q, db, EntitiesOf(nodes)) && AccountGroupsLoad(q, db, EntitiesOf(nodes))
    ensures r.Fail? && GroupsLoad(q, db, EntitiesOf(nodes)) && ProxyLoads(q, db, EntitiesOf(nodes)) ==>
              EdgesFail(q, db, EntitiesOf(nodes), r.error)
    ensures r.Pass? ==> UsageLogsDone(nodes, q, db) && AccountGroupsDone(nodes, q, db)
  {
    r := LoadUsageLogsIfRequested(nodes, q, db);
    if r.Fail? { return; }
    r := LoadAccountGroupsIfRequested(nodes, q, db);
  }
}
