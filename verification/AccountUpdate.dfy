/** The plan an Account update sends to the database, from the changes its mutation holds. */
module AccountUpdating {
  import opened Prelude
  import opened AccountSchema
  import opened AccountCreation
  import opened QuerySpec
  import opened UpdateMutation
  import opened FieldOrder

  // ---------- Edges ----------

  datatype EdgeName = Groups | Proxy | UsageLogs

  /**
    One edge of a clear or add list; a clear without nodes clears the whole edge.  The groups edge carries
    the default fields of the join table.
   */
  datatype EdgeChange = EdgeChange(edge: EdgeName, nodes: seq<int>, joinFields: seq<FieldSpec>)

  function ChangeOf(edge: EdgeName, nodes: seq<int>, d: JoinDefaults): EdgeChange {
    EdgeChange(edge, nodes, if edge == Groups then JoinFields(d) else [])
  }

  datatype EdgePlan = EdgePlan(clear: seq<EdgeChange>, add: seq<EdgeChange>)

  /** The orders in which Go's map iteration lists the id sets. */
  datatype Orders = Orders(removedGroups: seq<int>, groups: seq<int>, removedLogs: seq<int>, logs: seq<int>)

  predicate Lists(order: seq<int>, ids: set<int>) {
    SetOf(order) == ids && |order| == |ids|
  }

  predicate ListsAll(o: Orders, u: Update) {
    && Lists(o.removedGroups, u.groups.removed) && Lists(o.groups, u.groups.ids)
    && Lists(o.removedLogs, u.usageLogs.removed) && Lists(o.logs, u.usageLogs.ids)
  }

  function ClearToMany(edge: EdgeName, cleared: bool, removed: seq<int>, d: JoinDefaults): seq<EdgeChange> {
    if cleared then [ChangeOf(edge, [], d)]
    else if removed != [] then [ChangeOf(edge, removed, d)]
    else []
  }

  function AddAny(edge: EdgeName, ids: seq<int>, d: JoinDefaults): seq<EdgeChange> {
    if ids != [] then [ChangeOf(edge, ids, d)] else []
  }

  function EdgesOf(u: Update, o: Orders, d: JoinDefaults): EdgePlan {
    EdgePlan(
      ClearToMany(Groups, u.groups.cleared, o.removedGroups, d)
      + (if u.ProxyChange().cleared then [ChangeOf(Proxy, [], d)] else [])
      + ClearToMany(UsageLogs, u.usageLogs.cleared, o.removedLogs, d),
      AddAny(Groups, o.groups, d)
      + (if u.proxy.Some? then [ChangeOf(Proxy, [u.proxy.value], d)] else [])
      + AddAny(UsageLogs, o.logs, d))
  }

  // ---------- What a plan does to the neighbours of an account ----------

  datatype Relations = Relations(groups: set<int>, proxy: Option<int>, usageLogs: set<int>)

  function Less(ids: set<int>, nodes: seq<int>): set<int> {
    if nodes == [] then {} else ids - SetOf(nodes)
  }

  function ClearOne(r: Relations, e: EdgeChange): Relations {
    match e.edge
    case Groups => r.(groups := Less(r.groups, e.nodes))
    case Proxy => r.(proxy := None)
    case UsageLogs => r.(usageLogs := Less(r.usageLogs, e.nodes))
  }

  function AddOne(r: Relations, e: EdgeChange): Relations {
    match e.edge
    case Groups => r.(groups := r.groups + SetOf(e.nodes))
    case Proxy => if e.nodes == [] then r else r.(proxy := Some(e.nodes[|e.nodes|-1]))
    case UsageLogs => r.(usageLogs := r.usageLogs + SetOf(e.nodes))
  }

  function ClearAll(r: Relations, edges: seq<EdgeChange>): Relations {
    if edges == [] then r else ClearOne(ClearAll(r, edges[..|edges|-1]), edges[|edges|-1])
  }

  function AddAll(r: Relations, edges: seq<EdgeChange>): Relations {
    if edges == [] then r else AddOne(AddAll(r, edges[..|edges|-1]), edges[|edges|-1])
  }

  /** The clear list, then the add list. */
  function Apply(plan: EdgePlan, r: Relations): Relations {
    AddAll(ClearAll(r, plan.clear), plan.add)
  }

  lemma {:induction false} ClearAppend(r: Relations, p: seq<EdgeChange>, q: seq<EdgeChange>)
    ensures ClearAll(r, p + q) == ClearAll(ClearAll(r, p), q)
  {
    if q == [] {
      assert p + q == p;
    } else {
      assert (p + q)[..|p + q|-1] == p + q[..|q|-1];
      ClearAppend(r, p, q[..|q|-1]);
    }
  }

  lemma {:induction false} AddAppend(r: Relations, p: seq<EdgeChange>, q: seq<EdgeChange>)
    ensures AddAll(r, p + q) == AddAll(AddAll(r, p), q)
  {
    if q == [] {
      assert p + q == p;
    } else {
      assert (p + q)[..|p + q|-1] == p + q[..|q|-1];
      AddAppend(r, p, q[..|q|-1]);
    }
  }

  /** The neighbours the mutation asks for. */
  function Wanted(u: Update, r: Relations): Relations {
    Relations(Neighbours(u.groups, r.groups), ProxyAfter(u.ProxyChange(), r.proxy), Neighbours(u.usageLogs, r.usageLogs))
  }

  function Kept(s: EdgeState, ids: set<int>): set<int> {
    if s.cleared then {} else ids - s.removed
  }

  lemma ClearToManyIs(r: Relations, s: EdgeState, removed: seq<int>, d: JoinDefaults)
    requires Lists(removed, s.removed)
    ensures ClearAll(r, ClearToMany(Groups, s.cleared, removed, d)) == r.(groups := Kept(s, r.groups))
    ensures ClearAll(r, ClearToMany(UsageLogs, s.cleared, removed, d)) == r.(usageLogs := Kept(s, r.usageLogs))
  {
    ClearSingle(r, Groups, if s.cleared then [] else removed, d);
    ClearSingle(r, UsageLogs, if s.cleared then [] else removed, d);
  }

  lemma ClearSingle(r: Relations, edge: EdgeName, nodes: seq<int>, d: JoinDefaults)
    ensures ClearAll(r, [ChangeOf(edge, nodes, d)]) == ClearOne(r, ChangeOf(edge, nodes, d))
  {
    assert [ChangeOf(edge, nodes, d)][..0] == [];
  }

  lemma AddAnyIs(r: Relations, ids: set<int>, order: seq<int>, d: JoinDefaults)
    requires Lists(order, ids)
    ensures AddAll(r, AddAny(Groups, order, d)) == r.(groups := r.groups + ids)
    ensures AddAll(r, AddAny(UsageLogs, order, d)) == r.(usageLogs := r.usageLogs + ids)
  {
    AddSingle(r, Groups, order, d);
    AddSingle(r, UsageLogs, order, d);
  }

  lemma AddSingle(r: Relations, edge: EdgeName, nodes: seq<int>, d: JoinDefaults)
    ensures AddAll(r, [ChangeOf(edge, nodes, d)]) == AddOne(r, ChangeOf(edge, nodes, d))
  {
    assert [ChangeOf(edge, nodes, d)][..0] == [];
  }

  lemma ClearsAre(u: Update, o: Orders, r: Relations, d: JoinDefaults)
    requires ListsAll(o, u)
    ensures ClearAll(r, EdgesOf(u, o, d).clear) ==
            Relations(Kept(u.groups, r.groups), if u.ProxyChange().cleared then None else r.proxy, Kept(u.usageLogs, r.usageLogs))
  {
    var g := ClearToMany(Groups, u.groups.cleared, o.removedGroups, d);
    var p := if u.ProxyChange().cleared then [ChangeOf(Proxy, [], d)] else [];
    var l := ClearToMany(UsageLogs, u.usageLogs.cleared, o.removedLogs, d);
    ClearAppend(r, g + p, l);
    ClearAppend(r, g, p);
    ClearToManyIs(r, u.groups, o.removedGroups, d);
    ClearSingle(ClearAll(r, g), Proxy, [], d);
    ClearToManyIs(ClearAll(ClearAll(r, g), p), u.usageLogs, o.removedLogs, d);
  }

  lemma AddsAre(u: Update, o: Orders, r: Relations, d: JoinDefaults)
    requires ListsAll(o, u)
    ensures AddAll(r, EdgesOf(u, o, d).add) ==
            Relations(r.groups + u.groups.ids, if u.proxy.Some? then u.proxy else r.proxy, r.usageLogs + u.usageLogs.ids)
  {
    var g := AddAny(Groups, o.groups, d);
    var p := if u.proxy.Some? then [ChangeOf(Proxy, [u.proxy.value], d)] else [];
    var l := AddAny(UsageLogs, o.logs, d);
    AddAppend(r, g + p, l);
    AddAppend(r, g, p);
    AddAnyIs(r, u.groups.ids, o.groups, d);
    if u.proxy.Some? { AddSingle(AddAll(r, g), Proxy, [u.proxy.value], d); }
    AddAnyIs(AddAll(AddAll(r, g), p), u.usageLogs.ids, o.logs, d);
  }

  /**
    Whatever the mutation holds and in whatever order its sets are listed, the plan leaves each edge with
    the old neighbours, less the removed ones or all if cleared, and with the added ones.
   */
  lemma PlanGivesWhatIsWanted(u: Update, o: Orders, r: Relations, d: JoinDefaults)
    requires ListsAll(o, u)
    ensures Apply(EdgesOf(u, o, d), r) == Wanted(u, r)
  {
    ClearsAre(u, o, r, d);
    AddsAre(u, o, ClearAll(r, EdgesOf(u, o, d).clear), d);
  }

  // ---------- Fields ----------

  datatype FieldPlan = FieldPlan(written: seq<FieldSpec>, added: seq<FieldSpec>, cleared: seq<Column>)

  /** The columns an update may write: not the id, the creation time, or the foreign key. */
  function UpdateColumns(): (columns: seq<Column>)
    ensures |columns| == 26
    ensures forall i :: 0 <= i < 26 ==> columns[i] == (if i < 8 then i + 2 else i + 3) as Column
  {
    seq(26, i => (if i < 8 then i + 2 else i + 3) as Column)
  }

  /** An update writes every plain field but the creation time. */
  predicate Updatable(c: Column) {
    TypeOf(c) != NoField && c != CREATED_AT
  }

  lemma UpdateColumnsAre(c: Column)
    ensures c in UpdateColumns() <==> Updatable(c)
  {
    if 2 <= c < 10 {
      assert UpdateColumns()[c as int - 2] == c;
    } else if 11 <= c < 29 {
      assert UpdateColumns()[c as int - 3] == c;
    }
  }

  function Cleared(columns: seq<Column>, cleared: set<Column>): seq<Column> {
    if columns == [] then []
    else Cleared(columns[..|columns|-1], cleared) + if columns[|columns|-1] in cleared then [columns[|columns|-1]] else []
  }

  function FieldsOf(u: Update): FieldPlan {
    FieldPlan(SpecFields(UpdateColumns(), u.values), SpecFields(UpdateColumns(), u.added), Cleared(UpdateColumns(), u.clearedFields))
  }

  /** What a plan holds for a column in its three lists. */
  function PartsIn(plan: FieldPlan, c: Column): FieldState {
    FieldState(match FieldIn(plan.written, c) case Some(f) => Some(f.value) case None => None,
               match FieldIn(plan.added, c) case Some(f) => Some(f.value) case None => None,
               c in plan.cleared)
  }

  /** The stored value of a column after a plan: its clears, then the values written, then the sums. */
  function Written(plan: FieldPlan, c: Column, initial: Option<Value>): Option<Value> {
    FieldAfter(PartsIn(plan, c), initial)
  }

  lemma {:induction false} ClearedColumns(columns: seq<Column>, cleared: set<Column>)
    ensures forall c :: c in Cleared(columns, cleared) <==> c in columns && c in cleared
  {
    if columns != [] {
      ClearedColumns(columns[..|columns|-1], cleared);
      assert columns == columns[..|columns|-1] + [columns[|columns|-1]];
    }
  }

  /** The plan holds for each column an update may write what its mutation holds, and for no other anything. */
  lemma PlanHoldsTheChanges(u: Update, c: Column)
    ensures PartsIn(FieldsOf(u), c) == if Updatable(c) then u.FieldChange(c) else FieldState(None, None, false)
  {
    UpdateColumnsAre(c);
    FieldInSpec(UpdateColumns(), u.values, c);
    FieldInSpec(UpdateColumns(), u.added, c);
    ClearedColumns(UpdateColumns(), u.clearedFields);
  }

  /** Clears, then values, then sums change each such column as its mutation says, and no other column. */
  lemma PlanWritesWhatIsHeld(u: Update, c: Column, initial: Option<Value>)
    ensures Written(FieldsOf(u), c, initial) == if Updatable(c) then FieldAfter(u.FieldChange(c), initial) else initial
  {
    PlanHoldsTheChanges(u, c);
  }

  /** From calls to the database: the column ends up as if each call had taken effect at once. */
  lemma PlanMatchesTheCalls(u: Update, c: Column, calls: seq<FieldCall>, initial: Option<Value>)
    requires Updatable(c) && u.FieldChange(c) == FieldCollected(c, calls)
    requires Allowed(c, calls) && Stored(c, initial)
    ensures Written(FieldsOf(u), c, initial) == FieldExecuted(initial, calls)
  {
    PlanWritesWhatIsHeld(u, c, initial);
    FieldMatchesCalls(c, calls, initial);
  }

  /**
    The same without any assumption on the order in which the database applies the three lists: exactly
    which calls on a column are safe in every order.
   */
  lemma PlanMatchesTheCallsInAnyOrder(u: Update, c: Column, calls: seq<FieldCall>, initial: Option<Value>)
    requires Updatable(c) && u.FieldChange(c) == FieldCollected(c, calls)
    requires Allowed(c, calls) && Stored(c, initial)
    ensures (forall order :: IsOrder(order) ==> InOrder(order, PartsIn(FieldsOf(u), c), initial) == FieldExecuted(initial, calls)) <==>
            SafeInAnyOrder(c, calls)
  {
    PlanHoldsTheChanges(u, c);
    FieldMatchesCallsInAnyOrder(c, calls, initial);
  }

  // ---------- Checks ----------

  datatype SaveError = RejectedValue(c: Column) | MissingID | UnknownField(c: Column) | Failed(error: DriverError) | Unreadable(read: ReadError)

  datatype DriverError = NotFound | Constraint | Other

  /** Only the validators, and only on what is set: an update requires nothing. */
  function CheckUpdate(values: Values, v: Validators): Option<Column> {
    if NAME in values && !v.name(values[NAME]) then Some(NAME)
    else if PLATFORM in values && !v.platform(values[PLATFORM]) then Some(PLATFORM)
    else if TYPE in values && !v.kind(values[TYPE]) then Some(TYPE)
    else if STATUS in values && !v.status(values[STATUS]) then Some(STATUS)
    else if SESSION_WINDOW_STATUS in values && !v.sessionWindowStatus(values[SESSION_WINDOW_STATUS]) then Some(SESSION_WINDOW_STATUS)
    else None
  }

  /** An update check is a create check without the required fields. */
  lemma CreateCheckIsUpdateCheckAndRequired(values: Values, v: Validators)
    ensures Check(values, v) == None <==> CheckUpdate(values, v) == None && forall c :: Required(c) ==> c in values
  {
    CheckIsExact(values, v);
  }

  // ---------- The builders ----------

  datatype UpdateSpec = UpdateSpec(id: Option<int>, columns: seq<Column>, fields: FieldPlan, edges: EdgePlan, predicates: seq<Condition>)

  /** Ranging over a Go map. */
  method Range(ids: set<int>) returns (order: seq<int>)
    ensures Lists(order, ids)
  {
    order := [];
    var left := ids;
    while left != {}
      invariant left <= ids && Lists(order, ids - left)
      decreases left
    {
      assert (forall id :: id !in left) ==> left == {};
      var id :| id in left;
      ListsOneMore(order, ids - left, id);
      assert ids - (left - {id}) == (ids - left) + {id};
      left := left - {id};
      order := order + [id];
    }
    assert ids - left == ids;
  }

  lemma ListsOneMore(order: seq<int>, ids: set<int>, id: int)
    requires Lists(order, ids) && id !in ids
    ensures Lists(order + [id], ids + {id})
  {
    assert SetOf(order + [id]) == SetOf(order) + {id};
  }

  /** The clear and add lists for these changes, the sets listed in some order. */
  ghost predicate IsEdgePlan(u: Update, d: JoinDefaults, plan: EdgePlan) {
    exists o :: ListsAll(o, u) && plan == EdgesOf(u, o, d)
  }

  /** The specification of an update: fields, edges and conditions as held, its sets listed in some order. */
  ghost predicate IsPlanFor(u: Update, d: JoinDefaults, id: Option<int>, columns: seq<Column>, spec: UpdateSpec) {
    && spec.id == id && spec.columns == columns && spec.fields == FieldsOf(u) && spec.predicates == u.predicates
    && IsEdgePlan(u, d, spec.edges)
  }

  class AccountUpdate {
    const mutation: AccountMutation
    var done: bool

    constructor (m: AccountMutation)
      ensures mutation == m && !done
    {
      mutation, done := m, false;
    }

    /** The `SetField`, `AddField` and `ClearField` calls. */
    method FieldPart() returns (plan: FieldPlan)
      ensures plan == FieldsOf(mutation.Pending())
    {
      var columns := UpdateColumns();
      plan := FieldPlan([], [], []);
      for i := 0 to |columns|
        invariant plan.written == SpecFields(columns[..i], mutation.values)
        invariant plan.added == SpecFields(columns[..i], mutation.added)
        invariant plan.cleared == Cleared(columns[..i], mutation.clearedFields)
      {
        var c := columns[i];
        assert columns[..i+1][..i] == columns[..i];
        if c in mutation.values {
          plan := plan.(written := plan.written + [FieldSpec(c, TypeOf(c), mutation.values[c])]);
        }
        if c in mutation.added {
          plan := plan.(added := plan.added + [FieldSpec(c, TypeOf(c), mutation.added[c])]);
        }
        if c in mutation.clearedFields {
          plan := plan.(cleared := plan.cleared + [c]);
        }
      }
      assert columns[..|columns|] == columns;
    }

    /** The clear and add lists of the edges: groups, proxy, usage logs. */
    method EdgePart(d: JoinDefaults) returns (plan: EdgePlan)
      ensures IsEdgePlan(mutation.Pending(), d, plan)
    {
      var clear, add, removedGroups, groupIDs := GroupsPart(d);
      if PROXY_ID in mutation.clearedFields || mutation.clearedProxy {
        clear := clear + [ChangeOf(Proxy, [], d)];
      }
      if mutation.proxy.Some? {
        add := add + [ChangeOf(Proxy, [mutation.proxy.value], d)];
      }
      var clearLogs, addLogs, removedLogs, logIDs := UsageLogsPart(d);
      plan := EdgePlan(clear + clearLogs, add + addLogs);
      ghost var u, o := mutation.Pending(), Orders(removedGroups, groupIDs, removedLogs, logIDs);
      assert ListsAll(o, u) && plan == EdgesOf(u, o, d);
    }

    /** The three blocks of the groups edge, and the orders in which its sets were listed. */
    method GroupsPart(d: JoinDefaults)
      returns (clear: seq<EdgeChange>, add: seq<EdgeChange>, removed: seq<int>, ids: seq<int>)
      ensures Lists(removed, mutation.groups.removed) && Lists(ids, mutation.groups.ids)
      ensures clear == ClearToMany(Groups, mutation.groups.cleared, removed, d) && add == AddAny(Groups, ids, d)
    {
      clear, add := [], [];
      if mutation.groups.cleared {
        clear := clear + [ChangeOf(Groups, [], d)];
      }
      removed := Range(mutation.groups.removed);
      if |removed| > 0 && !mutation.groups.cleared {
        clear := clear + [ChangeOf(Groups, removed, d)];
      }
      ids := Range(mutation.groups.ids);
      if |ids| > 0 {
        add := add + [ChangeOf(Groups, ids, d)];
      }
    }

    /** The three blocks of the usage logs edge. */
    method UsageLogsPart(d: JoinDefaults)
      returns (clear: seq<EdgeChange>, add: seq<EdgeChange>, removed: seq<int>, ids: seq<int>)
      ensures Lists(removed, mutation.usageLogs.removed) && Lists(ids, mutation.usageLogs.ids)
      ensures clear == ClearToMany(UsageLogs, mutation.usageLogs.cleared, removed, d) && add == AddAny(UsageLogs, ids, d)
    {
      clear, add := [], [];
      if mutation.usageLogs.cleared {
        clear := clear + [ChangeOf(UsageLogs, [], d)];
      }
      removed := Range(mutation.usageLogs.removed);
      if |removed| > 0 && !mutation.usageLogs.cleared {
        clear := clear + [ChangeOf(UsageLogs, removed, d)];
      }
      ids := Range(mutation.usageLogs.ids);
      if |ids| > 0 {
        add := add + [ChangeOf(UsageLogs, ids, d)];
      }
    }

    /**
      Sends one plan, or none if a validator rejects a value; returns the database's count of updated rows
      or its error; the mutation is done exactly if the database accepts.
     */
    method SqlSave(v: Validators, d: JoinDefaults, driver: UpdateSpec -> Result<nat, DriverError>)
      returns (r: Result<nat, SaveError>, ghost sent: Option<UpdateSpec>)
      modifies `done
      ensures match CheckUpdate(mutation.Pending().values, v)
              case Some(c) => sent == None && r == Err(RejectedValue(c))
              case None =>
                && sent.Some? && IsPlanFor(mutation.Pending(), d, None, Columns(), sent.value)
                && r == match driver(sent.value) case Ok(count) => Ok(count) case Err(e) => Err(Failed(e))
      ensures done == (old(done) || r.Ok?)
    {
      var rejected := CheckUpdate(mutation.Pending().values, v);
      if rejected.Some? {
        return Err(RejectedValue(rejected.value)), None;
      }
      var fields := FieldPart();
      var edges := EdgePart(d);
      var spec := UpdateSpec(None, Columns(), fields, edges, mutation.predicates);
      sent := Some(spec);
      var answer := driver(spec);
      if answer.Err? {
        return Err(Failed(answer.error)), sent;
      }
      done := true;
      r := Ok(answer.value);
    }
  }

  ghost predicate IsFirstUnknown(fields: seq<Column>, c: Column) {
    exists k :: 0 <= k < |fields| && fields[k] == c && !IsAccountColumn(c) && forall j :: 0 <= j < k ==> IsAccountColumn(fields[j])
  }

  /** Reading back the updated row. */
  function ReadUpdated(columns: seq<Column>, answer: Result<Row, DriverError>, codec: Codec): Result<Entity, SaveError> {
    match answer
    case Err(e) => Err(Failed(e))
    case Ok(row) => match ReadRow(columns, row, codec) case Ok(e) => Ok(e) case Err(e) => Err(Unreadable(e))
  }

  /** The entity shows the row: every column if none was chosen, otherwise the id and the chosen ones. */
  ghost predicate ShowsRow(fields: seq<Column>, row: Row, codec: Codec, e: Entity) {
    forall c :: IsAccountColumn(c) ==> e.Field(c) == if c == ID || c in fields || fields == [] then Meaning(c, row(c), codec) else Zero(c)
  }

  lemma UpdatedRowIsShown(fields: seq<Column>, row: Row, codec: Codec)
    requires FitsSchema(row, codec)
    ensures var r := ReadUpdated(SelectedWithId(fields, Columns(), None), Ok(row), codec);
            r.Ok? && ShowsRow(fields, row, codec, r.value)
  {
    var columns := SelectedWithId(fields, Columns(), None);
    ReadIsProjection(columns, row, codec);
    forall c | IsAccountColumn(c) ensures c in columns <==> c == ID || c in fields || fields == [] {
      if fields == [] { ColumnsAreComplete(c); } else { ProjectionHasIdOnce(fields, Columns(), None); }
    }
  }

  class AccountUpdateOne {
    const mutation: AccountMutation
    const id: Option<int>
    const fields: seq<Column>
    var done: bool

    constructor (m: AccountMutation, id: Option<int>, fields: seq<Column>)
      ensures mutation == m && this.id == id && this.fields == fields && !done
    {
      mutation, this.id, this.fields, done := m, id, fields, false;
    }

    /** The columns to read back, the id first; or the first one that is not a column. */
    method Selection() returns (r: Result<seq<Column>, SaveError>)
      ensures r.Ok? ==> (forall c :: c in fields ==> IsAccountColumn(c)) && r.value == SelectedWithId(fields, Columns(), None)
      ensures r.Err? ==> r.error.UnknownField? && IsFirstUnknown(fields, r.error.c)
    {
      if |fields| == 0 {
        return Ok(Columns());
      }
      var columns := [ID];
      for i := 0 to |fields|
        invariant columns == [ID] + Without(fields[..i], ID)
        invariant forall j :: 0 <= j < i ==> IsAccountColumn(fields[j])
      {
        if !IsAccountColumn(fields[i]) {
          return Err(UnknownField(fields[i]));
        }
        assert fields[..i+1][..i] == fields[..i];
        if fields[i] != ID {
          columns := columns + [fields[i]];
        }
      }
      assert fields[..|fields|] == fields;
      r := Ok(columns);
    }

    /** The `SetField`, `AddField` and `ClearField` calls. */
    method FieldPart() returns (plan: FieldPlan)
      ensures plan == FieldsOf(mutation.Pending())
    {
      var columns := UpdateColumns();
      plan := FieldPlan([], [], []);
      for i := 0 to |columns|
        invariant plan.written == SpecFields(columns[..i], mutation.values)
        invariant plan.added == SpecFields(columns[..i], mutation.added)
        invariant plan.cleared == Cleared(columns[..i], mutation.clearedFields)
      {
        var c := columns[i];
        assert columns[..i+1][..i] == columns[..i];
        if c in mutation.values {
          plan := plan.(written := plan.written + [FieldSpec(c, TypeOf(c), mutation.values[c])]);
        }
        if c in mutation.added {
          plan := plan.(added := plan.added + [FieldSpec(c, TypeOf(c), mutation.added[c])]);
        }
        if c in mutation.clearedFields {
          plan := plan.(cleared := plan.cleared + [c]);
        }
      }
      assert columns[..|columns|] == columns;
    }

    /** The clear and add lists of the edges: groups, proxy, usage logs. */
    method EdgePart(d: JoinDefaults) returns (plan: EdgePlan)
      ensures IsEdgePlan(mutation.Pending(), d, plan)
    {
      var clear, add, removedGroups, groupIDs := GroupsPart(d);
      if PROXY_ID in mutation.clearedFields || mutation.clearedProxy {
        clear := clear + [ChangeOf(Proxy, [], d)];
      }
      if mutation.proxy.Some? {
        add := add + [ChangeOf(Proxy, [mutation.proxy.value], d)];
      }
      var clearLogs, addLogs, removedLogs, logIDs := UsageLogsPart(d);
      plan := EdgePlan(clear + clearLogs, add + addLogs);
      ghost var u, o := mutation.Pending(), Orders(removedGroups, groupIDs, removedLogs, logIDs);
      assert ListsAll(o, u) && plan == EdgesOf(u, o, d);
    }

    /** The three blocks of the groups edge, and the orders in which its sets were listed. */
    method GroupsPart(d: JoinDefaults)
      returns (clear: seq<EdgeChange>, add: seq<EdgeChange>, removed: seq<int>, ids: seq<int>)
      ensures Lists(removed, mutation.groups.removed) && Lists(ids, mutation.groups.ids)
      ensures clear == ClearToMany(Groups, mutation.groups.cleared, removed, d) && add == AddAny(Groups, ids, d)
    {
      clear, add := [], [];
      if mutation.groups.cleared {
        clear := clear + [ChangeOf(Groups, [], d)];
      }
      removed := Range(mutation.groups.removed);
      if |removed| > 0 && !mutation.groups.cleared {
        clear := clear + [ChangeOf(Groups, removed, d)];
      }
      ids := Range(mutation.groups.ids);
      if |ids| > 0 {
        add := add + [ChangeOf(Groups, ids, d)];
      }
    }

    /** The three blocks of the usage logs edge. */
    method UsageLogsPart(d: JoinDefaults)
      returns (clear: seq<EdgeChange>, add: seq<EdgeChange>, removed: seq<int>, ids: seq<int>)
      ensures Lists(removed, mutation.usageLogs.removed) && Lists(ids, mutation.usageLogs.ids)
      ensures clear == ClearToMany(UsageLogs, mutation.usageLogs.cleared, removed, d) && add == AddAny(UsageLogs, ids, d)
    {
      clear, add := [], [];
      if mutation.usageLogs.cleared {
        clear := clear + [ChangeOf(UsageLogs, [], d)];
      }
      removed := Range(mutation.usageLogs.removed);
      if |removed| > 0 && !mutation.usageLogs.cleared {
        clear := clear + [ChangeOf(UsageLogs, removed, d)];
      }
      ids := Range(mutation.usageLogs.ids);
      if |ids| > 0 {
        add := add + [ChangeOf(UsageLogs, ids, d)];
      }
    }

    /**
      As for a whole update, but it needs an id and the columns asked for must exist; and it returns the
      updated row, read back through those columns.
     */
    method SqlSave(v: Validators, d: JoinDefaults, codec: Codec, driver: UpdateSpec -> Result<Row, DriverError>)
      returns (r: Result<Entity, SaveError>, ghost sent: Option<UpdateSpec>)
      modifies `done
      ensures var u, rejected := mutation.Pending(), CheckUpdate(mutation.Pending().values, v);
              if rejected.Some? then sent == None && r == Err(RejectedValue(rejected.value))
              else if id.None? then sent == None && r == Err(MissingID)
              else if exists c :: c in fields && !IsAccountColumn(c) then
                sent == None && r.Err? && r.error.UnknownField? && IsFirstUnknown(fields, r.error.c)
              else
                var columns := SelectedWithId(fields, Columns(), None);
                && sent.Some? && IsPlanFor(u, d, id, columns, sent.value)
                && r == ReadUpdated(columns, driver(sent.value), codec)
                && (driver(sent.value).Err? ==> r == Err(Failed(driver(sent.value).error)))
                && (driver(sent.value).Ok? && FitsSchema(driver(sent.value).value, codec) ==>
                      r.Ok? && ShowsRow(fields, driver(sent.value).value, codec, r.value))
      ensures done == (old(done) || r.Ok?)
    {
      var rejected := CheckUpdate(mutation.Pending().values, v);
      if rejected.Some? {
        return Err(RejectedValue(rejected.value)), None;
      }
      if id.None? {
        return Err(MissingID), None;
      }
      var columns := Selection();
      if columns.Err? {
        return Err(columns.error), None;
      }
      var plan := FieldPart();
      var edges := EdgePart(d);
      var spec := UpdateSpec(id, columns.value, plan, edges, mutation.predicates);
      sent := Some(spec);
      r := ReadUpdated(columns.value, driver(spec), codec);
      if driver(spec).Ok? && FitsSchema(driver(spec).value, codec) {
        UpdatedRowIsShown(this.fields, driver(spec).value, codec);
      }
      if r.Ok? {
        done := true;
      }
    }
  }

  // ---------- From calls to the database ----------

  ghost predicate SameNodes(p: EdgeChange, q: EdgeChange) {
    p.edge == q.edge && p.joinFields == q.joinFields && SetOf(p.nodes) == SetOf(q.nodes) && |p.nodes| == |q.nodes|
  }

  ghost predicate SameChanges(p: seq<EdgeChange>, q: seq<EdgeChange>) {
    |p| == |q| && forall k :: 0 <= k < |p| ==> SameNodes(p[k], q[k])
  }

  /**
    Any two plans for the same mutation, whichever builder sends them and however it ranges over its sets,
    have the same fields and conditions, and list the same edges in the same order with the same targets.
   */
  lemma PlansForOneMutationAgree(u: Update, d: JoinDefaults, id: Option<int>, columns: seq<Column>, spec: UpdateSpec,
                                 id': Option<int>, columns': seq<Column>, spec': UpdateSpec)
    requires IsPlanFor(u, d, id, columns, spec) && IsPlanFor(u, d, id', columns', spec')
    ensures spec.fields == spec'.fields && spec.predicates == spec'.predicates
    ensures SameChanges(spec.edges.clear, spec'.edges.clear) && SameChanges(spec.edges.add, spec'.edges.add)
  {
    var o :| ListsAll(o, u) && spec.edges == EdgesOf(u, o, d);
    var o' :| ListsAll(o', u) && spec'.edges == EdgesOf(u, o', d);
    SamePart(Groups, u.groups, o.removedGroups, o'.removedGroups, o.groups, o'.groups, d);
    SamePart(UsageLogs, u.usageLogs, o.removedLogs, o'.removedLogs, o.logs, o'.logs, d);
    var p := if u.ProxyChange().cleared then [ChangeOf(Proxy, [], d)] else [];
    var q := if u.proxy.Some? then [ChangeOf(Proxy, [u.proxy.value], d)] else [];
    SameThree(ClearToMany(Groups, u.groups.cleared, o.removedGroups, d), ClearToMany(Groups, u.groups.cleared, o'.removedGroups, d), p,
              ClearToMany(UsageLogs, u.usageLogs.cleared, o.removedLogs, d), ClearToMany(UsageLogs, u.usageLogs.cleared, o'.removedLogs, d));
    SameThree(AddAny(Groups, o.groups, d), AddAny(Groups, o'.groups, d), q, AddAny(UsageLogs, o.logs, d), AddAny(UsageLogs, o'.logs, d));
  }

  lemma SamePart(edge: EdgeName, s: EdgeState, removed: seq<int>, removed': seq<int>, ids: seq<int>, ids': seq<int>, d: JoinDefaults)
    requires Lists(removed, s.removed) && Lists(removed', s.removed) && Lists(ids, s.ids) && Lists(ids', s.ids)
    ensures SameChanges(ClearToMany(edge, s.cleared, removed, d), ClearToMany(edge, s.cleared, removed', d))
    ensures SameChanges(AddAny(edge, ids, d), AddAny(edge, ids', d))
  {
  }

  lemma SameThree(g: seq<EdgeChange>, g': seq<EdgeChange>, p: seq<EdgeChange>, l: seq<EdgeChange>, l': seq<EdgeChange>)
    requires SameChanges(g, g') && SameChanges(l, l')
    ensures SameChanges(g + p + l, g' + p + l')
  {
    forall k | 0 <= k < |g + p + l| ensures SameNodes((g + p + l)[k], (g' + p + l')[k]) {
      if k < |g| {
        assert SameNodes(g[k], g'[k]);
      } else if k >= |g| + |p| {
        assert SameNodes(l[k - |g| - |p|], l'[k - |g| - |p|]);
      }
    }
  }

  /**
    From the calls on a mutation to the database.  Whatever calls were made and whichever builder saves:
    every field ends up as if its calls had taken effect one by one; so does every to-many edge, but for the
    ids added before a clear and not mentioned after it; and the proxy, unless a pending one is cleared last.
   */
  lemma CallsReachTheDatabase(calls: seq<Call>, u: Update, d: JoinDefaults, id: Option<int>, columns: seq<Column>,
                              spec: UpdateSpec, r: Relations, c: Column, initial: Option<Value>)
    requires (forall k :: 0 <= k < |calls| ==> Callable(calls[k])) && Holds(u, calls) && IsPlanFor(u, d, id, columns, spec)
    requires Stored(c, initial)
    ensures Written(spec.fields, c, initial) == if Updatable(c) then FieldExecuted(initial, FieldCalls(calls, c)) else initial
    ensures var now := Apply(spec.edges, r);
            && now.groups == Executed(r.groups, GroupCalls(calls)) + Revived(GroupCalls(calls))
            && now.usageLogs == Executed(r.usageLogs, UsageLogCalls(calls)) + Revived(UsageLogCalls(calls))
            && now.proxy == ProxyAfter(ProxyCollected(ProxyCalls(calls)), r.proxy)
    ensures spec.predicates == Conditions(calls)
  {
    FieldReaches(calls, u, c, initial);
    EdgesReach(calls, u, d, spec.edges, r);
  }

  lemma FieldReaches(calls: seq<Call>, u: Update, c: Column, initial: Option<Value>)
    requires (forall k :: 0 <= k < |calls| ==> Callable(calls[k])) && Holds(u, calls) && Stored(c, initial)
    ensures Written(FieldsOf(u), c, initial) == if Updatable(c) then FieldExecuted(initial, FieldCalls(calls, c)) else initial
  {
    if Updatable(c) {
      FieldCallsAllowed(calls, c);
      HoldsField(u, calls, c);
      PlanMatchesTheCalls(u, c, FieldCalls(calls, c), initial);
    } else {
      PlanWritesWhatIsHeld(u, c, initial);
    }
  }

  lemma EdgesReach(calls: seq<Call>, u: Update, d: JoinDefaults, plan: EdgePlan, r: Relations)
    requires Holds(u, calls) && IsEdgePlan(u, d, plan)
    ensures var now := Apply(plan, r);
            && now.groups == Executed(r.groups, GroupCalls(calls)) + Revived(GroupCalls(calls))
            && now.usageLogs == Executed(r.usageLogs, UsageLogCalls(calls)) + Revived(UsageLogCalls(calls))
            && now.proxy == ProxyAfter(ProxyCollected(ProxyCalls(calls)), r.proxy)
  {
    var o :| ListsAll(o, u) && plan == EdgesOf(u, o, d);
    PlanGivesWhatIsWanted(u, o, r, d);
    UpdateIsCallsPlusRevived(GroupCalls(calls), r.groups);
    UpdateIsCallsPlusRevived(UsageLogCalls(calls), r.usageLogs);
  }
}
