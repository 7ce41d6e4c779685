/** What inserting a specification's edges, or applying a plan's, does to the neighbours and the join table. */
module InsertedEdges {
  import opened Prelude
  import opened AccountSchema
  import opened AccountCreation
  import opened UpdateMutation
  import opened AccountUpdating

  /** A row of the join table: its plain columns. */
  type JoinRow = map<Column, Value>

  /** The neighbours of an account: groups with their join rows, the proxy, and the usage logs. */
  datatype Neighbourhood = Neighbourhood(groups: map<int, JoinRow>, proxy: Option<int>, usageLogs: set<int>)

  const ALONE := Neighbourhood(map[], None, {})

  function RowOf(fields: seq<FieldSpec>): JoinRow {
    if fields == [] then map[] else RowOf(fields[..|fields|-1])[fields[|fields|-1].column := fields[|fields|-1].value]
  }

  function InsertEdge(n: Neighbourhood, e: EdgeSpec): Neighbourhood {
    match e
    case M2M(targets, joinFields) => n.(groups := n.groups + map g | g in targets :: RowOf(joinFields))
    case M2O(target) => n.(proxy := Some(target))
    case O2M(targets) => n.(usageLogs := n.usageLogs + targets)
  }

  function InsertEdges(n: Neighbourhood, edges: seq<EdgeSpec>): Neighbourhood {
    if edges == [] then n else InsertEdge(InsertEdges(n, edges[..|edges|-1]), edges[|edges|-1])
  }

  /** A row of the join table written by an account has the default priority and creation time, and no other column. */
  function DefaultRow(d: JoinDefaults): JoinRow {
    map[PRIORITY := Int(d.priority), CREATED_AT := Time(d.createdAt)]
  }

  lemma JoinFieldsAreTheDefaults(d: JoinDefaults)
    ensures RowOf(JoinFields(d)) == DefaultRow(d)
    ensures forall i :: 0 <= i < |JoinFields(d)| ==> Fits(JoinFields(d)[i].fieldType, JoinFields(d)[i].value)
  {
    var fields := JoinFields(d);
    assert fields[..1] == [fields[0]] && fields[..1][..0] == [];
    assert RowOf(fields[..1]) == map[PRIORITY := Int(d.priority)];
  }

  lemma OneEdgeMore(n: Neighbourhood, edges: seq<EdgeSpec>, e: EdgeSpec)
    ensures InsertEdges(n, edges + [e]) == InsertEdge(InsertEdges(n, edges), e)
  {
    assert (edges + [e])[..|edges|] == edges;
  }

  /**
    Inserting a created account gives it exactly the groups, the proxy and the usage logs of its mutation,
    and every join row the two defaults; the conflict options are the builder's.
   */
  lemma CreationJoinsItsNeighbours(m: Mutation, setup: Setup)
    ensures InsertEdges(ALONE, SpecOf(m, setup).edges) ==
            Neighbourhood(map g | g in m.groups :: DefaultRow(setup.join), m.proxy, m.usageLogs)
    ensures SpecOf(m, setup).conflict == setup.conflict
  {
    var d := setup.join;
    JoinFieldsAreTheDefaults(d);
    var groups := if m.groups != {} then [M2M(m.groups, JoinFields(d))] else [];
    var proxy := if m.proxy.Some? then [M2O(m.proxy.value)] else [];
    var logs := if m.usageLogs != {} then [O2M(m.usageLogs)] else [];
    assert SpecOf(m, setup).edges == groups + proxy + logs;
    GroupsInserted(m, d, groups);
    ProxyInserted(m, groups, proxy);
    LogsInserted(m, groups + proxy, logs);
  }

  lemma GroupsInserted(m: Mutation, d: JoinDefaults, groups: seq<EdgeSpec>)
    requires groups == if m.groups != {} then [M2M(m.groups, JoinFields(d))] else []
    ensures InsertEdges(ALONE, groups) == Neighbourhood(map g | g in m.groups :: DefaultRow(d), None, {})
  {
    JoinFieldsAreTheDefaults(d);
    if m.groups != {} {
      OneEdgeMore(ALONE, [], groups[0]);
      assert [] + groups == groups;
    }
  }

  lemma ProxyInserted(m: Mutation, before: seq<EdgeSpec>, proxy: seq<EdgeSpec>)
    requires proxy == (if m.proxy.Some? then [M2O(m.proxy.value)] else []) && InsertEdges(ALONE, before).proxy == None
    ensures InsertEdges(ALONE, before + proxy) == InsertEdges(ALONE, before).(proxy := m.proxy)
  {
    if m.proxy.Some? {
      OneEdgeMore(ALONE, before, proxy[0]);
    } else {
      assert before + proxy == before;
    }
  }

  lemma LogsInserted(m: Mutation, before: seq<EdgeSpec>, logs: seq<EdgeSpec>)
    requires logs == (if m.usageLogs != {} then [O2M(m.usageLogs)] else []) && InsertEdges(ALONE, before).usageLogs == {}
    ensures InsertEdges(ALONE, before + logs) == InsertEdges(ALONE, before).(usageLogs := m.usageLogs)
  {
    if m.usageLogs != {} {
      OneEdgeMore(ALONE, before, logs[0]);
    } else {
      assert before + logs == before;
    }
  }

  /** An edge specification comes before another: groups, then the proxy, then the usage logs. */
  predicate Precedes(e: EdgeSpec, f: EdgeSpec) {
    (e.M2M? && !f.M2M?) || (e.M2O? && f.O2M?)
  }

  lemma CreatedEdgesInOrder(m: Mutation, setup: Setup, i: nat, j: nat)
    requires i < j < |SpecOf(m, setup).edges|
    ensures Precedes(SpecOf(m, setup).edges[i], SpecOf(m, setup).edges[j])
  {
  }

  /** The same order for the changes of an update, in which no edge occurs twice. */
  ghost predicate InEdgeOrder(changes: seq<EdgeChange>) {
    forall i, j :: 0 <= i < j < |changes| ==>
      (changes[i].edge == Groups && changes[j].edge != Groups) || (changes[i].edge == Proxy && changes[j].edge == UsageLogs)
  }

  lemma UpdatedEdgesInOrder(u: Update, d: JoinDefaults, plan: EdgePlan)
    requires IsEdgePlan(u, d, plan)
    ensures InEdgeOrder(plan.clear) && InEdgeOrder(plan.add)
  {
    var o :| ListsAll(o, u) && plan == EdgesOf(u, o, d);
    OneChange(Groups, u.groups.cleared, o.removedGroups, o.groups, d);
    OneChange(UsageLogs, u.usageLogs.cleared, o.removedLogs, o.logs, d);
    PartsInOrder(ClearToMany(Groups, u.groups.cleared, o.removedGroups, d), if u.ProxyChange().cleared then [ChangeOf(Proxy, [], d)] else [],
                 ClearToMany(UsageLogs, u.usageLogs.cleared, o.removedLogs, d));
    PartsInOrder(AddAny(Groups, o.groups, d), if u.proxy.Some? then [ChangeOf(Proxy, [u.proxy.value], d)] else [],
                 AddAny(UsageLogs, o.logs, d));
  }

  lemma PartsInOrder(groups: seq<EdgeChange>, proxy: seq<EdgeChange>, logs: seq<EdgeChange>)
    requires |groups| <= 1 && |proxy| <= 1 && |logs| <= 1
    requires (groups != [] ==> groups[0].edge == Groups) && (proxy != [] ==> proxy[0].edge == Proxy)
    requires logs != [] ==> logs[0].edge == UsageLogs
    ensures InEdgeOrder(groups + proxy + logs)
  {
  }

  /** In an update, every groups edge carries the defaults of the join table, and no other edge carries fields. */
  lemma UpdatePlansCarryTheDefaults(u: Update, d: JoinDefaults, plan: EdgePlan, e: EdgeChange)
    requires IsEdgePlan(u, d, plan) && (e in plan.clear || e in plan.add)
    ensures RowOf(e.joinFields) == if e.edge == Groups then DefaultRow(d) else map[]
  {
    JoinFieldsAreTheDefaults(d);
    PlanIsOfChanges(u, d, plan);
  }

  /** Every change is made by `ChangeOf`. */
  ghost predicate AreChanges(changes: seq<EdgeChange>, d: JoinDefaults) {
    forall i :: 0 <= i < |changes| ==> changes[i] == ChangeOf(changes[i].edge, changes[i].nodes, d)
  }

  lemma AreChangesTogether(p: seq<EdgeChange>, q: seq<EdgeChange>, r: seq<EdgeChange>, d: JoinDefaults)
    requires AreChanges(p, d) && AreChanges(q, d) && AreChanges(r, d)
    ensures AreChanges(p + q + r, d)
  {
  }

  lemma PlanIsOfChanges(u: Update, d: JoinDefaults, plan: EdgePlan)
    requires IsEdgePlan(u, d, plan)
    ensures AreChanges(plan.clear, d) && AreChanges(plan.add, d)
  {
    var o :| ListsAll(o, u) && plan == EdgesOf(u, o, d);
    OneChange(Groups, u.groups.cleared, o.removedGroups, o.groups, d);
    OneChange(UsageLogs, u.usageLogs.cleared, o.removedLogs, o.logs, d);
    AreChangesTogether(ClearToMany(Groups, u.groups.cleared, o.removedGroups, d), if u.ProxyChange().cleared then [ChangeOf(Proxy, [], d)] else [],
                       ClearToMany(UsageLogs, u.usageLogs.cleared, o.removedLogs, d), d);
    AreChangesTogether(AddAny(Groups, o.groups, d), if u.proxy.Some? then [ChangeOf(Proxy, [u.proxy.value], d)] else [], AddAny(UsageLogs, o.logs, d), d);
  }

  lemma OneChange(edge: EdgeName, cleared: bool, removed: seq<int>, ids: seq<int>, d: JoinDefaults)
    ensures var clear, add := ClearToMany(edge, cleared, removed, d), AddAny(edge, ids, d);
            && |clear| <= 1 && (clear != [] ==> clear[0].edge == edge) && AreChanges(clear, d)
            && |add| <= 1 && (add != [] ==> add[0].edge == edge) && AreChanges(add, d)
  {
  }
}
