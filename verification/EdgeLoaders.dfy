/**
  The eager-loading algorithms of the generated query builders.

  Each loader of the program receives the loaded nodes and an `assign` closure that writes one edge
  field of a node.  A loader below sees a node as the part of it that it uses: the id or foreign key,
  and the heap object holding that edge field.  Every generated loader is one of the three methods
  LoadManyToMany, LoadManyToOne and LoadOneToMany at particular types.
 */
module EdgeLoaders {
  import opened Prelude

  /** A field holding a list of neighbours, such as `Edges.Groups`. */
  class EdgeList<E> {
    var items: seq<E>

    constructor ()
      ensures items == []
    {
      items := [];
    }
  }

  /** A field holding at most one neighbour, such as `Edges.Proxy`. */
  class EdgeOne<E> {
    var item: Option<E>

    constructor ()
      ensures item == None
    {
      item := None;
    }
  }

  datatype LoadError =
    | QueryFailed(code: int)
    | UnexpectedNode(id: int)
    | UnexpectedForeignKey(fk: int)
    | NilForeignKey

  datatype Outcome = Pass | Fail(error: LoadError)

  /** A node as a to-many loader uses it. */
  datatype Node<E> = Node(id: int, edge: EdgeList<E>)

  /** A node as a to-one loader uses it; the foreign key is nil when the column is NULL. */
  datatype Holder<E> = Holder(fk: Option<int>, edge: EdgeOne<E>)

  /** One row of the many-to-many join: the owner column in front of the neighbour's own columns. */
  datatype LinkRow<E> = LinkRow(owner: int, entity: E)

  // ---------- Identifier lists ----------

  ghost function IdsOf<E>(nodes: seq<Node<E>>): (r: seq<int>)
    ensures |r| == |nodes| && forall i :: 0 <= i < |nodes| ==> r[i] == nodes[i].id
  {
    seq(|nodes|, i requires 0 <= i < |nodes| => nodes[i].id)
  }

  /** Nodes are separate heap objects, whatever their ids. */
  ghost predicate Separate<E>(nodes: seq<Node<E>>) {
    forall i, j :: 0 <= i < j < |nodes| ==> nodes[i].edge != nodes[j].edge
  }

  /** Position `i` is the one an id-keyed map ends up holding: no later position has its id. */
  ghost predicate IsLast(ids: seq<int>, i: nat)
    requires i < |ids|
  {
    forall j :: i < j < |ids| ==> ids[j] != ids[i]
  }

  ghost predicate Distinct(ids: seq<int>) {
    forall i, j :: 0 <= i < j < |ids| ==> ids[i] != ids[j]
  }

  /** A map filled by `byID[n.id] = n` over the nodes in order. */
  ghost predicate IndexesById<E>(byID: map<int, Node<E>>, nodes: seq<Node<E>>) {
    && (forall i :: 0 <= i < |nodes| ==> nodes[i].id in byID)
    && (forall a :: a in byID ==> byID[a] in nodes && byID[a].id == a)
    && (forall i :: 0 <= i < |nodes| && IsLast(IdsOf(nodes), i) ==> byID[nodes[i].id] == nodes[i])
  }

  /** The map after `byID[n.id] = n` over the nodes in order. */
  ghost function ById<E>(nodes: seq<Node<E>>): map<int, Node<E>> {
    if nodes == [] then map[] else ById(nodes[..|nodes|-1])[nodes[|nodes|-1].id := nodes[|nodes|-1]]
  }

  lemma {:induction false} ByIdIndexes<E>(nodes: seq<Node<E>>)
    ensures IndexesById(ById(nodes), nodes)
  {
    if nodes != [] {
      var before, n := nodes[..|nodes|-1], nodes[|nodes|-1];
      ByIdIndexes(before);
      IndexExtend(ById(before), before, n);
      assert nodes == before + [n];
    }
  }

  lemma IndexExtend<E>(byID: map<int, Node<E>>, nodes: seq<Node<E>>, n: Node<E>)
    requires IndexesById(byID, nodes)
    ensures IndexesById(byID[n.id := n], nodes + [n])
  {
    var ids, ids' := IdsOf(nodes), IdsOf(nodes + [n]);
    forall i | 0 <= i < |nodes + [n]| && IsLast(ids', i)
      ensures byID[n.id := n][(nodes + [n])[i].id] == (nodes + [n])[i]
    {
      if i < |nodes| {
        assert ids'[|nodes|] != ids'[i];
        forall j | i < j < |ids| ensures ids[j] != ids[i] { assert ids'[j] != ids'[i]; }
      }
    }
  }

  // ---------- Many to many ----------

  ghost predicate Linked<E>(rows: seq<LinkRow<E>>, key: E -> int, owner: int, k: int) {
    exists j :: 0 <= j < |rows| && rows[j].owner == owner && key(rows[j].entity) == k
  }

  ghost predicate Known<E>(rows: seq<LinkRow<E>>, key: E -> int, k: int) {
    exists j :: 0 <= j < |rows| && key(rows[j].entity) == k
  }

  /** The neighbour objects the row callback creates: the first row of each neighbour id. */
  ghost function Firsts<E>(rows: seq<LinkRow<E>>, key: E -> int): seq<E> {
    if rows == [] then []
    else
      var before, e := rows[..|rows|-1], rows[|rows|-1].entity;
      Firsts(before, key) + if Known(before, key, key(e)) then [] else [e]
  }

  /** The neighbours, in their own order, that some row pairs with an owner. */
  ghost function Joined<E>(rows: seq<LinkRow<E>>, key: E -> int, owner: int, es: seq<E>): seq<E> {
    if es == [] then []
    else
      var e := es[|es|-1];
      Joined(rows, key, owner, es[..|es|-1]) + if Linked(rows, key, owner, key(e)) then [e] else []
  }

  /** What a many-to-many load leaves in node `i`. */
  ghost function ManyToManyEdge<E>(ids: seq<int>, i: nat, rows: seq<LinkRow<E>>, key: E -> int, es: seq<E>): seq<E>
    requires i < |ids|
  {
    if IsLast(ids, i) then Joined(rows, key, ids[i], es) else []
  }

  ghost predicate AllKnown<E>(rows: seq<LinkRow<E>>, key: E -> int, es: seq<E>) {
    forall k :: 0 <= k < |es| ==> Known(rows, key, key(es[k]))
  }

  ghost predicate UnknownNode<E>(rows: seq<LinkRow<E>>, key: E -> int, es: seq<E>, e: LoadError) {
    exists k :: 0 <= k < |es| && AllKnown(rows, key, es[..k]) && !Known(rows, key, key(es[k])) && e == UnexpectedNode(key(es[k]))
  }

  /** The per-neighbour node sets agree with the rows seen so far. */
  ghost predicate SetsMatch<E>(nids: map<int, set<Node<E>>>, byID: map<int, Node<E>>, rows: seq<LinkRow<E>>, key: E -> int) {
    && (forall g :: g in nids <==> Known(rows, key, g))
    && (forall g :: g in nids ==> forall n :: n in nids[g] ==> n.id in byID && byID[n.id] == n && Linked(rows, key, n.id, g))
    && (forall g, a :: g in nids && a in byID && Linked(rows, key, a, g) ==> byID[a] in nids[g])
  }

  ghost predicate OwnersAmong<E>(rows: seq<LinkRow<E>>, ids: seq<int>) {
    forall k :: 0 <= k < |rows| ==> rows[k].owner in ids
  }

  method LoadManyToMany<E>(
    nodes: seq<Node<E>>, key: E -> int,
    fetch: seq<int> -> Result<seq<LinkRow<E>>, int>,
    intercept: seq<E> -> Result<seq<E>, int>) returns (r: Outcome)
    requires Separate(nodes)
    requires fetch(IdsOf(nodes)).Ok? ==> OwnersAmong(fetch(IdsOf(nodes)).value, IdsOf(nodes))
    modifies set n | n in nodes :: n.edge
    ensures
      match fetch(IdsOf(nodes))
      case Err(code) => r == Fail(QueryFailed(code))
      case Ok(rows) =>
        match intercept(Firsts(rows, key))
        case Err(code) => r == Fail(QueryFailed(code))
        case Ok(es) =>
          && (r.Pass? <==> AllKnown(rows, key, es))
          && (r.Fail? ==> UnknownNode(rows, key, es, r.error))
          && (r.Pass? ==> forall i :: 0 <= i < |nodes| ==>
                nodes[i].edge.items == ManyToManyEdge(IdsOf(nodes), i, rows, key, es))
  {
    var edgeIDs, byID := IndexNodes(nodes);
    var fetched := fetch(edgeIDs);
    if fetched.Err? {
      return Fail(QueryFailed(fetched.error));
    }
    var rows := fetched.value;
    var neighbors, nids := GroupRows(rows, byID, key);
    var answer := intercept(neighbors);
    if answer.Err? {
      return Fail(QueryFailed(answer.error));
    }
    r := Distribute(nodes, key, rows, byID, nids, answer.value);
  }

  /** Collect the ids, index the nodes by id and run `init`, which empties the edge of every node. */
  method IndexNodes<E>(nodes: seq<Node<E>>) returns (ids: seq<int>, byID: map<int, Node<E>>)
    modifies set n | n in nodes :: n.edge
    ensures ids == IdsOf(nodes)
    ensures IndexesById(byID, nodes)
    ensures forall n :: n in nodes ==> n.edge.items == []
  {
    ids, byID := [], map[];
    for i := 0 to |nodes|
      invariant ids == IdsOf(nodes[..i]) && byID == ById(nodes[..i])
      invariant forall k :: 0 <= k < i ==> nodes[k].edge.items == []
    {
      assert nodes[..i+1][..i] == nodes[..i];
      ids := ids + [nodes[i].id];
      byID := byID[nodes[i].id := nodes[i]];
      nodes[i].edge.items := [];
    }
    assert nodes[..|nodes|] == nodes;
    ByIdIndexes(nodes);
  }

  /** The row callback: the first row of a neighbour creates it, every row records its owner. */
  method GroupRows<E>(rows: seq<LinkRow<E>>, byID: map<int, Node<E>>, key: E -> int)
    returns (neighbors: seq<E>, nids: map<int, set<Node<E>>>)
    requires forall k :: 0 <= k < |rows| ==> rows[k].owner in byID
    requires forall a :: a in byID ==> byID[a].id == a
    ensures neighbors == Firsts(rows, key)
    ensures SetsMatch(nids, byID, rows, key)
  {
    neighbors, nids := [], map[];
    for k := 0 to |rows|
      invariant neighbors == Firsts(rows[..k], key)
      invariant SetsMatch(nids, byID, rows[..k], key)
    {
      var outValue, inValue := rows[k].owner, key(rows[k].entity);
      SetsExtend(nids, byID, rows[..k], rows[k], key);
      assert rows[..k+1][..k] == rows[..k];
      assert rows[..k+1] == rows[..k] + [rows[k]];
      if inValue !in nids {
        nids := nids[inValue := {byID[outValue]}];
        neighbors := neighbors + [rows[k].entity];
      } else {
        nids := nids[inValue := nids[inValue] + {byID[outValue]}];
      }
    }
    assert rows[..|rows|] == rows;
  }

  lemma LinkedExtend<E>(rows: seq<LinkRow<E>>, row: LinkRow<E>, key: E -> int, owner: int, g: int)
    ensures Linked(rows + [row], key, owner, g) <==> Linked(rows, key, owner, g) || (row.owner == owner && key(row.entity) == g)
    ensures Known(rows + [row], key, g) <==> Known(rows, key, g) || key(row.entity) == g
  {
    var rows' := rows + [row];
    assert rows'[|rows|] == row;
    if Linked(rows, key, owner, g) {
      var j :| 0 <= j < |rows| && rows[j].owner == owner && key(rows[j].entity) == g;
      assert rows'[j] == rows[j];
    }
    if Known(rows, key, g) {
      var j :| 0 <= j < |rows| && key(rows[j].entity) == g;
      assert rows'[j] == rows[j];
    }
  }

  lemma SetsExtend<E>(nids: map<int, set<Node<E>>>, byID: map<int, Node<E>>, rows: seq<LinkRow<E>>, row: LinkRow<E>, key: E -> int)
    requires SetsMatch(nids, byID, rows, key) && row.owner in byID && byID[row.owner].id == row.owner
    ensures var g := key(row.entity);
            SetsMatch(nids[g := if g in nids then nids[g] + {byID[row.owner]} else {byID[row.owner]}], byID, rows + [row], key)
  {
    var rows' := rows + [row];
    var g0 := key(row.entity);
    forall g, a
      ensures Linked(rows', key, a, g) <==> Linked(rows, key, a, g) || (row.owner == a && g0 == g)
    {
      LinkedExtend(rows, row, key, a, g);
    }
    forall g
      ensures Known(rows', key, g) <==> Known(rows, key, g) || g0 == g
    {
      LinkedExtend(rows, row, key, row.owner, g);
    }
    forall g, a | Linked(rows, key, a, g)
      ensures Known(rows, key, g)
    {
    }
  }

  /** Hand every neighbour to the nodes recorded for it. */
  method Distribute<E>(
    nodes: seq<Node<E>>, key: E -> int, ghost rows: seq<LinkRow<E>>,
    ghost byID: map<int, Node<E>>, nids: map<int, set<Node<E>>>, neighbors: seq<E>) returns (r: Outcome)
    requires Separate(nodes) && IndexesById(byID, nodes) && SetsMatch(nids, byID, rows, key)
    requires forall n :: n in nodes ==> n.edge.items == []
    modifies set n | n in nodes :: n.edge
    ensures r.Pass? <==> AllKnown(rows, key, neighbors)
    ensures r.Fail? ==> UnknownNode(rows, key, neighbors, r.error)
    ensures r.Pass? ==> forall i :: 0 <= i < |nodes| ==>
              nodes[i].edge.items == ManyToManyEdge(IdsOf(nodes), i, rows, key, neighbors)
  {
    for k := 0 to |neighbors|
      invariant AllKnown(rows, key, neighbors[..k])
      invariant forall i :: 0 <= i < |nodes| ==>
                  nodes[i].edge.items == ManyToManyEdge(IdsOf(nodes), i, rows, key, neighbors[..k])
    {
      var n := neighbors[k];
      assert key(n) in nids <==> Known(rows, key, key(n));
      if key(n) !in nids {
        FirstUnknown(rows, key, neighbors, k);
        return Fail(UnexpectedNode(key(n)));
      }
      GiveToOwners(nodes, key, rows, byID, nids, n);
      DistributeStep(IdsOf(nodes), rows, key, neighbors, k);
      AllKnownStep(rows, key, neighbors, k);
    }
    assert neighbors[..|neighbors|] == neighbors;
    r := Pass;
  }

  /** One neighbour goes to the nodes that own a row of it. */
  method GiveToOwners<E>(
    ghost nodes: seq<Node<E>>, key: E -> int, ghost rows: seq<LinkRow<E>>,
    ghost byID: map<int, Node<E>>, nids: map<int, set<Node<E>>>, n: E)
    requires Separate(nodes) && IndexesById(byID, nodes) && SetsMatch(nids, byID, rows, key) && key(n) in nids
    modifies set m | m in nodes :: m.edge
    ensures forall i :: 0 <= i < |nodes| ==>
              nodes[i].edge.items == old(nodes[i].edge.items) +
                if IsLast(IdsOf(nodes), i) && Linked(rows, key, IdsOf(nodes)[i], key(n)) then [n] else []
  {
    MembersAreLinkedNodes(nodes, byID, nids, rows, key, key(n));
    AssignToAll(nodes, nids[key(n)], n);
  }

  lemma FirstUnknown<E>(rows: seq<LinkRow<E>>, key: E -> int, es: seq<E>, k: nat)
    requires k < |es| && AllKnown(rows, key, es[..k]) && !Known(rows, key, key(es[k]))
    ensures !AllKnown(rows, key, es) && UnknownNode(rows, key, es, UnexpectedNode(key(es[k])))
  {
  }

  lemma AllKnownStep<E>(rows: seq<LinkRow<E>>, key: E -> int, es: seq<E>, k: nat)
    requires k < |es| && AllKnown(rows, key, es[..k]) && Known(rows, key, key(es[k]))
    ensures AllKnown(rows, key, es[..k+1])
  {
  }

  lemma DistributeStep<E>(ids: seq<int>, rows: seq<LinkRow<E>>, key: E -> int, es: seq<E>, k: nat)
    requires k < |es|
    ensures forall i :: 0 <= i < |ids| ==>
              ManyToManyEdge(ids, i, rows, key, es[..k+1]) == ManyToManyEdge(ids, i, rows, key, es[..k])
                + if IsLast(ids, i) && Linked(rows, key, ids[i], key(es[k])) then [es[k]] else []
  {
    forall i | 0 <= i < |ids|
      ensures Joined(rows, key, ids[i], es[..k+1]) ==
              Joined(rows, key, ids[i], es[..k]) + if Linked(rows, key, ids[i], key(es[k])) then [es[k]] else []
    {
      var upTo := es[..k+1];
      assert upTo[..k] == es[..k] && upTo[k] == es[k];
    }
  }

  /** `assign(kn, n)` for every node of a set, in whatever order the set is ranged over. */
  method AssignToAll<E>(ghost nodes: seq<Node<E>>, members: set<Node<E>>, n: E)
    requires Separate(nodes)
    requires forall m :: m in members ==> m in nodes
    modifies set m | m in nodes :: m.edge
    ensures forall i :: 0 <= i < |nodes| ==>
              nodes[i].edge.items == old(nodes[i].edge.items) + if nodes[i] in members then [n] else []
  {
    var todo := members;
    while todo != {}
      invariant todo <= members
      invariant forall i :: 0 <= i < |nodes| ==>
                  nodes[i].edge.items == old(nodes[i].edge.items) + if nodes[i] in members - todo then [n] else []
      decreases todo
    {
      var kn :| kn in todo;
      kn.edge.items := kn.edge.items + [n];
      todo := todo - {kn};
    }
  }

  lemma MembersAreLinkedNodes<E>(nodes: seq<Node<E>>, byID: map<int, Node<E>>, nids: map<int, set<Node<E>>>,
                                 rows: seq<LinkRow<E>>, key: E -> int, g: int)
    requires Separate(nodes) && IndexesById(byID, nodes) && SetsMatch(nids, byID, rows, key) && g in nids
    ensures forall n :: n in nids[g] ==> n in nodes
    ensures var ids := IdsOf(nodes);
            forall i :: 0 <= i < |nodes| ==>
              (nodes[i] in nids[g] <==> IsLast(ids, i) && Linked(rows, key, ids[i], g))
  {
    forall i | 0 <= i < |nodes|
      ensures byID[nodes[i].id] == nodes[i] <==> IsLast(IdsOf(nodes), i)
    {
      IndexedIsLast(nodes, byID, nodes[i].id);
    }
  }

  lemma {:induction false} OneIsLast(ids: seq<int>, i: nat)
    requires i < |ids|
    ensures exists j :: i <= j < |ids| && ids[j] == ids[i] && IsLast(ids, j)
    decreases |ids| - i
  {
    if !IsLast(ids, i) {
      var j :| i < j < |ids| && ids[j] == ids[i];
      OneIsLast(ids, j);
    }
  }

  // ---------- Many to one ----------

  ghost predicate SeparateHolders<E>(nodes: seq<Holder<E>>) {
    forall i, j :: 0 <= i < j < |nodes| ==> nodes[i].edge != nodes[j].edge
  }

  ghost function KeysOf<E>(nodes: seq<Holder<E>>): (r: seq<Option<int>>)
    ensures |r| == |nodes| && forall i :: 0 <= i < |nodes| ==> r[i] == nodes[i].fk
  {
    seq(|nodes|, i requires 0 <= i < |nodes| => nodes[i].fk)
  }

  /** The id list of the batched query: every non-nil foreign key, once, in order of first occurrence. */
  ghost function Requested(fks: seq<Option<int>>): seq<int> {
    if fks == [] then []
    else
      var before, fk := Requested(fks[..|fks|-1]), fks[|fks|-1];
      if fk.None? || fk.value in before then before else before + [fk.value]
  }

  /** The row a foreign key resolves to; a later row with the same id replaces an earlier one. */
  ghost function RowWith<E>(rows: seq<E>, key: E -> int, k: int): Option<E> {
    if rows == [] then None
    else if key(rows[|rows|-1]) == k then Some(rows[|rows|-1])
    else RowWith(rows[..|rows|-1], key, k)
  }

  /** What a many-to-one load leaves in a node that held `was`. */
  ghost function ManyToOneEdge<E>(fk: Option<int>, rows: seq<E>, key: E -> int, was: Option<E>): Option<E> {
    if fk.Some? && RowWith(rows, key, fk.value).Some? then RowWith(rows, key, fk.value) else was
  }

  ghost predicate AllRequested<E>(ids: seq<int>, rows: seq<E>, key: E -> int) {
    forall k :: 0 <= k < |rows| ==> key(rows[k]) in ids
  }

  ghost predicate NotRequested<E>(ids: seq<int>, rows: seq<E>, key: E -> int, e: LoadError) {
    exists k :: 0 <= k < |rows| && AllRequested(ids, rows[..k], key) && key(rows[k]) !in ids && e == UnexpectedForeignKey(key(rows[k]))
  }

  ghost predicate GroupsByKey<E>(nodeids: map<int, seq<Holder<E>>>, nodes: seq<Holder<E>>) {
    && (forall f :: f in nodeids <==> f in Requested(KeysOf(nodes)))
    && (forall f :: f in nodeids ==> forall h :: h in nodeids[f] ==> h in nodes && h.fk == Some(f))
    && (forall h :: h in nodes && h.fk.Some? ==> h.fk.value in nodeids && h in nodeids[h.fk.value])
  }

  method LoadManyToOne<E>(nodes: seq<Holder<E>>, key: E -> int, fetch: seq<int> -> Result<seq<E>, int>) returns (r: Outcome)
    requires SeparateHolders(nodes)
    modifies set n | n in nodes :: n.edge
    ensures Requested(KeysOf(nodes)) == [] ==> r == Pass && forall n :: n in nodes ==> n.edge.item == old(n.edge.item)
    ensures Requested(KeysOf(nodes)) != [] ==>
              match fetch(Requested(KeysOf(nodes)))
              case Err(code) => r == Fail(QueryFailed(code))
              case Ok(rows) =>
                && (r.Pass? <==> AllRequested(Requested(KeysOf(nodes)), rows, key))
                && (r.Fail? ==> NotRequested(Requested(KeysOf(nodes)), rows, key, r.error))
                && (r.Pass? ==> forall n :: n in nodes ==>
                      n.edge.item == ManyToOneEdge(n.fk, rows, key, old(n.edge.item)))
  {
    var ids, nodeids := GroupByForeignKey(nodes);
    if |ids| == 0 {
      return Pass;
    }
    var fetched := fetch(ids);
    if fetched.Err? {
      return Fail(QueryFailed(fetched.error));
    }
    var neighbors := fetched.value;
    for k := 0 to |neighbors|
      invariant AllRequested(ids, neighbors[..k], key)
      invariant forall n :: n in nodes ==> n.edge.item == ManyToOneEdge(n.fk, neighbors[..k], key, old(n.edge.item))
    {
      var n := neighbors[k];
      assert neighbors[..k+1][..k] == neighbors[..k];
      assert neighbors[..k+1][k] == n;
      if key(n) !in nodeids {
        return Fail(UnexpectedForeignKey(key(n)));
      }
      AssignToEach(nodes, nodeids[key(n)], n);
    }
    assert neighbors[..|neighbors|] == neighbors;
    r := Pass;
  }

  /** `nodeids[fk] = append(nodeids[fk], n)`. */
  function Filed<E>(nodeids: map<int, seq<Holder<E>>>, n: Holder<E>): map<int, seq<Holder<E>>> {
    if n.fk.None? then nodeids
    else if n.fk.value in nodeids then nodeids[n.fk.value := nodeids[n.fk.value] + [n]]
    else nodeids[n.fk.value := [n]]
  }

  function FiledAll<E>(nodes: seq<Holder<E>>): map<int, seq<Holder<E>>> {
    if nodes == [] then map[] else Filed(FiledAll(nodes[..|nodes|-1]), nodes[|nodes|-1])
  }

  lemma {:induction false} FiledByKey<E>(nodes: seq<Holder<E>>)
    ensures GroupsByKey(FiledAll(nodes), nodes)
  {
    if nodes != [] {
      var before, n := nodes[..|nodes|-1], nodes[|nodes|-1];
      FiledByKey(before);
      FileOne(FiledAll(before), before, n);
      assert nodes == before + [n];
    }
  }

  lemma FileOne<E>(nodeids: map<int, seq<Holder<E>>>, nodes: seq<Holder<E>>, n: Holder<E>)
    requires GroupsByKey(nodeids, nodes)
    ensures GroupsByKey(Filed(nodeids, n), nodes + [n])
  {
    assert KeysOf(nodes + [n])[..|nodes|] == KeysOf(nodes);
  }

  lemma RequestOne<E>(nodes: seq<Holder<E>>, n: Holder<E>)
    ensures Requested(KeysOf(nodes + [n])) ==
            Requested(KeysOf(nodes)) + if n.fk.None? || n.fk.value in FiledAll(nodes) then [] else [n.fk.value]
  {
    var fks := KeysOf(nodes);
    assert KeysOf(nodes + [n]) == fks + [n.fk];
    RequestedExtend(fks, n.fk);
    if n.fk.Some? {
      SameKeysFiled(nodes, n.fk.value);
    }
  }

  lemma RequestedExtend(fks: seq<Option<int>>, fk: Option<int>)
    ensures Requested(fks + [fk]) == Requested(fks) + if fk.None? || fk.value in Requested(fks) then [] else [fk.value]
  {
    assert (fks + [fk])[..|fks|] == fks;
  }

  lemma SameKeysFiled<E>(nodes: seq<Holder<E>>, f: int)
    ensures f in FiledAll(nodes) <==> f in Requested(KeysOf(nodes))
  {
    FiledByKey(nodes);
  }

  method GroupByForeignKey<E>(nodes: seq<Holder<E>>) returns (ids: seq<int>, nodeids: map<int, seq<Holder<E>>>)
    ensures ids == Requested(KeysOf(nodes))
    ensures GroupsByKey(nodeids, nodes)
  {
    ids, nodeids := [], map[];
    for i := 0 to |nodes|
      invariant ids == Requested(KeysOf(nodes[..i])) && nodeids == FiledAll(nodes[..i])
    {
      var n := nodes[i];
      RequestOne(nodes[..i], n);
      assert nodes[..i+1] == nodes[..i] + [n] && nodes[..i+1][..i] == nodes[..i];
      if n.fk.None? {
        continue;
      }
      var fk := n.fk.value;
      if fk !in nodeids {
        ids := ids + [fk];
        nodeids := nodeids[fk := [n]];
      } else {
        nodeids := nodeids[fk := nodeids[fk] + [n]];
      }
    }
    assert nodes[..|nodes|] == nodes;
    FiledByKey(nodes);
  }

  lemma {:induction false} RequestedHasEveryKey(fks: seq<Option<int>>, f: int)
    ensures f in Requested(fks) <==> Some(f) in fks
  {
    if fks != [] {
      RequestedHasEveryKey(fks[..|fks|-1], f);
      assert fks == fks[..|fks|-1] + [fks[|fks|-1]];
    }
  }

  method AssignToEach<E>(ghost nodes: seq<Holder<E>>, members: seq<Holder<E>>, n: E)
    requires SeparateHolders(nodes)
    requires forall m :: m in members ==> m in nodes
    modifies set m | m in nodes :: m.edge
    ensures forall m :: m in nodes ==> m.edge.item == if m in members then Some(n) else old(m.edge.item)
  {
    for i := 0 to |members|
      invariant forall m :: m in nodes ==> m.edge.item == if m in members[..i] then Some(n) else old(m.edge.item)
    {
      members[i].edge.item := Some(n);
    }
  }

  // ---------- One to many ----------

  /** The children, in returned order, that reference a node. */
  ghost function ChildrenOf<E>(rows: seq<E>, fk: E -> Option<int>, id: int): seq<E> {
    if rows == [] then []
    else
      var e := rows[|rows|-1];
      ChildrenOf(rows[..|rows|-1], fk, id) + if fk(e) == Some(id) then [e] else []
  }

  /** What a one-to-many load leaves in node `i`. */
  ghost function OneToManyEdge<E>(ids: seq<int>, i: nat, rows: seq<E>, fk: E -> Option<int>): seq<E>
    requires i < |ids|
  {
    if IsLast(ids, i) then ChildrenOf(rows, fk, ids[i]) else []
  }

  ghost predicate References<E>(ids: seq<int>, fk: E -> Option<int>, e: E) {
    fk(e).Some? && fk(e).value in ids
  }

  ghost predicate AllReference<E>(ids: seq<int>, rows: seq<E>, fk: E -> Option<int>) {
    forall k :: 0 <= k < |rows| ==> References(ids, fk, rows[k])
  }

  /** The error names the first child that references no loaded node. */
  ghost predicate FirstStray<E>(ids: seq<int>, rows: seq<E>, fk: E -> Option<int>, e: LoadError) {
    exists k :: 0 <= k < |rows| && AllReference(ids, rows[..k], fk) && !References(ids, fk, rows[k]) &&
      e == match fk(rows[k]) case None => NilForeignKey case Some(f) => UnexpectedForeignKey(f)
  }

  method LoadOneToMany<E>(nodes: seq<Node<E>>, fk: E -> Option<int>, fetch: seq<int> -> Result<seq<E>, int>) returns (r: Outcome)
    requires Separate(nodes)
    modifies set n | n in nodes :: n.edge
    ensures
      match fetch(IdsOf(nodes))
      case Err(code) => r == Fail(QueryFailed(code))
      case Ok(rows) =>
        && (r.Pass? <==> AllReference(IdsOf(nodes), rows, fk))
        && (r.Fail? ==> FirstStray(IdsOf(nodes), rows, fk, r.error))
        && (r.Pass? ==> forall i :: 0 <= i < |nodes| ==>
              nodes[i].edge.items == OneToManyEdge(IdsOf(nodes), i, rows, fk))
  {
    var fks, nodeids := IndexNodes(nodes);
    var fetched := fetch(fks);
    if fetched.Err? {
      return Fail(QueryFailed(fetched.error));
    }
    r := AttachChildren(nodes, fk, nodeids, fetched.value);
  }

  /** Append every child to the node its foreign key names. */
  method AttachChildren<E>(nodes: seq<Node<E>>, fk: E -> Option<int>, nodeids: map<int, Node<E>>, neighbors: seq<E>)
    returns (r: Outcome)
    requires Separate(nodes) && IndexesById(nodeids, nodes)
    requires forall n :: n in nodes ==> n.edge.items == []
    modifies set n | n in nodes :: n.edge
    ensures r.Pass? <==> AllReference(IdsOf(nodes), neighbors, fk)
    ensures r.Fail? ==> FirstStray(IdsOf(nodes), neighbors, fk, r.error)
    ensures r.Pass? ==> forall i :: 0 <= i < |nodes| ==>
              nodes[i].edge.items == OneToManyEdge(IdsOf(nodes), i, neighbors, fk)
  {
    ghost var ids := IdsOf(nodes);
    for k := 0 to |neighbors|
      invariant AllReference(ids, neighbors[..k], fk)
      invariant forall i :: 0 <= i < |nodes| ==>
                  nodes[i].edge.items == OneToManyEdge(ids, i, neighbors[..k], fk)
    {
      var n := neighbors[k];
      if fk(n).None? {
        assert !References(ids, fk, neighbors[k]);
        return Fail(NilForeignKey);
      }
      if fk(n).value !in nodeids {
        assert !References(ids, fk, neighbors[k]);
        return Fail(UnexpectedForeignKey(fk(n).value));
      }
      var node := nodeids[fk(n).value];
      IndexedIsLast(nodes, nodeids, fk(n).value);
      AttachStep(ids, neighbors, k, fk);
      AllReferenceStep(ids, neighbors, k, fk);
      AssignToAll(nodes, {node}, n);
    }
    assert neighbors[..|neighbors|] == neighbors;
    r := Pass;
  }

  lemma AllReferenceStep<E>(ids: seq<int>, rows: seq<E>, k: nat, fk: E -> Option<int>)
    requires k < |rows| && AllReference(ids, rows[..k], fk) && References(ids, fk, rows[k])
    ensures AllReference(ids, rows[..k+1], fk)
  {
  }

  lemma AttachStep<E>(ids: seq<int>, rows: seq<E>, k: nat, fk: E -> Option<int>)
    requires k < |rows|
    ensures forall i :: 0 <= i < |ids| ==>
              OneToManyEdge(ids, i, rows[..k+1], fk) == OneToManyEdge(ids, i, rows[..k], fk)
                + if fk(rows[k]) == Some(ids[i]) && IsLast(ids, i) then [rows[k]] else []
  {
    forall i | 0 <= i < |ids|
      ensures ChildrenOf(rows[..k+1], fk, ids[i]) ==
              ChildrenOf(rows[..k], fk, ids[i]) + if fk(rows[k]) == Some(ids[i]) then [rows[k]] else []
    {
      var upTo := rows[..k+1];
      assert upTo[..k] == rows[..k] && upTo[k] == rows[k];
    }
  }

  lemma IndexedIsLast<E>(nodes: seq<Node<E>>, byID: map<int, Node<E>>, a: int)
    requires Separate(nodes) && IndexesById(byID, nodes) && a in byID
    ensures forall i :: 0 <= i < |nodes| ==> (byID[a] == nodes[i] <==> nodes[i].id == a && IsLast(IdsOf(nodes), i))
  {
    var ids := IdsOf(nodes);
    forall i | 0 <= i < |nodes| && byID[a] == nodes[i]
      ensures IsLast(ids, i)
    {
      OneIsLast(ids, i);
      var j :| i <= j < |ids| && ids[j] == ids[i] && IsLast(ids, j);
      assert byID[nodes[j].id] == nodes[j];
    }
  }
}
