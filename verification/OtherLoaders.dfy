/** The loaders of AuthIdentityQuery and AccountGroupQuery: the same algorithms at other types. */
module OtherLoaders {
  import opened Prelude
  import opened AccountSchema
  import opened EdgeLoaders
  import opened QuerySpec

  const IDENTITY_ID: Column := 31

  type Answers = seq<int> -> Result<seq<Row>, int>

  /** A foreign key that may be nil, as `IdentityAdoptionDecision.IdentityID`. */
  function NillableIdentity(r: Record): Option<int> {
    OptionalInt(r, IDENTITY_ID)
  }

  /** A foreign key that is a plain field, as `AuthIdentityChannel.IdentityID`. */
  function PlainIdentity(r: Record): Option<int> {
    Some(RequiredInt(r, IDENTITY_ID))
  }

  method LoadAdoptionDecisions(nodes: seq<Node<Record>>, q: ChildQuery, answers: Answers) returns (r: Outcome)
    requires Separate(nodes)
    modifies set n | n in nodes :: n.edge
    ensures match Records(ChildColumns(Requiring(q, IDENTITY_ID)), answers(IdsOf(nodes)))
            case Err(code) => r == Fail(QueryFailed(code))
            case Ok(rows) =>
              && (r.Pass? <==> AllReference(IdsOf(nodes), rows, NillableIdentity))
              && (r.Fail? ==> FirstStray(IdsOf(nodes), rows, NillableIdentity, r.error))
              && (r.Pass? ==> forall i :: 0 <= i < |nodes| ==>
                    nodes[i].edge.items == OneToManyEdge(IdsOf(nodes), i, rows, NillableIdentity))
  {
    var columns := ChildColumns(Requiring(q, IDENTITY_ID));
    r := LoadOneToMany(nodes, NillableIdentity, ids => Records(columns, answers(ids)));
  }

  method LoadChannels(nodes: seq<Node<Record>>, q: ChildQuery, answers: Answers) returns (r: Outcome)
    requires Separate(nodes)
    modifies set n | n in nodes :: n.edge
    ensures match Records(ChildColumns(Requiring(q, IDENTITY_ID)), answers(IdsOf(nodes)))
            case Err(code) => r == Fail(QueryFailed(code))
            case Ok(rows) =>
              && (r.Pass? <==> AllReference(IdsOf(nodes), rows, PlainIdentity))
              && (r.Fail? ==> FirstStray(IdsOf(nodes), rows, PlainIdentity, r.error))
              && (r.Pass? ==> forall i :: 0 <= i < |nodes| ==>
                    nodes[i].edge.items == OneToManyEdge(IdsOf(nodes), i, rows, PlainIdentity))
  {
    var columns := ChildColumns(Requiring(q, IDENTITY_ID));
    r := LoadOneToMany(nodes, PlainIdentity, ids => Records(columns, answers(ids)));
  }

  /** `loadUser`, and `loadAccount` and `loadGroup` of the join entity: the foreign key is never nil. */
  method LoadRequired(nodes: seq<Holder<Record>>, q: ChildQuery, answers: Answers) returns (r: Outcome)
    requires SeparateHolders(nodes) && forall n :: n in nodes ==> n.fk.Some?
    modifies set n | n in nodes :: n.edge
    ensures nodes == [] ==> r == Pass
    ensures nodes != [] ==>
              match Records(ChildColumns(q), answers(Requested(KeysOf(nodes))))
              case Err(code) => r == Fail(QueryFailed(code))
              case Ok(rows) =>
                && (r.Pass? <==> AllRequested(Requested(KeysOf(nodes)), rows, KeyOf))
                && (r.Fail? ==> NotRequested(Requested(KeysOf(nodes)), rows, KeyOf, r.error))
                && (r.Pass? ==> forall n :: n in nodes ==>
                      n.edge.item == ManyToOneEdge(n.fk, rows, KeyOf, old(n.edge.item)))
  {
    if nodes != [] {
      RequestedHasEveryKey(KeysOf(nodes), nodes[0].fk.value);
      assert KeysOf(nodes)[0] == nodes[0].fk;
    }
    r := LoadManyToOne(nodes, KeyOf, ids => Records(ChildColumns(q), answers(ids)));
  }
}
