/** The accounts a creation returns: the id the database gave, the fields that were set, and what is read back. */
module CreatedAccounts {
  import opened Prelude
  import opened AccountSchema
  import opened AccountCreation
  import opened BulkCreation
  import opened BulkSafety
  import opened BulkTheorems
  import opened BulkOutcome
  import opened SingleCreation

  /** The id is the given one, if one was given, and every other field is that of the node. */
  ghost predicate HasId(node: Entity, id: Option<int>, e: Entity) {
    && e.Field(ID) == (match id case Some(n) => Int(n) case None => node.Field(ID))
    && forall c :: c != ID ==> e.Field(c) == node.Field(c)
  }

  /** The id that the one successful insert gave to a slot. */
  ghost function GivenId(c: Config, k: nat): Option<int>
    requires c.Valid()
  {
    if Commits(c) then match c.db(0) case Inserted(ids) => ids(k) case Refused(_) => None else None
  }

  /**
    After a bulk create with hooks that call `next` once, every mutation that is done has a node, with the id
    the database gave to its slot and otherwise the fields of the mutation that was checked and inserted.
   */
  lemma DoneNodesHaveTheirId(c: Config)
    requires c.Valid() && CallsOnce(c) && |c.hooks| > 0
    ensures var s := Run(c).1;
            forall k :: 0 <= k < |c.hooks| && s.done[k] ==>
              s.nodes[k].Some? && HasId(c.code.node(Target(c, k)), GivenId(c, k), s.nodes[k].value)
  {
    RunReports(c);
    forall k | 0 <= k < |c.hooks| ensures HasId(c.code.node(Target(c, k)), GivenId(c, k), CompletedNode(c, k)) {
    }
  }

  /** What inserting a specification stores, read through some columns. */
  ghost function ReadBack(spec: CreateSpec, id: int, tableDefault: Row, codec: Codec, columns: seq<Column>): Result<Entity, ReadError> {
    ReadRow(columns, c => StoredCell(spec, id, tableDefault, codec, c), codec)
  }

  ghost predicate Agrees(read: Result<Entity, ReadError>, e: Entity, columns: seq<Column>) {
    read.Ok? && forall c :: IsAccountColumn(c) && c in columns ==> read.value.Field(c) == e.Field(c)
  }

  lemma StoredIsReadBack(m: Mutation, setup: Setup, v: Validators, id: int, tableDefault: Row, codec: Codec, columns: seq<Column>, e: Entity)
    requires WellTyped(m.values) && Check(m.values, v) == None && InvertsOn(codec, m.values) && HasId(NodeOf(m), Some(id), e)
    ensures Agrees(ReadBack(SpecOf(m, setup), id, tableDefault, codec, columns), e, columns)
  {
    CreateReadRoundTrip(m, setup, v, id, tableDefault, codec, columns);
    forall c ensures NodeOf(m).Set(ID, Int(id)).Field(c) == e.Field(c) {
    }
  }

  /** Reading a bulk-created account back, through any columns, gives the node the bulk returned. */
  lemma BulkCreatedIsReadBack(c: Config, k: nat, v: Validators, setup: Setup, tableDefault: Row, codec: Codec, columns: seq<Column>)
    requires c.Valid() && CallsOnce(c) && k < |c.hooks| && c.code == AccountCode(v, setup)
    requires Run(c).1.done[k] && GivenId(c, k).Some?
    requires WellTyped(Target(c, k).values) && InvertsOn(codec, Target(c, k).values)
    ensures var node := Run(c).1.nodes[k];
            node.Some? && Agrees(ReadBack(c.code.spec(Target(c, k)), GivenId(c, k).value, tableDefault, codec, columns), node.value, columns)
  {
    DoneNodesHaveTheirId(c);
    RunReports(c);
    assert Passes(c, k);
    StoredIsReadBack(Target(c, k), setup, v, GivenId(c, k).value, tableDefault, codec, columns, Run(c).1.nodes[k].value);
  }

  // ---------- Any hooks ----------

  /** The id a slot has after the inserts from one number up to another: that of the last one accepted, if any was. */
  ghost function LatestId(c: Config, k: nat, from: nat, upTo: nat, was: Option<int>): Option<int>
    decreases upTo
  {
    if upTo <= from then was
    else match c.db(upTo - 1) case Inserted(ids) => ids(k) case Refused(_) => LatestId(c, k, from, upTo - 1, was)
  }

  lemma {:induction false} LatestOfLatest(c: Config, k: nat, from: nat, mid: nat, upTo: nat, was: Option<int>)
    requires from <= mid <= upTo
    ensures LatestId(c, k, mid, upTo, LatestId(c, k, from, mid, was)) == LatestId(c, k, from, upTo, was)
    decreases upTo
  {
    if mid < upTo { LatestOfLatest(c, k, from, mid, upTo - 1, was); }
  }

  /** Every slot before `i` keeps its id but for what the inserts made meanwhile gave it. */
  ghost predicate IdsFollow(c: Config, i: nat, s: State, s': State) {
    && s.Sized(|c.hooks|) && s'.Sized(|c.hooks|) && i <= |c.hooks| && s.inserts <= s'.inserts
    && forall k :: 0 <= k < i ==> s'.ids[k] == LatestId(c, k, s.inserts, s'.inserts, s.ids[k])
  }

  lemma IdsFollowOn(c: Config, i: nat, s: State, s1: State, s2: State)
    requires IdsFollow(c, i, s, s1) && IdsFollow(c, i, s1, s2)
    ensures IdsFollow(c, i, s, s2)
  {
    forall k | 0 <= k < i ensures s2.ids[k] == LatestId(c, k, s.inserts, s2.inserts, s.ids[k]) {
      LatestOfLatest(c, k, s.inserts, s1.inserts, s2.inserts, s.ids[k]);
    }
  }

  lemma {:induction false} MutateIds(c: Config, i: nat, j: nat, s: State)
    requires c.Valid() && s.Sized(|c.hooks|) && i < |c.hooks| && j <= |c.hooks[i]|
    ensures IdsFollow(c, i, s, Mutate(c, i, j, s).1)
    decreases |c.hooks| - i, |c.hooks[i]| - j, 2, 0
  {
    if j == |c.hooks[i]| {
      BaseIds(c, i, s);
    } else {
      HookIds(c, i, j, [], s.Log(EnterHook(i, j)));
    }
  }

  lemma {:induction false} HookIds(c: Config, i: nat, j: nat, seen: seq<Reply>, s: State)
    requires c.Valid() && s.Sized(|c.hooks|) && i < |c.hooks| && j < |c.hooks[i]| && |seen| <= c.hooks[i][j].limit
    ensures IdsFollow(c, i, s, RunHook(c, i, j, seen, s).1)
    decreases |c.hooks| - i, |c.hooks[i]| - j, 1, c.hooks[i][j].limit - |seen|
  {
    var h := c.hooks[i][j];
    var m := h.edit(s.mutations[i], seen);
    if |seen| < h.limit && h.again(m, seen) {
      var (r, s1) := Mutate(c, i, j + 1, s.With(i, m));
      MutateIds(c, i, j + 1, s.With(i, m));
      HookIds(c, i, j, seen + [r], s1);
      assert IdsFollow(c, i, s, s1);
      IdsFollowOn(c, i, s, s1, RunHook(c, i, j, seen + [r], s1).1);
    }
  }

  lemma {:induction false} BaseIds(c: Config, i: nat, s: State)
    requires c.Valid() && s.Sized(|c.hooks|) && i < |c.hooks|
    ensures IdsFollow(c, i, s, Base(c, i, s).1)
    decreases |c.hooks| - i, 0, 1, 0
  {
    if c.code.check(s.mutations[i].values) == None {
      InnerIds(c, i, FillSlot(c, i, s.Log(EnterBase(i))));
    }
  }

  lemma {:induction false} InnerIds(c: Config, i: nat, s: State)
    requires c.Valid() && s.Sized(|c.hooks|) && i < |c.hooks|
    ensures IdsFollow(c, i + 1, s, Inner(c, i, s).1)
    decreases |c.hooks| - i, 0, 0, 0
  {
    if i + 1 < |c.hooks| { MutateIds(c, i + 1, 0, s); }
  }

  /**
    Whatever the hooks do: a base step that succeeds replies with its slot's node, made from the mutation as
    it then was.  Its id is the one given by the last insert accepted during the step, and if no insert was
    made in it, the node has none from an earlier one.
   */
  lemma NodeHasItsOwnId(c: Config, i: nat, s: State)
    requires c.Valid() && i < |c.hooks| && Sound(c, i, s) && Base(c, i, s).0.error == None
    ensures var (r, s') := Base(c, i, s);
            && s'.done[i] && s'.nodes[i].Some? && r.value == Node(s'.nodes[i])
            && HasId(c.code.node(s.mutations[i]), LatestId(c, i, s.inserts, s'.inserts, None), s'.nodes[i].value)
  {
    var s1 := s.Log(EnterBase(i));
    SoundLog(c, i, s, EnterBase(i));
    var filled := FillSlot(c, i, s1);
    FillKeeps(c, i, s1);
    InnerIds(c, i, filled);
    var s2 := Inner(c, i, filled).1;
    if i + 1 < |c.hooks| {
      MutateKeeps(c, i + 1, 0, filled);
      KeptSlot(i, filled, s2);
    }
    assert filled.ids[i] == None && s2.nodes[i] == Some(c.code.node(s.mutations[i]));
  }

  // ---------- A single create ----------

  /** A hook that hands on what `next` replied. */
  ghost predicate HandsOn(h: Hook) {
    forall m, r :: h.answer(m, [r]) == r
  }

  lemma {:induction false} RepliesAreHandedOn(hooks: seq<Hook>, j: nat, m: Mutation, r: Reply)
    requires forall k :: 0 <= k < |hooks| ==> HandsOn(hooks[k])
    ensures Answered(hooks, j, m, r).0 == r
    decreases |hooks| - j
  {
    if j < |hooks| {
      RepliesAreHandedOn(hooks, j + 1, m, r);
      assert HandsOn(hooks[j]);
    }
  }

  /** A single create that succeeds returns the account it stored, with the id the database gave. */
  lemma SavedEntityHasItsId(env: Values, p: Single)
    requires forall k :: 0 <= k < |p.hooks| ==> CallsNextOnce(p.hooks[k]) && HandsOn(p.hooks[k])
    requires Save(env, p).0.Ok?
    ensures p.db(0).Inserted? && p.code.check(Inserting(env, p).values) == None
    ensures var saved := Save(env, p).0.value;
            saved.Some? && HasId(p.code.node(Inserting(env, p)), p.db(0).ids(0), saved.value)
  {
    var s, m := StartOf(env, p), Inserting(env, p);
    SingleCallsOnce(p, 0, s);
    RepliesAreHandedOn(p.hooks, 0, m, SqlSave(p, s.(mutation := m)).0);
  }

  /** And reading that account back, through any columns, gives the same. */
  lemma SavedEntityIsReadBack(env: Values, p: Single, v: Validators, setup: Setup, tableDefault: Row, codec: Codec, columns: seq<Column>)
    requires forall k :: 0 <= k < |p.hooks| ==> CallsNextOnce(p.hooks[k]) && HandsOn(p.hooks[k])
    requires Save(env, p).0.Ok? && p.code == AccountCode(v, setup) && p.db(0).Inserted? && p.db(0).ids(0).Some?
    requires WellTyped(Inserting(env, p).values) && InvertsOn(codec, Inserting(env, p).values)
    ensures var saved := Save(env, p).0.value;
            saved.Some? && Agrees(ReadBack(p.code.spec(Inserting(env, p)), p.db(0).ids(0).value, tableDefault, codec, columns), saved.value, columns)
  {
    SavedEntityHasItsId(env, p);
    StoredIsReadBack(Inserting(env, p), setup, v, p.db(0).ids(0).value, tableDefault, codec, columns, Save(env, p).0.value.value);
  }
}
