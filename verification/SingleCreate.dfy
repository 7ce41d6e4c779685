/** `AccountCreate.Save`, and how far it agrees with a bulk create of one builder. */
module SingleCreation {
  import opened Prelude
  import opened AccountSchema
  import opened AccountCreation
  import opened BulkCreation
  import opened BulkSafety
  import opened BulkTheorems
  import opened BulkOutcome

  /** A single create: its hooks, its mutation, and a database that answers each insert. */
  datatype Single = Single(hooks: seq<Hook>, mutation: Mutation, code: Generated, db: nat -> InsertOutcome)

  /** The mutation, whether it is done, the entity of the last insert tried, and the number of inserts. */
  datatype SingleState = SingleState(mutation: Mutation, done: bool, node: Option<Entity>, inserts: nat)

  /** `sqlSave`: check, insert one row, take its id.  Beside an error it returns a nil account, not a nil value. */
  function SqlSave(p: Single, s: SingleState): (Reply, SingleState) {
    match p.code.check(s.mutation.values)
    case Some(why) => (Reply(Node(None), Some(CheckFailed(0, why))), s)
    case None =>
      var node := p.code.node(s.mutation);
      match p.db(s.inserts)
      case Refused(constraint) =>
        (Reply(Node(None), Some(InsertFailed(constraint))), s.(node := Some(node), inserts := s.inserts + 1))
      case Inserted(ids) =>
        var saved := Some(WithId(node, ids(0)));
        (Reply(Node(saved), None), s.(node := saved, done := true, inserts := s.inserts + 1))
  }

  /** `withHooks`: hook `j` and everything inside it. */
  function WithHooks(p: Single, j: nat, s: SingleState): (Reply, SingleState)
    requires j <= |p.hooks|
    decreases |p.hooks| - j, 1, 0
  {
    if j == |p.hooks| then SqlSave(p, s) else Around(p, j, [], s)
  }

  /** Hook `j` goes on, having seen some replies of `next`. */
  function Around(p: Single, j: nat, seen: seq<Reply>, s: SingleState): (Reply, SingleState)
    requires j < |p.hooks| && |seen| <= p.hooks[j].limit
    decreases |p.hooks| - j, 0, p.hooks[j].limit - |seen|
  {
    var h := p.hooks[j];
    var m := h.edit(s.mutation, seen);
    if |seen| < h.limit && h.again(m, seen) then
      var (r, s1) := WithHooks(p, j + 1, s.(mutation := m));
      Around(p, j, seen + [r], s1)
    else (h.answer(m, seen), s.(mutation := m))
  }

  datatype SaveError = DefaultsFailed(c: Column) | ChainFailed(error: Error) | NotAnAccount

  function StartOf(env: Values, p: Single): SingleState {
    SingleState(p.mutation.(values := Defaulted(env, p.mutation.values)), false, None, 0)
  }

  /** What the outermost hook replies. */
  function Outermost(env: Values, p: Single): Reply {
    WithHooks(p, 0, StartOf(env, p)).0
  }

  /** `Save`: an error of `defaults` is final, and the value the hooks return must be an account. */
  function Save(env: Values, p: Single): (Result<Option<Entity>, SaveError>, SingleState) {
    match Uninitialized(env, p.mutation.values)
    case Some(c) => (Err(DefaultsFailed(c)), StartOf(env, p))
    case None =>
      var (r, s) := WithHooks(p, 0, StartOf(env, p));
      if r.error.Some? then (Err(ChainFailed(r.error.value)), s)
      else match r.value case Node(e) => (Ok(e), s) case _ => (Err(NotAnAccount), s)
  }

  /** The bulk of this one builder, which ignores an error of `defaults`. */
  function BulkOfOne(env: Values, p: Single): Config {
    Config([p.hooks], [p.mutation.(values := Defaulted(env, p.mutation.values))], p.code, p.db)
  }

  function Alone(s: State): SingleState
    requires s.Sized(1)
  {
    SingleState(s.mutations[0], s.done[0], s.nodes[0], s.inserts)
  }

  /** `c` is the bulk of this builder alone. */
  ghost predicate IsAlone(c: Config, p: Single) {
    c.Valid() && |c.hooks| == 1 && c.hooks[0] == p.hooks && c.code == p.code && c.db == p.db
  }

  // ---------- Hooks that do not tell a nil account from a nil value ----------

  /** The same reply, except that a single create returns a nil account where a bulk create returns nil. */
  ghost predicate Alike(r: Reply, r': Reply) {
    r.error == r'.error && (r.value == r'.value || (r.value == Node(None) && r'.value == Nothing))
  }

  ghost predicate AllAlike(seen: seq<Reply>, seen': seq<Reply>) {
    |seen| == |seen'| && forall k :: 0 <= k < |seen| ==> Alike(seen[k], seen'[k])
  }

  ghost predicate Tolerant(h: Hook) {
    forall m, seen, seen' {:trigger h.edit(m, seen), h.edit(m, seen')} {:trigger h.again(m, seen), h.again(m, seen')}
      {:trigger h.answer(m, seen), h.answer(m, seen')} :: AllAlike(seen, seen') ==>
      h.edit(m, seen) == h.edit(m, seen') && h.again(m, seen) == h.again(m, seen') && Alike(h.answer(m, seen), h.answer(m, seen'))
  }

  ghost predicate AllTolerant(hooks: seq<Hook>) {
    forall j :: 0 <= j < |hooks| ==> Tolerant(hooks[j])
  }

  ghost predicate SameEnd(single: (Reply, SingleState), bulk: (Reply, State)) {
    bulk.1.Sized(1) && Alike(single.0, bulk.0) && single.1 == Alone(bulk.1)
  }

  lemma {:induction false} MutateIsWithHooks(c: Config, p: Single, i: nat, j: nat, s: State)
    requires IsAlone(c, p) && AllTolerant(p.hooks) && s.Sized(1) && i == 0 && j <= |p.hooks|
    ensures SameEnd(WithHooks(p, j, Alone(s)), Mutate(c, i, j, s))
    decreases |p.hooks| - j, 1, 0
  {
    if j == |p.hooks| {
      BaseIsSqlSave(c, p, i, s);
    } else {
      var s1 := s.Log(EnterHook(i, j));
      assert Alone(s1) == Alone(s);
      HookIsAround(c, p, i, j, [], [], s1);
    }
  }

  lemma {:induction false} HookIsAround(c: Config, p: Single, i: nat, j: nat, seen: seq<Reply>, seen': seq<Reply>, s: State)
    requires IsAlone(c, p) && AllTolerant(p.hooks) && s.Sized(1) && i == 0 && j < |p.hooks| && |seen| <= p.hooks[j].limit
    requires AllAlike(seen, seen')
    ensures SameEnd(Around(p, j, seen, Alone(s)), RunHook(c, i, j, seen', s))
    decreases |p.hooks| - j, 0, p.hooks[j].limit - |seen|
  {
    var h := p.hooks[j];
    var m := h.edit(s.mutations[0], seen');
    var s0 := s.With(i, m);
    assert Tolerant(h) && h.edit(s.mutations[0], seen) == m && h.again(m, seen) == h.again(m, seen');
    assert Alone(s0) == Alone(s).(mutation := m);
    if |seen| < h.limit && h.again(m, seen) {
      MutateIsWithHooks(c, p, i, j + 1, s0);
      var (r', s1) := Mutate(c, i, j + 1, s0);
      var (r, t) := WithHooks(p, j + 1, Alone(s0));
      HookIsAround(c, p, i, j, seen + [r], seen' + [r'], s1);
    } else {
      assert Alike(h.answer(m, seen), h.answer(m, seen'));
    }
  }

  /** What the insert and the unwinding leave, once the slot is filled. */
  lemma InsertAlone(c: Config, p: Single, i: nat, s: State)
    requires IsAlone(c, p) && s.Sized(1) && i == 0 && s.nodes[0].Some?
    ensures var (e, s') := Inner(c, i, s);
            match p.db(s.inserts)
            case Inserted(ids) =>
              && e == None
              && Alone(Complete(c, i, s')) ==
                 Alone(s).(node := Some(WithId(s.nodes[0].value, ids(0))), done := true, inserts := s.inserts + 1)
            case Refused(constraint) =>
              e == Some(InsertFailed(constraint)) && Alone(s') == Alone(s).(inserts := s.inserts + 1)
  {
  }

  lemma BaseIsSqlSave(c: Config, p: Single, i: nat, s: State)
    requires IsAlone(c, p) && s.Sized(1) && i == 0
    ensures SameEnd(SqlSave(p, Alone(s)), Base(c, i, s))
  {
    if c.code.check(s.mutations[0].values) == None {
      var s1 := FillSlot(c, i, s.Log(EnterBase(i)));
      assert Alone(s1) == Alone(s).(node := Some(p.code.node(s.mutations[0])));
      InsertAlone(c, p, i, s1);
    }
  }

  /**
    Whatever the hooks do, as long as they treat a nil account as nil: once its defaults have succeeded, a
    single create leaves the same mutation, entity, flag and number of inserts as a bulk create of the same
    builder, and returns the same error.  If the chain succeeds, so does the bulk, but the single create
    only if the value that the outermost hook returns is an account.
   */
  lemma SingleIsBulkOfOne(env: Values, p: Single)
    requires Uninitialized(env, p.mutation.values) == None && AllTolerant(p.hooks)
    ensures var (r, s) := Save(env, p);
            var (e, s') := Run(BulkOfOne(env, p));
            && s == Alone(s') && e == Outermost(env, p).error
            && (e.Some? ==> r == Err(ChainFailed(e.value)))
            && (e == None ==> r == match Outermost(env, p).value case Node(n) => Ok(n) case _ => Err(NotAnAccount))
    ensures (Save(env, p).0.Ok? <==> Run(BulkOfOne(env, p)).0 == None)
            <==> Outermost(env, p).error.Some? || Outermost(env, p).value.Node?
  {
    var c := BulkOfOne(env, p);
    assert Alone(Start(c)) == StartOf(env, p);
    MutateIsWithHooks(c, p, 0, 0, Start(c));
  }

  // ---------- Hooks that call `next` once ----------

  lemma {:induction false} SingleCallsOnce(p: Single, j: nat, s: SingleState)
    requires j <= |p.hooks| && forall k :: 0 <= k < |p.hooks| ==> CallsNextOnce(p.hooks[k])
    ensures var m := Prepared(p.hooks, j, s.mutation);
            var (r, t) := SqlSave(p, s.(mutation := m));
            var (r', m') := Answered(p.hooks, j, m, r);
            WithHooks(p, j, s) == (r', t.(mutation := m'))
    decreases |p.hooks| - j
  {
    if j < |p.hooks| {
      var h := p.hooks[j];
      var s1 := s.(mutation := h.edit(s.mutation, []));
      SingleCallsOnce(p, j + 1, s1);
      AroundOnce(p, j, s);
      assert s1.(mutation := Prepared(p.hooks, j + 1, s1.mutation)) == s.(mutation := Prepared(p.hooks, j, s.mutation));
    }
  }

  lemma AroundOnce(p: Single, j: nat, s: SingleState)
    requires j < |p.hooks| && CallsNextOnce(p.hooks[j])
    ensures var h := p.hooks[j];
            var (r, s1) := WithHooks(p, j + 1, s.(mutation := h.edit(s.mutation, [])));
            var m := h.edit(s1.mutation, [r]);
            WithHooks(p, j, s) == (h.answer(m, [r]), s1.(mutation := m))
  {
    var h := p.hooks[j];
    var m := h.edit(s.mutation, []);
    var (r, s1) := WithHooks(p, j + 1, s.(mutation := m));
    assert h.again(m, []) && !h.again(h.edit(s1.mutation, [r]), [r]);
    assert [] + [r] == [r];
    assert Around(p, j, [], s) == Around(p, j, [r], s1);
  }

  /** The mutation that is checked and inserted. */
  ghost function Inserting(env: Values, p: Single): Mutation {
    Prepared(p.hooks, 0, StartOf(env, p).mutation)
  }

  ghost predicate Stores(env: Values, p: Single) {
    p.code.check(Inserting(env, p).values) == None && p.db(0).Inserted?
  }

  /** Given the stored account, the hooks return an account. */
  ghost predicate HooksReturnAccount(env: Values, p: Single)
    requires Stores(env, p)
  {
    var m := Inserting(env, p);
    Answered(p.hooks, 0, m, Reply(Node(Some(WithId(p.code.node(m), p.db(0).ids(0)))), None)).0.value.Node?
  }

  /**
    For hooks that call `next` once and report its outcome, a single and a bulk create accept the same
    mutation exactly unless it is stored and either its defaults had failed, so that the single builder has
    given up where the bulk inserts, or the hooks do not hand on an account, which only the single asks for.
   */
  lemma {:induction false} SingleAndBulkAgree(env: Values, p: Single)
    requires Transparent(p.hooks) && forall k :: 0 <= k < |p.hooks| ==> CallsNextOnce(p.hooks[k])
    ensures (Save(env, p).0.Ok? <==> Run(BulkOfOne(env, p)).0 == None)
            <==> !(Stores(env, p) && (Uninitialized(env, p.mutation.values).Some? || !HooksReturnAccount(env, p)))
  {
    BulkOfOneStores(env, p);
    SingleCallsOnce(p, 0, StartOf(env, p));
    var m := Inserting(env, p);
    var r := SqlSave(p, StartOf(env, p).(mutation := m)).0;
    assert Answered(p.hooks, 0, m, r).0.error == None <==> r.error == None;
  }

  lemma BulkOfOneStores(env: Values, p: Single)
    requires Transparent(p.hooks) && forall k :: 0 <= k < |p.hooks| ==> CallsNextOnce(p.hooks[k])
    ensures Run(BulkOfOne(env, p)).0 == None <==> Stores(env, p)
  {
    var c := BulkOfOne(env, p);
    assert c.hooks[0] == p.hooks && Target(c, 0) == Inserting(env, p);
    RunReports(c);
    assert ChainReply(c, 0).error == None <==> BaseReply(c, 0).error == None;
    assert Passes(c, 0) ==> (BaseReply(c, 0).error == None <==> InnerError(c, 0) == None);
  }

  // ---------- A hook that drops the value ----------

  /** `_, err := next.Mutate(ctx, m); return nil, err`. */
  function Dropper(): Hook {
    Hook((m, seen) => m, 1, (m, seen) => seen == [], (m: Mutation, seen: seq<Reply>) => Reply(Nothing, if seen == [] then None else seen[|seen|-1].error))
  }

  /** The row is inserted and the mutation done, the bulk succeeds, and the single create returns an error. */
  lemma DroppedValueFailsSingleOnly(env: Values, p: Single)
    requires p.hooks == [Dropper()] && Uninitialized(env, p.mutation.values) == None
    requires p.code.check(Defaulted(env, p.mutation.values)) == None && p.db(0).Inserted?
    ensures var (r, s) := Save(env, p);
            r == Err(NotAnAccount) && s.done && s.inserts == 1 && Run(BulkOfOne(env, p)).0 == None
  {
    DropperIsPlain(p.hooks[0]);
    var s := StartOf(env, p);
    assert s.mutation == p.hooks[0].edit(s.mutation, []);
    AroundOnce(p, 0, s);
    assert WithHooks(p, 1, s) == SqlSave(p, s);
    assert AllTolerant(p.hooks);
    SingleIsBulkOfOne(env, p);
  }

  lemma DropperIsPlain(h: Hook)
    requires h == Dropper()
    ensures CallsNextOnce(h) && Tolerant(h)
    ensures forall m, r :: h.edit(m, [r]) == m && h.edit(m, []) == m && h.answer(m, [r]) == Reply(Nothing, r.error)
  {
  }

  // ---------- A hook that tells a nil account from nil ----------

  /** Reports the error only if it came with a nil value. */
  function Picky(): Hook {
    Hook((m, seen) => m, 1, (m, seen) => seen == [],
         (m: Mutation, seen: seq<Reply>) => if seen != [] && seen[|seen|-1].value == Nothing then seen[|seen|-1] else Reply(Node(None), None))
  }

  /** A mutation that fails its check: the single create succeeds with a nil account, the bulk reports the error. */
  lemma NilAccountIsNotNil(env: Values, p: Single)
    requires p.hooks == [Picky()] && Uninitialized(env, p.mutation.values) == None
    requires p.code.check(Defaulted(env, p.mutation.values)).Some?
    ensures Save(env, p).0 == Ok(None) && Run(BulkOfOne(env, p)).0.Some? && !AllTolerant(p.hooks)
  {
    PickyIsPlain(p.hooks[0]);
    var s, c := StartOf(env, p), BulkOfOne(env, p);
    assert s.mutation == p.hooks[0].edit(s.mutation, []);
    AroundOnce(p, 0, s);
    assert WithHooks(p, 1, s) == SqlSave(p, s);
    assert Prepared(p.hooks, 1, c.mutations[0]) == c.mutations[0] && Target(c, 0) == c.mutations[0];
    RunReports(c);
    assert Answered(p.hooks, 1, Target(c, 0), BaseReply(c, 0)) == (BaseReply(c, 0), Target(c, 0));
    var r, r' := SqlSave(p, s).0, BaseReply(c, 0);
    assert Alike(r, r') && AllAlike([r], [r']);
    assert p.hooks[0].answer(s.mutation, [r]).error == None && p.hooks[0].answer(s.mutation, [r']).error.Some?;
  }

  lemma PickyIsPlain(h: Hook)
    requires h == Picky()
    ensures CallsNextOnce(h)
    ensures forall m, r :: h.edit(m, [r]) == m && h.edit(m, []) == m
    ensures forall m, r :: h.answer(m, [r]) == if r.value == Nothing then r else Reply(Node(None), None)
  {
  }
}
