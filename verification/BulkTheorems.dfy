/** What a run of hooks that call `next` once leaves, and exactly when it is all-or-nothing. */
module BulkTheorems {
  import opened Prelude
  import opened AccountSchema
  import opened AccountCreation
  import opened BulkCreation
  import opened BulkSafety

  /** A hook that calls `next` exactly once, whatever it is given and whatever `next` replies. */
  ghost predicate CallsNextOnce(h: Hook) {
    h.limit > 0 && (forall m :: h.again(m, [])) && (forall m, r :: !h.again(m, [r]))
  }

  ghost predicate CallsOnce(c: Config) {
    forall i, j :: 0 <= i < |c.hooks| && 0 <= j < |c.hooks[i]| ==> CallsNextOnce(c.hooks[i][j])
  }

  // ---------- What each builder does with its hooks ----------

  /** The mutation on the way in, from hook `j` to the base step. */
  ghost function Prepared(hooks: seq<Hook>, j: nat, m: Mutation): Mutation
    decreases |hooks| - j
  {
    if j >= |hooks| then m else Prepared(hooks, j + 1, hooks[j].edit(m, []))
  }

  /** The reply and the mutation on the way out, from the base step to hook `j`. */
  ghost function Answered(hooks: seq<Hook>, j: nat, m: Mutation, r: Reply): (Reply, Mutation)
    decreases |hooks| - j
  {
    if j >= |hooks| then (r, m)
    else
      var (r1, m1) := Answered(hooks, j + 1, m, r);
      var m2 := hooks[j].edit(m1, [r1]);
      (hooks[j].answer(m2, [r1]), m2)
  }

  /** The mutation builder `i` checks and inserts. */
  ghost function Target(c: Config, i: nat): Mutation
    requires c.Valid() && i < |c.hooks|
  {
    Prepared(c.hooks[i], 0, c.mutations[i])
  }

  ghost predicate Passes(c: Config, i: nat)
    requires c.Valid() && i < |c.hooks|
  {
    c.code.check(Target(c, i).values) == None
  }

  ghost predicate AllPassFrom(c: Config, i: nat)
    requires c.Valid()
    decreases |c.hooks| - i
  {
    i >= |c.hooks| || (Passes(c, i) && AllPassFrom(c, i + 1))
  }

  /** Every builder before `k` passes its check. */
  ghost predicate Reaches(c: Config, k: nat)
    requires c.Valid() && k <= |c.hooks|
  {
    forall m :: 0 <= m < k ==> Passes(c, m)
  }

  lemma {:induction false} AllPassIsReached(c: Config, i: nat)
    requires c.Valid() && i <= |c.hooks| && Reaches(c, i)
    ensures AllPassFrom(c, i) <==> Reaches(c, |c.hooks|)
    decreases |c.hooks| - i
  {
    if i < |c.hooks| && Passes(c, i) {
      AllPassIsReached(c, i + 1);
    }
  }

  /** The id the database supplies for slot `k`, if the run gets as far as a successful insert. */
  ghost function SuppliedId(c: Config, k: nat): Option<int>
    requires c.Valid()
  {
    if AllPassFrom(c, 0) && c.db(0).Inserted? then c.db(0).ids(k) else None
  }

  /** The node of a completed builder: what `createSpec` made of its mutation, with the supplied id. */
  ghost function CompletedNode(c: Config, k: nat): Entity
    requires c.Valid() && k < |c.hooks|
  {
    WithId(c.code.node(Target(c, k)), SuppliedId(c, k))
  }

  /** What the call inside builder `i`'s base step reports, once the check has passed. */
  ghost function InnerError(c: Config, i: nat): Option<Error>
    requires c.Valid() && i < |c.hooks|
    decreases |c.hooks| - i, 0
  {
    if i + 1 < |c.hooks| then ChainReply(c, i + 1).error
    else match c.db(0) case Inserted(_) => None case Refused(constraint) => Some(InsertFailed(constraint))
  }

  /** What builder `i`'s base step replies. */
  ghost function BaseReply(c: Config, i: nat): Reply
    requires c.Valid() && i < |c.hooks|
    decreases |c.hooks| - i, 1
  {
    match c.code.check(Target(c, i).values)
    case Some(why) => Reply(Nothing, Some(CheckFailed(i, why)))
    case None =>
      if InnerError(c, i).Some? then Reply(Nothing, InnerError(c, i)) else Reply(Node(Some(CompletedNode(c, i))), None)
  }

  /** What builder `i` with all its hooks replies. */
  ghost function ChainReply(c: Config, i: nat): Reply
    requires c.Valid() && i < |c.hooks|
    decreases |c.hooks| - i, 2
  {
    Answered(c.hooks[i], 0, Target(c, i), BaseReply(c, i)).0
  }

  ghost predicate Completes(c: Config, i: nat)
    requires c.Valid() && i < |c.hooks|
  {
    BaseReply(c, i).error == None
  }

  // ---------- The run ----------

  /** Builders before `i` have filled their slots; builder `i` has its hooks from `j` on before it; later ones are as given. */
  ghost predicate Settled(c: Config, i: nat, j: nat, s: State)
    requires c.Valid() && i < |c.hooks|
  {
    && Sound(c, i, s)
    && Prepared(c.hooks[i], j, s.mutations[i]) == Target(c, i)
    && (forall k :: 0 <= k < i ==> s.mutations[k] == Target(c, k))
    && (forall k :: i < k < |c.hooks| ==> s.mutations[k] == c.mutations[k])
  }

  ghost predicate Fresh(s: State) {
    s.inserts == 0 && forall k :: 0 <= k < |s.ids| ==> s.ids[k] == None
  }

  /** Builder `k` is completed exactly if it is reached and its base step succeeds. */
  ghost predicate Reports(c: Config, i: nat, s: State, s': State)
    requires c.Valid() && s.Sized(|c.hooks|) && s'.Sized(|c.hooks|)
  {
    && (forall k :: 0 <= k < |c.hooks| ==> s'.ids[k] == SuppliedId(c, k))
    && (forall k :: i <= k < |c.hooks| ==> (s'.done[k] <==> s.done[k] || (Reaches(c, k) && Completes(c, k))))
    && (forall k :: i <= k < |c.hooks| && Reaches(c, k) && Completes(c, k) ==> s'.nodes[k] == Some(CompletedNode(c, k)))
    && s'.inserts == if AllPassFrom(c, 0) then 1 else 0
  }

  lemma SettledReaches(c: Config, i: nat, j: nat, s: State)
    requires c.Valid() && i < |c.hooks| && Settled(c, i, j, s)
    ensures Reaches(c, i)
  {
    forall k | 0 <= k < i ensures Passes(c, k) {
      assert SlotMade(c, s.mutations[k], s.specs[k], s.nodes[k]);
    }
  }

  /** A hook that calls `next` once. */
  lemma OneCall(c: Config, i: nat, j: nat, s: State)
    requires c.Valid() && s.Sized(|c.hooks|) && i < |c.hooks| && j < |c.hooks[i]| && CallsNextOnce(c.hooks[i][j])
    ensures var h := c.hooks[i][j];
            var (r1, s2) := Mutate(c, i, j + 1, s.Log(EnterHook(i, j)).With(i, h.edit(s.mutations[i], [])));
            var m := h.edit(s2.mutations[i], [r1]);
            Mutate(c, i, j, s) == (h.answer(m, [r1]), s2.With(i, m).Log(ExitHook(i, j)))
  {
    var h, s1 := c.hooks[i][j], s.Log(EnterHook(i, j));
    var m := h.edit(s1.mutations[i], []);
    var (r1, s2) := Mutate(c, i, j + 1, s1.With(i, m));
    assert h.again(m, []) && !h.again(h.edit(s2.mutations[i], [r1]), [r1]);
    assert [] + [r1] == [r1];
    assert RunHook(c, i, j, [], s1) == RunHook(c, i, j, [r1], s2);
  }

  lemma EnterSettled(c: Config, i: nat, j: nat, s: State)
    requires c.Valid() && i < |c.hooks| && j < |c.hooks[i]| && Settled(c, i, j, s)
    ensures var m := c.hooks[i][j].edit(s.mutations[i], []);
            Settled(c, i, j + 1, s.Log(EnterHook(i, j)).With(i, m))
  {
    var m := c.hooks[i][j].edit(s.mutations[i], []);
    SoundLog(c, i, s, EnterHook(i, j));
    SoundWith(c, i, s.Log(EnterHook(i, j)), m);
  }

  ghost predicate Outcome(c: Config, i: nat, s: State, reply: Reply, m: Mutation, r: Reply, s': State)
    requires c.Valid() && s.Sized(|c.hooks|) && i < |c.hooks|
  {
    s'.Sized(|c.hooks|) && r == reply && s'.mutations[i] == m && Reports(c, i, s, s')
  }

  lemma {:induction false} MutateReports(c: Config, i: nat, j: nat, s: State)
    requires c.Valid() && CallsOnce(c) && i < |c.hooks| && j <= |c.hooks[i]| && Settled(c, i, j, s) && Fresh(s)
    ensures var (r, s') := Mutate(c, i, j, s);
            var (reply, m) := Answered(c.hooks[i], j, Target(c, i), BaseReply(c, i));
            Outcome(c, i, s, reply, m, r, s')
    decreases |c.hooks| - i, |c.hooks[i]| - j, 2
  {
    if j == |c.hooks[i]| {
      BaseReports(c, i, s);
    } else {
      EnterSettled(c, i, j, s);
      OneCall(c, i, j, s);
      MutateReports(c, i, j + 1, s.Log(EnterHook(i, j)).With(i, c.hooks[i][j].edit(s.mutations[i], [])));
    }
  }

  lemma {:induction false} BaseReports(c: Config, i: nat, s: State)
    requires c.Valid() && CallsOnce(c) && i < |c.hooks| && Settled(c, i, |c.hooks[i]|, s) && Fresh(s)
    ensures var (r, s') := Base(c, i, s);
            Outcome(c, i, s, BaseReply(c, i), Target(c, i), r, s')
    decreases |c.hooks| - i, 0, 1
  {
    SettledReaches(c, i, |c.hooks[i]|, s);
    var s1 := s.Log(EnterBase(i));
    SoundLog(c, i, s, EnterBase(i));
    if Passes(c, i) {
      InnerReports(c, i, s1);
    } else {
      NotAllPass(c, i);
    }
  }

  lemma NotAllPass(c: Config, i: nat)
    requires c.Valid() && i < |c.hooks| && !Passes(c, i)
    ensures !AllPassFrom(c, 0)
    ensures forall k :: i < k < |c.hooks| ==> !Reaches(c, k)
  {
    AllPassIsReached(c, 0);
  }

  lemma {:induction false} InnerReports(c: Config, i: nat, s: State)
    requires c.Valid() && CallsOnce(c) && i < |c.hooks| && Settled(c, i, |c.hooks[i]|, s) && Fresh(s) && Passes(c, i)
    ensures var (e, s2) := Inner(c, i, FillSlot(c, i, s));
            && e == InnerError(c, i) && s2.mutations[i] == Target(c, i)
            && Reports(c, i, s, if e == None then Complete(c, i, s2) else s2)
            && (e == None ==> Complete(c, i, s2).nodes[i] == Some(CompletedNode(c, i)))
    decreases |c.hooks| - i, 0, 0
  {
    SettledReaches(c, i, |c.hooks[i]|, s);
    FillKeeps(c, i, s);
    var s1 := FillSlot(c, i, s);
    FilledSettled(c, i, s);
    if i + 1 < |c.hooks| {
      MutateReports(c, i + 1, 0, s1);
      MutateKeeps(c, i + 1, 0, s1);
      var s2 := Mutate(c, i + 1, 0, s1).1;
      KeptSlot(i, s1, s2);
      UnwindReports(c, i, s, s1, s2, InnerError(c, i) == None);
    } else {
      InsertReports(c, i, s, s1);
    }
  }

  lemma FilledSettled(c: Config, i: nat, s: State)
    requires c.Valid() && i < |c.hooks| && Settled(c, i, |c.hooks[i]|, s) && Fresh(s) && Passes(c, i)
    requires Sound(c, i + 1, FillSlot(c, i, s))
    ensures var s1 := FillSlot(c, i, s);
            && Fresh(s1) && s1.done == s.done && s1.mutations == s.mutations && s1.mutations[i] == Target(c, i)
            && s1.nodes[i] == Some(c.code.node(Target(c, i)))
            && (i + 1 < |c.hooks| ==> Settled(c, i + 1, 0, s1))
  {
  }

  lemma KeptSlot(i: nat, s1: State, s2: State)
    requires SameBefore(i + 1, s1, s2)
    ensures s2.mutations[i] == s1.mutations[i] && s2.done[i] == s1.done[i] && s2.nodes[i] == s1.nodes[i]
  {
    assert s2.mutations[..i+1][i] == s1.mutations[..i+1][i];
    assert s2.done[..i+1][i] == s1.done[..i+1][i];
    assert s2.nodes[..i+1][i] == s1.nodes[..i+1][i];
  }

  lemma UnwindReports(c: Config, i: nat, s: State, s1: State, s2: State, ok: bool)
    requires c.Valid() && i + 1 < |c.hooks| && Passes(c, i) && Reaches(c, i)
    requires s.Sized(|c.hooks|) && s1.Sized(|c.hooks|) && s2.Sized(|c.hooks|) && s1.done == s.done && Reports(c, i + 1, s1, s2)
    requires s2.done[i] == s1.done[i] && s2.nodes[i] == Some(c.code.node(Target(c, i)))
    requires ok <==> Completes(c, i)
    ensures Reports(c, i, s, if ok then Complete(c, i, s2) else s2)
    ensures ok ==> Complete(c, i, s2).nodes[i] == Some(CompletedNode(c, i))
  {
  }

  lemma InsertReports(c: Config, i: nat, s: State, s1: State)
    requires c.Valid() && i + 1 == |c.hooks| && Passes(c, i) && Reaches(c, i)
    requires s.Sized(|c.hooks|) && s1.Sized(|c.hooks|) && Fresh(s1) && s1.done == s.done
    requires s1.nodes[i] == Some(c.code.node(Target(c, i)))
    ensures var (e, s2) := Insert(c, s1);
            && e == InnerError(c, i) && s2.mutations == s1.mutations
            && Reports(c, i, s, if e == None then Complete(c, i, s2) else s2)
            && (e == None ==> Complete(c, i, s2).nodes[i] == Some(CompletedNode(c, i)))
  {
    AllPassIsReached(c, 0);
  }

  lemma StartSettled(c: Config)
    requires c.Valid() && |c.hooks| > 0
    ensures Settled(c, 0, 0, Start(c)) && Fresh(Start(c))
  {
    StartIsSound(c);
  }

  /**
    What a run of hooks that call `next` once leaves: the error it returns, which mutations are done, with
    which nodes, and whether the batch was inserted.
   */
  lemma RunReports(c: Config)
    requires c.Valid() && CallsOnce(c) && |c.hooks| > 0
    ensures var (e, s) := Run(c);
            && e == ChainReply(c, 0).error
            && (forall k :: 0 <= k < |c.hooks| ==> (s.done[k] <==> Reaches(c, k) && Completes(c, k)))
            && (forall k :: 0 <= k < |c.hooks| && s.done[k] ==> s.nodes[k] == Some(CompletedNode(c, k)))
            && s.inserts == if AllPassFrom(c, 0) then 1 else 0
  {
    StartSettled(c);
    MutateReports(c, 0, 0, Start(c));
  }
}
