/** What every run of a bulk create keeps, whatever its hooks do. */
module BulkSafety {
  import opened Prelude
  import opened AccountSchema
  import opened AccountCreation
  import opened BulkCreation

  // ---------- Every insert is complete ----------

  /** Slot `k` holds what `createSpec` made of a mutation that passed its check. */
  ghost predicate SlotMade(c: Config, m: Mutation, spec: Option<CreateSpec>, node: Option<Entity>) {
    c.code.check(m.values) == None && spec == Some(c.code.spec(m)) && node == Some(c.code.node(m))
  }

  /** Every slot before `i` is filled from its mutation as it stands. */
  ghost predicate FilledBefore(c: Config, i: nat, mutations: seq<Mutation>, specs: seq<Option<CreateSpec>>, nodes: seq<Option<Entity>>) {
    && i <= |mutations| == |specs| == |nodes|
    && forall k :: 0 <= k < i ==> SlotMade(c, mutations[k], specs[k], nodes[k])
  }

  ghost predicate GoodInsert(c: Config, e: Event) {
    e.InsertBatch? ==> |e.mutations| == |c.hooks| && FilledBefore(c, |c.hooks|, e.mutations, e.specs, e.nodes)
  }

  ghost predicate GoodInserts(c: Config, trace: seq<Event>) {
    forall k :: 0 <= k < |trace| ==> GoodInsert(c, trace[k])
  }

  ghost function InsertsIn(trace: seq<Event>): nat {
    if trace == [] then 0 else InsertsIn(trace[..|trace|-1]) + if trace[|trace|-1].InsertBatch? then 1 else 0
  }

  /** The state when the mutator of builder `i` runs. */
  ghost predicate Sound(c: Config, i: nat, s: State) {
    && s.Sized(|c.hooks|) && i <= |c.hooks|
    && FilledBefore(c, i, s.mutations, s.specs, s.nodes)
    && GoodInserts(c, s.trace) && InsertsIn(s.trace) == s.inserts
  }

  ghost predicate SameBefore(i: nat, s: State, s': State) {
    && s.Sized(|s.mutations|) && s'.Sized(|s.mutations|) && i <= |s.mutations|
    && s'.mutations[..i] == s.mutations[..i] && s'.done[..i] == s.done[..i]
    && s'.nodes[..i] == s.nodes[..i] && s'.specs[..i] == s.specs[..i]
  }

  /** The most often the innermost point can be reached from hook `j` of builder `i`. */
  ghost function Weight(c: Config, i: nat, j: nat): nat
    requires c.Valid() && i < |c.hooks| && j <= |c.hooks[i]|
    decreases |c.hooks| - i, |c.hooks[i]| - j
  {
    if j < |c.hooks[i]| then c.hooks[i][j].limit * Weight(c, i, j + 1)
    else if i + 1 < |c.hooks| then Weight(c, i + 1, 0)
    else 1
  }

  /** `n` calls that each count `w`. */
  ghost function Calls(n: nat, w: nat): nat {
    if n == 0 then 0 else w + Calls(n - 1, w)
  }

  lemma {:induction false} CallsMultiply(n: nat, w: nat)
    ensures Calls(n, w) == n * w
  {
    if n > 0 { CallsMultiply(n - 1, w); }
  }

  ghost predicate Keeps(c: Config, i: nat, s: State, s': State, count: nat) {
    Sound(c, i, s') && SameBefore(i, s, s') && s.inserts <= s'.inserts <= s.inserts + count
  }

  lemma SoundLog(c: Config, i: nat, s: State, e: Event)
    requires Sound(c, i, s) && !e.InsertBatch?
    ensures Sound(c, i, s.Log(e)) && SameBefore(i, s, s.Log(e))
  {
    assert (s.trace + [e])[..|s.trace|] == s.trace;
  }

  lemma SoundWith(c: Config, i: nat, s: State, m: Mutation)
    requires Sound(c, i, s) && i < |c.hooks|
    ensures Sound(c, i, s.With(i, m)) && SameBefore(i, s, s.With(i, m))
  {
  }

  lemma SameBeforeTrans(i: nat, s: State, s1: State, s2: State)
    requires SameBefore(i, s, s1) && SameBefore(i, s1, s2)
    ensures SameBefore(i, s, s2)
  {
  }

  lemma {:induction false} MutateKeeps(c: Config, i: nat, j: nat, s: State)
    requires c.Valid() && i < |c.hooks| && j <= |c.hooks[i]| && Sound(c, i, s)
    ensures Keeps(c, i, s, Mutate(c, i, j, s).1, Weight(c, i, j))
    decreases |c.hooks| - i, |c.hooks[i]| - j, 2, 0
  {
    if j == |c.hooks[i]| {
      BaseKeeps(c, i, s);
    } else {
      var s1 := s.Log(EnterHook(i, j));
      SoundLog(c, i, s, EnterHook(i, j));
      HookKeeps(c, i, j, [], s1);
      var s2 := RunHook(c, i, j, [], s1).1;
      SoundLog(c, i, s2, ExitHook(i, j));
      SameBeforeTrans(i, s, s1, s2);
      CallsMultiply(c.hooks[i][j].limit, Weight(c, i, j + 1));
    }
  }

  lemma {:induction false} HookKeeps(c: Config, i: nat, j: nat, seen: seq<Reply>, s: State)
    requires c.Valid() && i < |c.hooks| && j < |c.hooks[i]| && |seen| <= c.hooks[i][j].limit && Sound(c, i, s)
    ensures Keeps(c, i, s, RunHook(c, i, j, seen, s).1, Calls(c.hooks[i][j].limit - |seen|, Weight(c, i, j + 1)))
    decreases |c.hooks| - i, |c.hooks[i]| - j, 1, c.hooks[i][j].limit - |seen|
  {
    var h := c.hooks[i][j];
    var m := h.edit(s.mutations[i], seen);
    var s0 := s.With(i, m);
    SoundWith(c, i, s, m);
    if |seen| < h.limit && h.again(m, seen) {
      var (r, s1) := Mutate(c, i, j + 1, s0);
      MutateKeeps(c, i, j + 1, s0);
      HookKeeps(c, i, j, seen + [r], s1);
      var s2 := RunHook(c, i, j, seen + [r], s1).1;
      SameBeforeTrans(i, s, s0, s1);
      SameBeforeTrans(i, s, s1, s2);
    }
  }

  lemma {:induction false} BaseKeeps(c: Config, i: nat, s: State)
    requires c.Valid() && i < |c.hooks| && Sound(c, i, s)
    ensures Keeps(c, i, s, Base(c, i, s).1, Weight(c, i, |c.hooks[i]|))
    decreases |c.hooks| - i, 0, 1, 0
  {
    var s1 := s.Log(EnterBase(i));
    SoundLog(c, i, s, EnterBase(i));
    if c.code.check(s.mutations[i].values) == None {
      InnerKeeps(c, i, s1);
      var (e, s2) := Inner(c, i, FillSlot(c, i, s1));
      var s3 := if e.Some? then s2 else Complete(c, i, s2);
      SoundLog(c, i, s3, ExitBase(i));
      SameBeforeTrans(i, s, s1, s3);
    } else {
      SoundLog(c, i, s1, ExitBase(i));
    }
  }

  lemma {:induction false} InnerKeeps(c: Config, i: nat, s: State)
    requires c.Valid() && i < |c.hooks| && Sound(c, i, s) && c.code.check(s.mutations[i].values) == None
    ensures var s2 := Inner(c, i, FillSlot(c, i, s)).1;
            && Keeps(c, i, s, s2, Weight(c, i, |c.hooks[i]|))
            && Keeps(c, i, s, Complete(c, i, s2), Weight(c, i, |c.hooks[i]|))
    decreases |c.hooks| - i, 0, 0, 0
  {
    FillKeeps(c, i, s);
    var s1 := FillSlot(c, i, s);
    if i + 1 < |c.hooks| {
      MutateKeeps(c, i + 1, 0, s1);
    } else {
      InsertKeeps(c, s1);
    }
    CompleteKeeps(c, i, s, s1, Inner(c, i, s1).1);
  }

  lemma FillKeeps(c: Config, i: nat, s: State)
    requires c.Valid() && i < |c.hooks| && Sound(c, i, s) && c.code.check(s.mutations[i].values) == None
    ensures Sound(c, i + 1, FillSlot(c, i, s)) && SameBefore(i, s, FillSlot(c, i, s)) && FillSlot(c, i, s).inserts == s.inserts
  {
  }

  lemma InsertKeeps(c: Config, s: State)
    requires c.Valid() && Sound(c, |c.hooks|, s)
    ensures Keeps(c, |c.hooks|, s, Insert(c, s).1, 1)
  {
    var e := InsertBatch(s.mutations, s.specs, s.nodes);
    assert (s.trace + [e])[..|s.trace|] == s.trace;
    assert GoodInsert(c, e);
  }

  lemma CompleteKeeps(c: Config, i: nat, s: State, s1: State, s2: State)
    requires c.Valid() && i < |c.hooks| && SameBefore(i, s, s1) && SameBefore(i + 1, s1, s2) && Sound(c, i + 1, s2)
    ensures Sound(c, i, s2) && SameBefore(i, s, s2)
    ensures Sound(c, i, Complete(c, i, s2)) && SameBefore(i, s, Complete(c, i, s2))
  {
    assert s2.mutations[..i] == s2.mutations[..i+1][..i] && s2.nodes[..i] == s2.nodes[..i+1][..i];
    assert s2.done[..i] == s2.done[..i+1][..i] && s2.specs[..i] == s2.specs[..i+1][..i];
    assert s1.mutations[..i] == s1.mutations[..i+1][..i] && s1.nodes[..i] == s1.nodes[..i+1][..i];
    assert s1.done[..i] == s1.done[..i+1][..i] && s1.specs[..i] == s1.specs[..i+1][..i];
  }

  lemma StartIsSound(c: Config)
    requires c.Valid()
    ensures Sound(c, 0, Start(c))
  {
  }

  /**
    For any hooks whatever: every insert carries the complete batch, each spec and node slot filled from
    that builder's mutation as it stands, which has passed its check; and there are at most as many
    inserts as the product of the calls the hooks may make.
   */
  lemma EveryInsertIsComplete(c: Config)
    requires c.Valid() && |c.hooks| > 0
    ensures GoodInserts(c, Run(c).1.trace)
    ensures Run(c).1.inserts == InsertsIn(Run(c).1.trace) <= Weight(c, 0, 0)
  {
    StartIsSound(c);
    MutateKeeps(c, 0, 0, Start(c));
  }

  /** If no hook calls `next` more than once, the batch is inserted at most once. */
  lemma AtMostOneInsert(c: Config)
    requires c.Valid() && forall i, j :: 0 <= i < |c.hooks| && 0 <= j < |c.hooks[i]| ==> c.hooks[i][j].limit <= 1
    ensures Run(c).1.inserts <= 1
  {
    if |c.hooks| > 0 {
      EveryInsertIsComplete(c);
      LimitOneWeighsOne(c, 0, 0);
    }
  }

  lemma {:induction false} LimitOneWeighsOne(c: Config, i: nat, j: nat)
    requires c.Valid() && forall i, j :: 0 <= i < |c.hooks| && 0 <= j < |c.hooks[i]| ==> c.hooks[i][j].limit <= 1
    requires i < |c.hooks| && j <= |c.hooks[i]|
    ensures Weight(c, i, j) <= 1
    decreases |c.hooks| - i, |c.hooks[i]| - j
  {
    if j < |c.hooks[i]| {
      LimitOneWeighsOne(c, i, j + 1);
      assert c.hooks[i][j].limit == 0 || c.hooks[i][j].limit == 1;
    } else if i + 1 < |c.hooks| {
      LimitOneWeighsOne(c, i + 1, 0);
    }
  }

  // ---------- A column no hook sets ----------

  ghost predicate NeverSets(hooks: seq<Hook>, column: Column) {
    forall j, m: Mutation, seen: seq<Reply> :: 0 <= j < |hooks| && column !in m.values ==> column !in hooks[j].edit(m, seen).values
  }

  /** Builder `b` lacks the column, now and in every insert. */
  ghost predicate Lacks(c: Config, b: nat, column: Column, s: State) {
    && s.Sized(|c.hooks|) && b < |c.hooks| && column !in s.mutations[b].values
    && forall k :: 0 <= k < |s.trace| && s.trace[k].InsertBatch? && b < |s.trace[k].mutations| ==>
         column !in s.trace[k].mutations[b].values
  }

  lemma {:induction false} MutateLacks(c: Config, b: nat, column: Column, i: nat, j: nat, s: State)
    requires c.Valid() && i < |c.hooks| && j <= |c.hooks[i]| && Lacks(c, b, column, s) && NeverSets(c.hooks[b], column)
    ensures Lacks(c, b, column, Mutate(c, i, j, s).1)
    decreases |c.hooks| - i, |c.hooks[i]| - j, 2, 0
  {
    if j == |c.hooks[i]| {
      BaseLacks(c, b, column, i, s);
    } else {
      HookLacks(c, b, column, i, j, [], s.Log(EnterHook(i, j)));
    }
  }

  lemma {:induction false} HookLacks(c: Config, b: nat, column: Column, i: nat, j: nat, seen: seq<Reply>, s: State)
    requires c.Valid() && i < |c.hooks| && j < |c.hooks[i]| && |seen| <= c.hooks[i][j].limit
    requires Lacks(c, b, column, s) && NeverSets(c.hooks[b], column)
    ensures Lacks(c, b, column, RunHook(c, i, j, seen, s).1)
    decreases |c.hooks| - i, |c.hooks[i]| - j, 1, c.hooks[i][j].limit - |seen|
  {
    var h := c.hooks[i][j];
    var m := h.edit(s.mutations[i], seen);
    assert Lacks(c, b, column, s.With(i, m));
    if |seen| < h.limit && h.again(m, seen) {
      var (r, s1) := Mutate(c, i, j + 1, s.With(i, m));
      MutateLacks(c, b, column, i, j + 1, s.With(i, m));
      HookLacks(c, b, column, i, j, seen + [r], s1);
    }
  }

  lemma {:induction false} BaseLacks(c: Config, b: nat, column: Column, i: nat, s: State)
    requires c.Valid() && i < |c.hooks| && Lacks(c, b, column, s) && NeverSets(c.hooks[b], column)
    ensures Lacks(c, b, column, Base(c, i, s).1)
    decreases |c.hooks| - i, 0, 1, 0
  {
    var s1 := s.Log(EnterBase(i));
    if c.code.check(s.mutations[i].values) == None {
      var s2 := FillSlot(c, i, s1);
      assert Lacks(c, b, column, s2);
      if i + 1 < |c.hooks| {
        MutateLacks(c, b, column, i + 1, 0, s2);
      }
      assert Lacks(c, b, column, Inner(c, i, s2).1);
    }
  }

  /** A builder whose defaults failed, and whose hooks leave the missing column alone, stops the whole bulk. */
  lemma FailedDefaultsStopTheBulk(c: Config, b: nat, env: Values, base: Values, v: Validators, setup: Setup)
    requires c.Valid() && b < |c.hooks| && c.code == AccountCode(v, setup)
    requires c.mutations[b].values == Defaulted(env, base) && Uninitialized(env, base).Some?
    requires NeverSets(c.hooks[b], Uninitialized(env, base).value)
    ensures Run(c).1.inserts == 0
  {
    var column, s := Uninitialized(env, base).value, Run(c).1;
    FilledContents(env, base, DefaultRank(column));
    MutateLacks(c, b, column, 0, 0, Start(c));
    EveryInsertIsComplete(c);
    forall k | 0 <= k < |s.trace| ensures !s.trace[k].InsertBatch? {
      var e := s.trace[k];
      assert GoodInsert(c, e);
      if e.InsertBatch? {
        assert SlotMade(c, e.mutations[b], e.specs[b], e.nodes[b]);
        CheckIsExact(e.mutations[b].values, v);
        assert Required(column);
      }
    }
    NoInserts(s.trace);
  }

  lemma {:induction false} NoInserts(trace: seq<Event>)
    requires forall k :: 0 <= k < |trace| ==> !trace[k].InsertBatch?
    ensures InsertsIn(trace) == 0
  {
    if trace != [] { NoInserts(trace[..|trace|-1]); }
  }
}
