/** How often the batch is inserted, for hooks that treat every call alike. */
module BulkCounting {
  import opened Prelude
  import opened AccountSchema
  import opened AccountCreation
  import opened BulkCreation
  import opened BulkSafety

  /**
    A hook that always makes all its calls, and prepares a mutation as described by `before` to one
    described by `after`, which it stays from then on; and a prepared mutation may be prepared again.
   */
  ghost predicate Steady(h: Hook, before: Mutation -> bool, after: Mutation -> bool) {
    && (forall m: Mutation {:trigger h.edit(m, [])} :: before(m) ==> after(h.edit(m, [])))
    && (forall m: Mutation, seen: seq<Reply> {:trigger h.edit(m, seen)} :: seen != [] && after(m) ==> after(h.edit(m, seen)))
    && (forall m: Mutation :: after(m) ==> before(m))
    && (forall m: Mutation, seen: seq<Reply> :: |seen| < h.limit ==> h.again(m, seen))
  }

  /** `kinds[j]` describes the mutation hook `j` is given, the last kind what the base step is given. */
  ghost predicate SteadyFrom(hooks: seq<Hook>, kinds: seq<Mutation -> bool>, j: nat)
    requires |kinds| == |hooks| + 1
    decreases |hooks| - j
  {
    j >= |hooks| || (Steady(hooks[j], kinds[j], kinds[j+1]) && SteadyFrom(hooks, kinds, j + 1))
  }

  /** At the base step, the check of a builder always has the same result. */
  ghost predicate Decides(c: Config, kind: Mutation -> bool, passes: bool) {
    forall m: Mutation :: kind(m) ==> (c.code.check(m.values) == None <==> passes)
  }

  /** The hooks of every builder from `i` on are steady, and its check is decided by them. */
  ghost predicate AllSteady(c: Config, kinds: seq<seq<Mutation -> bool>>, pass: seq<bool>, i: nat)
    decreases |c.hooks| - i
  {
    && |kinds| == |pass| == |c.hooks|
    && (i >= |c.hooks| ||
        (&& |kinds[i]| == |c.hooks[i]| + 1 && SteadyFrom(c.hooks[i], kinds[i], 0)
         && Decides(c, kinds[i][|c.hooks[i]|], pass[i]) && AllSteady(c, kinds, pass, i + 1)))
  }

  lemma {:induction false} BuilderIsSteady(c: Config, kinds: seq<seq<Mutation -> bool>>, pass: seq<bool>, from: nat, i: nat)
    requires AllSteady(c, kinds, pass, from) && from <= i < |c.hooks|
    ensures |kinds[i]| == |c.hooks[i]| + 1 && SteadyFrom(c.hooks[i], kinds[i], 0) && Decides(c, kinds[i][|c.hooks[i]|], pass[i])
    decreases i - from
  {
    if from < i { BuilderIsSteady(c, kinds, pass, from + 1, i); }
  }

  lemma {:induction false} HookIsSteady(hooks: seq<Hook>, kinds: seq<Mutation -> bool>, from: nat, j: nat)
    requires |kinds| == |hooks| + 1 && SteadyFrom(hooks, kinds, from) && from <= j < |hooks|
    ensures Steady(hooks[j], kinds[j], kinds[j+1])
    decreases j - from
  {
    if from < j { HookIsSteady(hooks, kinds, from + 1, j); }
  }

  ghost predicate AllFrom(pass: seq<bool>, i: nat)
    decreases |pass| - i
  {
    i >= |pass| || (pass[i] && AllFrom(pass, i + 1))
  }

  ghost predicate LaterReady(kinds: seq<seq<Mutation -> bool>>, i: nat, s: State) {
    |kinds| == |s.mutations| && forall k :: i < k < |kinds| ==> |kinds[k]| > 0 && kinds[k][0](s.mutations[k])
  }

  /** Builder `i` is ready for its hook `j`, and all later builders for their first. */
  ghost predicate Ready(c: Config, kinds: seq<seq<Mutation -> bool>>, i: nat, j: nat, s: State) {
    && s.Sized(|c.hooks|) && |kinds| == |c.hooks| && i < |kinds| && j < |kinds[i]|
    && kinds[i][j](s.mutations[i]) && LaterReady(kinds, i, s)
  }

  ghost function Times(pass: seq<bool>, i: nat, count: nat): nat {
    if AllFrom(pass, i) then count else 0
  }

  lemma {:induction false} MutateReady(c: Config, kinds: seq<seq<Mutation -> bool>>, pass: seq<bool>, i: nat, j: nat, s: State)
    requires c.Valid() && AllSteady(c, kinds, pass, 0) && i < |c.hooks| && j <= |c.hooks[i]| && Ready(c, kinds, i, j, s)
    ensures Ready(c, kinds, i, j, Mutate(c, i, j, s).1)
    decreases |c.hooks| - i, |c.hooks[i]| - j, 2, 0
  {
    if j == |c.hooks[i]| {
      BaseReady(c, kinds, pass, i, s);
    } else {
      var s1 := s.Log(EnterHook(i, j));
      BuilderIsSteady(c, kinds, pass, 0, i);
      HookReady(c, kinds, pass, i, j, [], s1);
      ReadyAgain(c, kinds, pass, i, j, RunHook(c, i, j, [], s1).1);
    }
  }

  lemma {:induction false} HookReady(c: Config, kinds: seq<seq<Mutation -> bool>>, pass: seq<bool>, i: nat, j: nat, seen: seq<Reply>, s: State)
    requires c.Valid() && AllSteady(c, kinds, pass, 0) && i < |c.hooks| && j < |c.hooks[i]| && |seen| <= c.hooks[i][j].limit
    requires Ready(c, kinds, i, j, s) && (seen != [] ==> Ready(c, kinds, i, j + 1, s))
    ensures Ready(c, kinds, i, j + 1, RunHook(c, i, j, seen, s).1)
    decreases |c.hooks| - i, |c.hooks[i]| - j, 1, c.hooks[i][j].limit - |seen|
  {
    var h := c.hooks[i][j];
    var m := h.edit(s.mutations[i], seen);
    EditReady(c, kinds, pass, i, j, seen, s);
    if |seen| < h.limit {
      var (r, s1) := Mutate(c, i, j + 1, s.With(i, m));
      MutateReady(c, kinds, pass, i, j + 1, s.With(i, m));
      ReadyAgain(c, kinds, pass, i, j, s1);
      HookReady(c, kinds, pass, i, j, seen + [r], s1);
    }
  }

  lemma {:induction false} BaseReady(c: Config, kinds: seq<seq<Mutation -> bool>>, pass: seq<bool>, i: nat, s: State)
    requires c.Valid() && AllSteady(c, kinds, pass, 0) && i < |c.hooks| && Ready(c, kinds, i, |c.hooks[i]|, s)
    ensures Ready(c, kinds, i, |c.hooks[i]|, Base(c, i, s).1)
    decreases |c.hooks| - i, 0, 1, 0
  {
    if c.code.check(s.mutations[i].values) == None && i + 1 < |c.hooks| {
      var s2 := FillSlot(c, i, s.Log(EnterBase(i)));
      NextReady(c, kinds, pass, i, s2);
      MutateReady(c, kinds, pass, i + 1, 0, s2);
      UntouchedBefore(c, i + 1, 0, s2, i);
    }
  }

  lemma NextReady(c: Config, kinds: seq<seq<Mutation -> bool>>, pass: seq<bool>, i: nat, s: State)
    requires AllSteady(c, kinds, pass, 0) && i + 1 < |c.hooks| && |kinds[i]| > |c.hooks[i]| && Ready(c, kinds, i, |c.hooks[i]|, s)
    ensures Ready(c, kinds, i + 1, 0, s)
  {
    BuilderIsSteady(c, kinds, pass, 0, i + 1);
  }

  lemma EditReady(c: Config, kinds: seq<seq<Mutation -> bool>>, pass: seq<bool>, i: nat, j: nat, seen: seq<Reply>, s: State)
    requires c.Valid() && AllSteady(c, kinds, pass, 0) && i < |c.hooks| && j < |c.hooks[i]|
    requires Ready(c, kinds, i, j, s) && (seen != [] ==> Ready(c, kinds, i, j + 1, s))
    ensures var m := c.hooks[i][j].edit(s.mutations[i], seen);
            Ready(c, kinds, i, j + 1, s.With(i, m)) && (|seen| < c.hooks[i][j].limit ==> c.hooks[i][j].again(m, seen))
  {
    BuilderIsSteady(c, kinds, pass, 0, i);
    HookIsSteady(c.hooks[i], kinds[i], 0, j);
  }

  lemma ReadyAgain(c: Config, kinds: seq<seq<Mutation -> bool>>, pass: seq<bool>, i: nat, j: nat, s: State)
    requires c.Valid() && AllSteady(c, kinds, pass, 0) && i < |c.hooks| && j < |c.hooks[i]| && Ready(c, kinds, i, j + 1, s)
    ensures Ready(c, kinds, i, j, s)
  {
    BuilderIsSteady(c, kinds, pass, 0, i);
    HookIsSteady(c.hooks[i], kinds[i], 0, j);
  }

  lemma OneCallMore(pass: seq<bool>, i: nat, n: nat, w: nat, before: nat, between: nat, after: nat)
    requires n > 0 && between == before + Times(pass, i, w) && after == between + Times(pass, i, Calls(n - 1, w))
    ensures after == before + Times(pass, i, Calls(n, w))
  {
  }

  lemma {:induction false} MutateCounts(c: Config, kinds: seq<seq<Mutation -> bool>>, pass: seq<bool>, i: nat, j: nat, s: State)
    requires c.Valid() && AllSteady(c, kinds, pass, 0) && i < |c.hooks| && j <= |c.hooks[i]| && Ready(c, kinds, i, j, s)
    ensures Mutate(c, i, j, s).1.inserts == s.inserts + Times(pass, i, Weight(c, i, j))
    decreases |c.hooks| - i, |c.hooks[i]| - j, 2, 0
  {
    if j == |c.hooks[i]| {
      BaseCounts(c, kinds, pass, i, s);
    } else {
      var n, w := c.hooks[i][j].limit, Weight(c, i, j + 1);
      BuilderIsSteady(c, kinds, pass, 0, i);
      HookCounts(c, kinds, pass, i, j, [], s.Log(EnterHook(i, j)), n, w);
      CallsMultiply(n, w);
    }
  }

  /** `n` calls of `next` are left, each of which counts `w`. */
  lemma {:induction false} HookCounts(c: Config, kinds: seq<seq<Mutation -> bool>>, pass: seq<bool>, i: nat, j: nat, seen: seq<Reply>, s: State, n: nat, w: nat)
    requires c.Valid() && AllSteady(c, kinds, pass, 0) && i < |c.hooks| && j < |c.hooks[i]| && |seen| + n == c.hooks[i][j].limit
    requires Ready(c, kinds, i, j, s) && (seen != [] ==> Ready(c, kinds, i, j + 1, s)) && w == Weight(c, i, j + 1)
    ensures RunHook(c, i, j, seen, s).1.inserts == s.inserts + Times(pass, i, Calls(n, w))
    decreases |c.hooks| - i, |c.hooks[i]| - j, 1, n
  {
    if n > 0 {
      var r, s1 := NextCounts(c, kinds, pass, i, j, seen, s);
      HookCounts(c, kinds, pass, i, j, seen + [r], s1, n - 1, w);
      OneCallMore(pass, i, n, w, s.inserts, s1.inserts, RunHook(c, i, j, seen + [r], s1).1.inserts);
    }
  }

  /** One call of `next`. */
  lemma {:induction false} NextCounts(c: Config, kinds: seq<seq<Mutation -> bool>>, pass: seq<bool>, i: nat, j: nat, seen: seq<Reply>, s: State) returns (r: Reply, s1: State)
    requires c.Valid() && AllSteady(c, kinds, pass, 0) && i < |c.hooks| && j < |c.hooks[i]| && |seen| < c.hooks[i][j].limit
    requires Ready(c, kinds, i, j, s) && (seen != [] ==> Ready(c, kinds, i, j + 1, s))
    ensures Ready(c, kinds, i, j, s1) && Ready(c, kinds, i, j + 1, s1)
    ensures s1.inserts == s.inserts + Times(pass, i, Weight(c, i, j + 1))
    ensures RunHook(c, i, j, seen, s) == RunHook(c, i, j, seen + [r], s1)
    decreases |c.hooks| - i, |c.hooks[i]| - j, 0, 0
  {
    var s0 := s.With(i, c.hooks[i][j].edit(s.mutations[i], seen));
    EditReady(c, kinds, pass, i, j, seen, s);
    var called := Mutate(c, i, j + 1, s0);
    r, s1 := called.0, called.1;
    MutateReady(c, kinds, pass, i, j + 1, s0);
    MutateCounts(c, kinds, pass, i, j + 1, s0);
    ReadyAgain(c, kinds, pass, i, j, s1);
  }

  lemma {:induction false} BaseCounts(c: Config, kinds: seq<seq<Mutation -> bool>>, pass: seq<bool>, i: nat, s: State)
    requires c.Valid() && AllSteady(c, kinds, pass, 0) && i < |c.hooks| && Ready(c, kinds, i, |c.hooks[i]|, s)
    ensures Base(c, i, s).1.inserts == s.inserts + Times(pass, i, Weight(c, i, |c.hooks[i]|))
    decreases |c.hooks| - i, 0, 1, 0
  {
    BaseDecides(c, kinds, pass, i, s);
    if pass[i] && i + 1 < |c.hooks| {
      var s2 := FillSlot(c, i, s.Log(EnterBase(i)));
      NextReady(c, kinds, pass, i, s2);
      MutateCounts(c, kinds, pass, i + 1, 0, s2);
    }
  }

  lemma BaseDecides(c: Config, kinds: seq<seq<Mutation -> bool>>, pass: seq<bool>, i: nat, s: State)
    requires AllSteady(c, kinds, pass, 0) && i < |c.hooks| && Ready(c, kinds, i, |c.hooks[i]|, s)
    ensures c.code.check(s.mutations[i].values) == None <==> pass[i]
    ensures AllFrom(pass, i) <==> pass[i] && (i + 1 < |c.hooks| ==> AllFrom(pass, i + 1))
  {
    BuilderIsSteady(c, kinds, pass, 0, i);
  }

  /** A mutator changes no mutation before its own. */
  lemma {:induction false} UntouchedBefore(c: Config, i: nat, j: nat, s: State, k: nat)
    requires c.Valid() && s.Sized(|c.hooks|) && k < i < |c.hooks| && j <= |c.hooks[i]|
    ensures Mutate(c, i, j, s).1.mutations[k] == s.mutations[k]
    decreases |c.hooks| - i, |c.hooks[i]| - j, 1, 0
  {
    if j < |c.hooks[i]| {
      UntouchedByHook(c, i, j, [], s.Log(EnterHook(i, j)), k);
    } else {
      UntouchedByBase(c, i, s, k);
    }
  }

  lemma {:induction false} UntouchedByBase(c: Config, i: nat, s: State, k: nat)
    requires c.Valid() && s.Sized(|c.hooks|) && k < i < |c.hooks|
    ensures Base(c, i, s).1.mutations[k] == s.mutations[k]
    decreases |c.hooks| - i, 0, 0, 0
  {
    if c.code.check(s.mutations[i].values) == None && i + 1 < |c.hooks| {
      UntouchedBefore(c, i + 1, 0, FillSlot(c, i, s.Log(EnterBase(i))), k);
    }
  }

  lemma {:induction false} UntouchedByHook(c: Config, i: nat, j: nat, seen: seq<Reply>, s: State, k: nat)
    requires c.Valid() && s.Sized(|c.hooks|) && k < i < |c.hooks| && j < |c.hooks[i]| && |seen| <= c.hooks[i][j].limit
    ensures RunHook(c, i, j, seen, s).1.mutations[k] == s.mutations[k]
    decreases |c.hooks| - i, |c.hooks[i]| - j, 0, c.hooks[i][j].limit - |seen|
  {
    var h := c.hooks[i][j];
    var m := h.edit(s.mutations[i], seen);
    if |seen| < h.limit && h.again(m, seen) {
      var (r, s1) := Mutate(c, i, j + 1, s.With(i, m));
      UntouchedBefore(c, i, j + 1, s.With(i, m), k);
      UntouchedByHook(c, i, j, seen + [r], s1, k);
    }
  }

  /**
    With such hooks the batch insert runs exactly as often as the product of the hooks' calls if every
    mutation passes its check, and otherwise never: two calls anywhere insert the batch twice.
   */
  lemma InsertsCounted(c: Config, kinds: seq<seq<Mutation -> bool>>, pass: seq<bool>)
    requires c.Valid() && |c.hooks| > 0 && AllSteady(c, kinds, pass, 0)
    requires forall i :: 0 <= i < |c.hooks| ==> |kinds[i]| > 0 && kinds[i][0](c.mutations[i])
    ensures Run(c).1.inserts == if AllFrom(pass, 0) then Weight(c, 0, 0) else 0
  {
    BuilderIsSteady(c, kinds, pass, 0, 0);
    MutateCounts(c, kinds, pass, 0, 0, Start(c));
  }

  /** A hook that retries although nothing failed. */
  function Twice(): Hook {
    Hook((m, seen) => m, 2, (m, seen) => true, (m, seen) => Reply(Nothing, None))
  }

  /** One builder, one such hook: a mutation that passes its check is inserted twice. */
  lemma TwoCallsInsertTwice(m: Mutation, code: Generated, db: nat -> InsertOutcome)
    requires code.check(m.values) == None
    ensures Run(Config([[Twice()]], [m], code, db)).1.inserts == 2
  {
    var c, same := Config([[Twice()]], [m], code, db), (n: Mutation) => n == m;
    var kinds, pass := [[same, same]], [true];
    assert Steady(Twice(), same, same);
    assert SteadyFrom(c.hooks[0], kinds[0], 1);
    assert AllSteady(c, kinds, pass, 1);
    InsertsCounted(c, kinds, pass);
    assert Weight(c, 0, 1) == 1;
    assert AllFrom(pass, 1);
  }
}
