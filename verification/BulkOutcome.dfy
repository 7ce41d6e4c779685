/** Exactly when a bulk create is all-or-nothing. */
module BulkOutcome {
  import opened Prelude
  import opened AccountSchema
  import opened AccountCreation
  import opened BulkCreation
  import opened BulkSafety
  import opened BulkTheorems

  /** A run either commits and completes every builder, or reports an error, completes none and commits nothing. */
  ghost predicate AllOrNothing(c: Config)
    requires c.Valid()
  {
    var (e, s) := Run(c);
    && (e == None ==> forall k :: 0 <= k < |c.hooks| ==> s.done[k] && s.nodes[k] == Some(CompletedNode(c, k)))
    && (e == None && |c.hooks| > 0 ==> s.inserts == 1 && c.db(0).Inserted?)
    && (e != None ==> forall k :: 0 <= k < |c.hooks| ==> !s.done[k])
    && (e != None ==> s.inserts == 0 || (s.inserts == 1 && c.db(0).Refused?))
  }

  /** The last builder whose base step runs: the first to fail its check, or the last of all. */
  ghost function LastReached(c: Config, i: nat): (last: nat)
    requires c.Valid() && i < |c.hooks|
    ensures i <= last < |c.hooks| && (last + 1 < |c.hooks| ==> !Passes(c, last))
    decreases |c.hooks| - i
  {
    if Passes(c, i) && i + 1 < |c.hooks| then LastReached(c, i + 1) else i
  }

  lemma {:induction false} LastIsReached(c: Config, i: nat)
    requires c.Valid() && i < |c.hooks| && Reaches(c, i)
    ensures Reaches(c, LastReached(c, i))
    decreases |c.hooks| - i
  {
    if Passes(c, i) && i + 1 < |c.hooks| {
      LastIsReached(c, i + 1);
    }
  }

  /** The hooks of builder `i` together report the success or failure of its base step as it was. */
  ghost predicate OutcomeKept(c: Config, i: nat)
    requires c.Valid() && i < |c.hooks|
  {
    ChainReply(c, i).error == None <==> BaseReply(c, i).error == None
  }

  /** The batch is complete and the database takes it. */
  ghost predicate Commits(c: Config)
    requires c.Valid()
  {
    AllPassFrom(c, 0) && c.db(0).Inserted?
  }

  /** A base step succeeds exactly if the batch is committed, once what it calls does. */
  lemma BaseFollows(c: Config, last: nat, i: nat)
    requires c.Valid() && |c.hooks| > 0 && last == LastReached(c, 0) && i <= last
    requires i < last ==> (ChainReply(c, i + 1).error == None <==> Commits(c))
    ensures Completes(c, i) <==> Commits(c)
  {
    LastIsReached(c, 0);
    AllPassIsReached(c, 0);
    if i < last {
      assert Passes(c, i);
      assert InnerError(c, i) == ChainReply(c, i + 1).error;
    } else if Passes(c, i) {
      assert i + 1 == |c.hooks| && Reaches(c, |c.hooks|);
      assert InnerError(c, i) == None <==> c.db(0).Inserted?;
    } else {
      assert !Reaches(c, |c.hooks|);
    }
  }

  /** If the hooks keep the outcomes, every builder reached succeeds exactly if the batch is committed. */
  lemma {:induction false} KeptOutcomesAgree(c: Config, last: nat, i: nat)
    requires c.Valid() && |c.hooks| > 0 && last == LastReached(c, 0) && i <= last
    requires forall k :: i <= k <= last ==> OutcomeKept(c, k)
    ensures Completes(c, i) <==> Commits(c)
    ensures ChainReply(c, i).error == None <==> Commits(c)
    decreases last - i
  {
    if i < last {
      KeptOutcomesAgree(c, last, i + 1);
    }
    BaseFollows(c, last, i);
    assert OutcomeKept(c, i);
  }

  lemma {:induction false} KeptIsAllOrNothing(c: Config)
    requires c.Valid() && CallsOnce(c) && |c.hooks| > 0
    requires forall k :: 0 <= k <= LastReached(c, 0) ==> OutcomeKept(c, k)
    ensures AllOrNothing(c)
  {
    var last := LastReached(c, 0);
    RunReports(c);
    LastIsReached(c, 0);
    AllPassIsReached(c, 0);
    KeptOutcomesAgree(c, last, 0);
    forall k | 0 <= k < |c.hooks| ensures Reaches(c, k) && Completes(c, k) <==> Commits(c) {
      if k <= last {
        KeptOutcomesAgree(c, last, k);
      } else {
        assert !Passes(c, last) && !Reaches(c, |c.hooks|);
      }
    }
  }

  lemma {:induction false} AllOrNothingIsKept(c: Config, i: nat)
    requires c.Valid() && CallsOnce(c) && |c.hooks| > 0 && AllOrNothing(c) && i <= LastReached(c, 0)
    ensures OutcomeKept(c, i)
  {
    var last := LastReached(c, 0);
    RunReports(c);
    LastIsReached(c, 0);
    assert Reaches(c, i);
    if i > 0 {
      assert Reaches(c, i - 1) && Passes(c, i - 1);
      assert Completes(c, i - 1) <==> InnerError(c, i - 1) == None;
    }
  }

  /**
    Exactly when a run of hooks that call `next` once is all-or-nothing: the hooks of every builder that is
    reached together report the success or failure of its base step as it was.
   */
  lemma AllOrNothingExactlyIf(c: Config)
    requires c.Valid() && CallsOnce(c) && |c.hooks| > 0
    ensures AllOrNothing(c) <==> forall i :: 0 <= i <= LastReached(c, 0) ==> OutcomeKept(c, i)
  {
    if AllOrNothing(c) {
      forall i | 0 <= i <= LastReached(c, 0) ensures OutcomeKept(c, i) {
        AllOrNothingIsKept(c, i);
      }
    } else if forall i :: 0 <= i <= LastReached(c, 0) ==> OutcomeKept(c, i) {
      KeptIsAllOrNothing(c);
    }
  }

  // ---------- Hooks that look at success or failure only ----------

  /** Together, the hooks of a builder report every outcome unchanged. */
  ghost predicate Transparent(hooks: seq<Hook>) {
    forall m, r :: Answered(hooks, 0, m, r).0.error == None <==> r.error == None
  }

  ghost predicate AllTransparent(c: Config) {
    forall i :: 0 <= i < |c.hooks| ==> Transparent(c.hooks[i])
  }

  /** Hooks that call `next` once and report its outcome make a bulk create all-or-nothing. */
  lemma TransparentIsAllOrNothing(c: Config)
    requires c.Valid() && CallsOnce(c) && AllTransparent(c)
    ensures AllOrNothing(c)
  {
    if |c.hooks| > 0 {
      forall i | 0 <= i <= LastReached(c, 0) ensures OutcomeKept(c, i) {
        assert Transparent(c.hooks[i]);
      }
      KeptIsAllOrNothing(c);
    }
  }

  /** Whether a hook fails depends on whether `next` failed, and on nothing else. */
  ghost predicate Blunt(h: Hook) {
    forall m, m', r: Reply, r': Reply :: (r.error == None <==> r'.error == None) ==>
      (h.answer(m, [r]).error == None <==> h.answer(m', [r']).error == None)
  }

  ghost predicate AllBlunt(hooks: seq<Hook>) {
    forall j :: 0 <= j < |hooks| ==> Blunt(hooks[j])
  }

  lemma {:induction false} BluntAnswers(hooks: seq<Hook>, j: nat, m: Mutation, r: Reply, m': Mutation, r': Reply)
    requires AllBlunt(hooks) && (r.error == None <==> r'.error == None)
    ensures Answered(hooks, j, m, r).0.error == None <==> Answered(hooks, j, m', r').0.error == None
    decreases |hooks| - j
  {
    if j < |hooks| {
      BluntAnswers(hooks, j + 1, m, r, m', r');
      var (r1, m1) := Answered(hooks, j + 1, m, r);
      var (r1', m1') := Answered(hooks, j + 1, m', r');
      assert Blunt(hooks[j]);
      var (a, a') := (hooks[j].edit(m1, [r1]), hooks[j].edit(m1', [r1']));
      assert hooks[j].answer(a, [r1]).error == None <==> hooks[j].answer(a', [r1']).error == None;
    }
  }

  /** Given that outcome, the hooks of a builder together report it. */
  ghost predicate KeepsOutcome(hooks: seq<Hook>, ok: bool) {
    forall m, r: Reply :: (r.error == None <==> ok) ==> (Answered(hooks, 0, m, r).0.error == None <==> ok)
  }

  lemma {:induction false} KeepingHooksAgree(c: Config, last: nat, i: nat)
    requires c.Valid() && |c.hooks| > 0 && last == LastReached(c, 0) && i <= last
    requires forall k :: i <= k <= last ==> KeepsOutcome(c.hooks[k], Commits(c))
    ensures Completes(c, i) <==> Commits(c)
    ensures ChainReply(c, i).error == None <==> Commits(c)
    decreases last - i
  {
    if i < last {
      KeepingHooksAgree(c, last, i + 1);
    }
    BaseFollows(c, last, i);
    assert KeepsOutcome(c.hooks[i], Commits(c));
  }

  /**
    The same as a condition on the hooks alone, for hooks that look at success or failure only: whether or
    not the checks pass, a run is all-or-nothing if and only if the hooks of every builder reached keep the
    outcome of the batch.
   */
  lemma AllOrNothingByHooks(c: Config)
    requires c.Valid() && CallsOnce(c) && |c.hooks| > 0 && forall i :: 0 <= i < |c.hooks| ==> AllBlunt(c.hooks[i])
    ensures AllOrNothing(c) <==> forall i :: 0 <= i <= LastReached(c, 0) ==> KeepsOutcome(c.hooks[i], Commits(c))
  {
    var last := LastReached(c, 0);
    if AllOrNothing(c) {
      forall k | 0 <= k <= last ensures OutcomeKept(c, k) {
        AllOrNothingIsKept(c, k);
      }
      forall i | 0 <= i <= last ensures KeepsOutcome(c.hooks[i], Commits(c)) {
        KeptOutcomesAgree(c, last, i);
        forall m: Mutation, r: Reply | r.error == None <==> Commits(c)
          ensures Answered(c.hooks[i], 0, m, r).0.error == None <==> Commits(c)
        {
          BluntAnswers(c.hooks[i], 0, m, r, Target(c, i), BaseReply(c, i));
        }
      }
    } else if forall i :: 0 <= i <= last ==> KeepsOutcome(c.hooks[i], Commits(c)) {
      forall k | 0 <= k <= last ensures OutcomeKept(c, k) {
        KeepingHooksAgree(c, last, k);
      }
      KeptIsAllOrNothing(c);
    }
  }

  /** A success and a failure that are kept show that every outcome is. */
  lemma KeptTwiceIsTransparent(hooks: seq<Hook>, m: Mutation, good: Reply, m': Mutation, bad: Reply)
    requires AllBlunt(hooks) && good.error == None && bad.error != None
    requires Answered(hooks, 0, m, good).0.error == None && Answered(hooks, 0, m', bad).0.error != None
    ensures Transparent(hooks)
  {
    forall n, r ensures Answered(hooks, 0, n, r).0.error == None <==> r.error == None {
      if r.error == None {
        BluntAnswers(hooks, 0, n, r, m, good);
      } else {
        BluntAnswers(hooks, 0, n, r, m', bad);
      }
    }
  }

  ghost function Answering(c: Config, answer: InsertOutcome): Config {
    c.(db := n => answer)
  }

  /**
    For such hooks, each calling `next` once, and mutations that pass their checks, the run is
    all-or-nothing whatever the database answers if and only if the hooks of every single builder
    together report the outcome unchanged.
   */
  lemma AllOrNothingIffTransparent(c: Config, ids: nat -> Option<int>, constraint: bool)
    requires c.Valid() && CallsOnce(c) && AllPassFrom(c, 0) && forall i :: 0 <= i < |c.hooks| ==> AllBlunt(c.hooks[i])
    ensures AllTransparent(c) <==>
            AllOrNothing(Answering(c, Inserted(ids))) && AllOrNothing(Answering(c, Refused(constraint)))
  {
    var yes, no := Answering(c, Inserted(ids)), Answering(c, Refused(constraint));
    if AllTransparent(c) {
      TransparentIsAllOrNothing(yes);
      TransparentIsAllOrNothing(no);
    }
    if AllOrNothing(yes) && AllOrNothing(no) && |c.hooks| > 0 {
      forall i | 0 <= i < |c.hooks| ensures Transparent(c.hooks[i]) {
        CommittedOutcome(c, yes, i);
        CommittedOutcome(c, no, i);
        KeptTwiceIsTransparent(c.hooks[i], Target(c, i), BaseReply(yes, i), Target(c, i), BaseReply(no, i));
      }
    }
  }

  lemma CommittedOutcome(c: Config, d: Config, i: nat)
    requires c.Valid() && d == c.(db := d.db) && CallsOnce(c) && AllPassFrom(c, 0) && i < |c.hooks| && AllOrNothing(d)
    ensures Target(d, i) == Target(c, i)
    ensures BaseReply(d, i).error == None <==> d.db(0).Inserted?
    ensures Answered(c.hooks[i], 0, Target(c, i), BaseReply(d, i)).0.error == None <==> d.db(0).Inserted?
  {
    SamePasses(c, d, 0);
    AllPassIsReached(d, 0);
    var last := LastReached(d, 0);
    assert last + 1 == |d.hooks|;
    forall k | 0 <= k <= last ensures OutcomeKept(d, k) {
      AllOrNothingIsKept(d, k);
    }
    KeptOutcomesAgree(d, last, i);
  }

  /**
    For such hooks, each calling `next` once: the run is all-or-nothing whatever the database answers if
    and only if the hooks of every builder reached keep a failure, and keep a success too if no check fails.
   */
  lemma AllOrNothingForEveryAnswer(c: Config, ids: nat -> Option<int>, constraint: bool)
    requires c.Valid() && CallsOnce(c) && |c.hooks| > 0 && forall i :: 0 <= i < |c.hooks| ==> AllBlunt(c.hooks[i])
    ensures AllOrNothing(Answering(c, Inserted(ids))) && AllOrNothing(Answering(c, Refused(constraint))) <==>
            forall i :: 0 <= i <= LastReached(c, 0) ==>
              KeepsOutcome(c.hooks[i], false) && (AllPassFrom(c, 0) ==> KeepsOutcome(c.hooks[i], true))
  {
    var yes, no := Answering(c, Inserted(ids)), Answering(c, Refused(constraint));
    SamePasses(c, yes, 0);
    SamePasses(c, no, 0);
    SameLast(c, yes, 0);
    SameLast(c, no, 0);
    AllOrNothingByHooks(yes);
    AllOrNothingByHooks(no);
    assert Commits(yes) == AllPassFrom(c, 0) && !Commits(no);
  }

  lemma {:induction false} SameLast(c: Config, d: Config, i: nat)
    requires c.Valid() && d == c.(db := d.db) && i < |c.hooks|
    ensures LastReached(d, i) == LastReached(c, i)
    decreases |c.hooks| - i
  {
    assert Target(c, i) == Target(d, i);
    if i + 1 < |c.hooks| { SameLast(c, d, i + 1); }
  }

  lemma {:induction false} SamePasses(c: Config, d: Config, i: nat)
    requires c.Valid() && d == c.(db := d.db)
    ensures AllPassFrom(c, i) <==> AllPassFrom(d, i)
    decreases |c.hooks| - i
  {
    if i < |c.hooks| {
      assert Target(c, i) == Target(d, i);
      SamePasses(c, d, i + 1);
    }
  }

  // ---------- A hook that hides a failed check ----------

  function Swallower(): Hook {
    Hook((m, seen) => m, 1, (m, seen) => seen == [], (m, seen) => Reply(Nothing, None))
  }

  /** Checks that only ask for a name. */
  function NameOnly(): Generated {
    Generated(values => if NAME in values then None else Some(Missing(NAME)), m => BLANK, m => CreateSpec([], [], []))
  }

  function TwoBuilders(db: nat -> InsertOutcome): Config {
    var good := Mutation(map[NAME := Text("n")], None, {}, {});
    Config([[], [Swallower()]], [good, good.(values := map[])], NameOnly(), db)
  }

  /**
    The second builder fails its check and its hook swallows the error: `Save` succeeds, the first mutation
    is done, the second is not, and nothing was inserted.
   */
  lemma SwallowedCheckIsHalfDone(db: nat -> InsertOutcome)
    ensures var (e, s) := Run(TwoBuilders(db));
            e == None && s.inserts == 0 && s.done[0] && !s.done[1] && !AllOrNothing(TwoBuilders(db))
  {
    var c := TwoBuilders(db);
    SwallowerCallsOnce();
    assert CallsOnce(c);
    RunReports(c);
    SwallowerAnswers(BaseReply(c, 1));
    assert Passes(c, 0) && !Passes(c, 1);
    assert Reaches(c, 0) && Reaches(c, 1);
    assert ChainReply(c, 1).error == None && Completes(c, 0) && !Completes(c, 1);
    assert !AllPassFrom(c, 1);
  }

  lemma SwallowerCallsOnce()
    ensures CallsNextOnce(Swallower())
  {
  }

  lemma SwallowerAnswers(r: Reply)
    ensures forall m :: Prepared([Swallower()], 0, m) == m && Answered([Swallower()], 0, m, r) == (Reply(Nothing, None), m)
    ensures forall m :: Prepared([], 0, m) == m && Answered([], 0, m, r) == (r, m)
  {
    var hooks := [Swallower()];
    forall m: Mutation ensures Prepared(hooks, 0, m) == m && Answered(hooks, 0, m, r) == (Reply(Nothing, None), m) {
      assert Prepared(hooks, 1, m) == m && Answered(hooks, 1, m, r) == (r, m);
    }
  }
}
