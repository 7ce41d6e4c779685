/** The order in which a bulk create enters and leaves hooks and base steps. */
module BulkTrace {
  import opened Prelude
  import opened AccountSchema
  import opened AccountCreation
  import opened BulkCreation
  import opened BulkSafety
  import opened BulkTheorems
  import opened BulkOutcome

  /** What is entered from hook `j` of builder `i` on: hooks outermost first, the base step, the next builder. */
  ghost function Entries(c: Config, i: nat, j: nat, last: nat): seq<Event>
    requires i <= last < |c.hooks| && j <= |c.hooks[i]|
    decreases last - i, |c.hooks[i]| - j
  {
    if j < |c.hooks[i]| then [EnterHook(i, j)] + Entries(c, i, j + 1, last)
    else if i < last then [EnterBase(i)] + Entries(c, i + 1, 0, last)
    else [EnterBase(i)]
  }

  function Leaving(e: Event): Event {
    match e
    case EnterHook(i, j) => ExitHook(i, j)
    case EnterBase(i) => ExitBase(i)
    case _ => e
  }

  /** Leaving what was entered, in exactly the reverse order. */
  ghost function Mirror(entered: seq<Event>): seq<Event> {
    if entered == [] then [] else Mirror(entered[1..]) + [Leaving(entered[0])]
  }

  /** The complete batch, if the last builder reached passes its check. */
  ghost function Commit(c: Config, last: nat): seq<Event>
    requires c.Valid() && last < |c.hooks|
  {
    if Passes(c, last) then [InsertBatch(Targets(c), Specs(c), Nodes(c))] else []
  }

  ghost function Targets(c: Config): seq<Mutation>
    requires c.Valid()
  {
    seq(|c.hooks|, k requires 0 <= k < |c.hooks| => Target(c, k))
  }

  ghost function Specs(c: Config): seq<Option<CreateSpec>>
    requires c.Valid()
  {
    seq(|c.hooks|, k requires 0 <= k < |c.hooks| => Some(c.code.spec(Target(c, k))))
  }

  ghost function Nodes(c: Config): seq<Option<Entity>>
    requires c.Valid()
  {
    seq(|c.hooks|, k requires 0 <= k < |c.hooks| => Some(c.code.node(Target(c, k))))
  }

  ghost function Walk(c: Config, i: nat, j: nat, last: nat): seq<Event>
    requires c.Valid() && i <= last < |c.hooks| && j <= |c.hooks[i]|
  {
    Entries(c, i, j, last) + Commit(c, last) + Mirror(Entries(c, i, j, last))
  }

  lemma WrapWalk(trace: seq<Event>, e: Event, inner: seq<Event>, commit: seq<Event>)
    ensures ((trace + [e]) + (inner + commit + Mirror(inner))) + [Leaving(e)] ==
            trace + (([e] + inner) + commit + Mirror([e] + inner))
  {
    assert ([e] + inner)[1..] == inner;
    assert Mirror([e] + inner) == Mirror(inner) + [Leaving(e)];
  }

  lemma HookWalk(c: Config, i: nat, j: nat, last: nat, trace: seq<Event>)
    requires c.Valid() && i <= last < |c.hooks| && j < |c.hooks[i]|
    ensures trace + Walk(c, i, j, last) == ((trace + [EnterHook(i, j)]) + Walk(c, i, j + 1, last)) + [ExitHook(i, j)]
  {
    WrapWalk(trace, EnterHook(i, j), Entries(c, i, j + 1, last), Commit(c, last));
  }

  lemma BaseWalk(c: Config, i: nat, last: nat, trace: seq<Event>)
    requires c.Valid() && i < last < |c.hooks|
    ensures trace + Walk(c, i, |c.hooks[i]|, last) == ((trace + [EnterBase(i)]) + Walk(c, i + 1, 0, last)) + [ExitBase(i)]
  {
    WrapWalk(trace, EnterBase(i), Entries(c, i + 1, 0, last), Commit(c, last));
  }

  lemma LastWalk(c: Config, i: nat, trace: seq<Event>)
    requires c.Valid() && i < |c.hooks|
    ensures trace + Walk(c, i, |c.hooks[i]|, i) == ((trace + [EnterBase(i)]) + Commit(c, i)) + [ExitBase(i)]
  {
    WrapWalk(trace, EnterBase(i), [], Commit(c, i));
    assert Entries(c, i, |c.hooks[i]|, i) == [EnterBase(i)] + [];
    assert [] + Commit(c, i) + Mirror([]) == Commit(c, i);
  }

  lemma {:induction false} MutateTrace(c: Config, i: nat, j: nat, s: State, last: nat)
    requires c.Valid() && CallsOnce(c) && i < |c.hooks| && last == LastReached(c, i) && j <= |c.hooks[i]| && Settled(c, i, j, s)
    ensures Mutate(c, i, j, s).1.trace == s.trace + Walk(c, i, j, last)
    decreases |c.hooks| - i, |c.hooks[i]| - j, 1
  {
    if j < |c.hooks[i]| {
      var s1 := s.Log(EnterHook(i, j)).With(i, c.hooks[i][j].edit(s.mutations[i], []));
      EnterSettled(c, i, j, s);
      HookTrace(c, i, j, s);
      MutateTrace(c, i, j + 1, s1, last);
      HookWalk(c, i, j, last, s.trace);
    } else {
      BaseTrace(c, i, s, last);
    }
  }

  lemma {:induction false} BaseTrace(c: Config, i: nat, s: State, last: nat)
    requires c.Valid() && CallsOnce(c) && i < |c.hooks| && last == LastReached(c, i) && Settled(c, i, |c.hooks[i]|, s)
    ensures Base(c, i, s).1.trace == s.trace + Walk(c, i, |c.hooks[i]|, last)
    decreases |c.hooks| - i, 0, 0
  {
    var s1 := s.Log(EnterBase(i));
    SoundLog(c, i, s, EnterBase(i));
    BaseStepTrace(c, i, s);
    if i < last {
      NextSettled(c, i, s1);
      MutateTrace(c, i + 1, 0, FillSlot(c, i, s1), last);
      BaseWalk(c, i, last, s.trace);
    } else {
      InnermostTrace(c, i, s1);
      LastWalk(c, i, s.trace);
    }
  }

  lemma HookTrace(c: Config, i: nat, j: nat, s: State)
    requires c.Valid() && s.Sized(|c.hooks|) && i < |c.hooks| && j < |c.hooks[i]| && CallsNextOnce(c.hooks[i][j])
    ensures var s1 := s.Log(EnterHook(i, j)).With(i, c.hooks[i][j].edit(s.mutations[i], []));
            Mutate(c, i, j, s).1.trace == Mutate(c, i, j + 1, s1).1.trace + [ExitHook(i, j)]
  {
    OneCall(c, i, j, s);
  }

  lemma BaseStepTrace(c: Config, i: nat, s: State)
    requires c.Valid() && s.Sized(|c.hooks|) && i < |c.hooks|
    ensures var s1 := s.Log(EnterBase(i));
            Base(c, i, s).1.trace ==
              (if c.code.check(s.mutations[i].values) == None then Inner(c, i, FillSlot(c, i, s1)).1.trace else s1.trace) + [ExitBase(i)]
  {
  }

  lemma NextSettled(c: Config, i: nat, s: State)
    requires c.Valid() && i + 1 < |c.hooks| && Settled(c, i, |c.hooks[i]|, s) && Passes(c, i)
    ensures Settled(c, i + 1, 0, FillSlot(c, i, s))
  {
    FillKeeps(c, i, s);
  }

  /** The last base step inserts the batch, or fails its check, and calls no other mutator. */
  lemma InnermostTrace(c: Config, i: nat, s: State)
    requires c.Valid() && i < |c.hooks| && (i + 1 < |c.hooks| ==> !Passes(c, i)) && Settled(c, i, |c.hooks[i]|, s)
    ensures Passes(c, i) ==> Inner(c, i, FillSlot(c, i, s)).1.trace == s.trace + Commit(c, i)
    ensures !Passes(c, i) ==> s.trace == s.trace + Commit(c, i)
  {
    if Passes(c, i) {
      FillKeeps(c, i, s);
      var s1 := FillSlot(c, i, s);
      forall k | 0 <= k < |c.hooks|
        ensures s1.mutations[k] == Target(c, k) && s1.specs[k] == Some(c.code.spec(Target(c, k)))
                && s1.nodes[k] == Some(c.code.node(Target(c, k)))
      {
        assert SlotMade(c, s1.mutations[k], s1.specs[k], s1.nodes[k]);
      }
      assert s1.mutations == Targets(c) && s1.specs == Specs(c) && s1.nodes == Nodes(c);
    }
  }

  /**
    Nesting, for hooks that call `next` once: the run enters builder 0's hooks from the outermost in,
    builder 0's base step, builder 1's hooks and so on, up to the first builder that fails its check or
    the last of all; if none fails the complete batch is inserted at the innermost point; and then
    everything entered is left in exactly the reverse order.
   */
  lemma RunIsBracketed(c: Config)
    requires c.Valid() && CallsOnce(c) && |c.hooks| > 0
    ensures Run(c).1.trace == Walk(c, 0, 0, LastReached(c, 0))
    ensures Commit(c, LastReached(c, 0)) != [] <==> AllPassFrom(c, 0)
  {
    var last := LastReached(c, 0);
    StartSettled(c);
    MutateTrace(c, 0, 0, Start(c), last);
    assert Start(c).trace + Walk(c, 0, 0, last) == Walk(c, 0, 0, last);
    LastIsReached(c, 0);
    AllPassIsReached(c, 0);
  }
}
