/** When the order in which a database applies the parts of one field's update matters. */
module FieldOrder {
  import opened Prelude
  import opened AccountSchema
  import opened AccountCreation
  import opened UpdateMutation

  /** The three lists of a field plan. */
  datatype Part = Clears | Values | Sums

  function ApplyPart(s: FieldState, part: Part, v: Option<Value>): Option<Value> {
    match part
    case Clears => if s.cleared then None else v
    case Values => if s.value.Some? then s.value else v
    case Sums => if s.added.Some? then Some(Plus(v, s.added.value)) else v
  }

  function InOrder(order: seq<Part>, s: FieldState, initial: Option<Value>): Option<Value> {
    if order == [] then initial
    else ApplyPart(s, order[|order|-1], InOrder(order[..|order|-1], s, initial))
  }

  /** Each part once. */
  predicate IsOrder(order: seq<Part>) {
    |order| == 3 && order[0] != order[1] && order[0] != order[2] && order[1] != order[2]
  }

  lemma OnePartMore(order: seq<Part>, part: Part, s: FieldState, initial: Option<Value>)
    ensures InOrder(order + [part], s, initial) == ApplyPart(s, part, InOrder(order, s, initial))
  {
    assert (order + [part])[..|order|] == order;
  }

  lemma ThreeParts(a: Part, b: Part, c: Part, s: FieldState, initial: Option<Value>)
    ensures InOrder([a, b, c], s, initial) == ApplyPart(s, c, ApplyPart(s, b, ApplyPart(s, a, initial)))
  {
    OnePartMore([], a, s, initial);
    assert [] + [a] == [a];
    OnePartMore([a], b, s, initial);
    assert [a] + [b] == [a, b];
    OnePartMore([a, b], c, s, initial);
    assert [a, b] + [c] == [a, b, c];
  }

  /** The order assumed of the database. */
  lemma ClearsValuesSums(s: FieldState, initial: Option<Value>)
    ensures InOrder([Clears, Values, Sums], s, initial) == FieldAfter(s, initial)
  {
    ThreeParts(Clears, Values, Sums, s, initial);
  }

  ghost predicate AnyOrder(s: FieldState, initial: Option<Value>) {
    forall order :: IsOrder(order) ==> InOrder(order, s, initial) == FieldAfter(s, initial)
  }

  /** No column is in two lists, but for a sum that changes nothing. */
  predicate OneList(s: FieldState) {
    && !(s.value.Some? && s.cleared)
    && !(s.cleared && s.added.Some?)
    && (s.value.Some? && s.added.Some? ==> Plus(s.value, s.added.value) == s.value.value)
  }

  /** Every order gives the same result exactly if the column is in one list only, or its sum is zero. */
  lemma OrderIsIrrelevantExactlyIf(s: FieldState, initial: Option<Value>)
    ensures AnyOrder(s, initial) <==> OneList(s)
  {
    if OneList(s) {
      forall order | IsOrder(order) ensures InOrder(order, s, initial) == FieldAfter(s, initial) {
        assert order == [order[0], order[1], order[2]];
        ThreeParts(order[0], order[1], order[2], s, initial);
      }
    } else {
      ThreeParts(Values, Sums, Clears, s, initial);
      ThreeParts(Sums, Values, Clears, s, initial);
      ThreeParts(Sums, Clears, Values, s, initial);
      assert IsOrder([Values, Sums, Clears]) && IsOrder([Sums, Values, Clears]) && IsOrder([Sums, Clears, Values]);
    }
  }

  // ---------- In terms of calls ----------

  /** Call `a` is the last that is no `Add`. */
  ghost predicate LastReset(calls: seq<FieldCall>, a: nat) {
    a < |calls| && !calls[a].AddField? && forall j :: a < j < |calls| ==> calls[j].AddField?
  }

  ghost predicate SetLast(calls: seq<FieldCall>) {
    exists a: nat :: LastReset(calls, a) && calls[a].SetField?
  }

  ghost predicate ClearedLast(calls: seq<FieldCall>) {
    exists a: nat :: LastReset(calls, a) && calls[a].ClearField?
  }

  predicate AddedLast(calls: seq<FieldCall>) {
    calls != [] && calls[|calls|-1].AddField?
  }

  lemma ResetExtend(calls: seq<FieldCall>, call: FieldCall)
    ensures call.AddField? ==> (SetLast(calls + [call]) <==> SetLast(calls)) && (ClearedLast(calls + [call]) <==> ClearedLast(calls))
    ensures call.SetField? ==> SetLast(calls + [call]) && !ClearedLast(calls + [call])
    ensures call.ClearField? ==> ClearedLast(calls + [call]) && !SetLast(calls + [call])
  {
    var all := calls + [call];
    assert all[|calls|] == call && forall j :: 0 <= j < |calls| ==> all[j] == calls[j];
    if call.AddField? {
      forall a: nat ensures LastReset(all, a) <==> LastReset(calls, a) {
      }
      if a: nat :| LastReset(calls, a) { assert LastReset(all, a); }
      if a: nat :| LastReset(all, a) { assert LastReset(calls, a); }
    } else {
      assert LastReset(all, |calls|);
    }
  }

  /** What a numeric field holds, by its last call that is no `Add`. */
  lemma {:induction false} NumericHolds(c: Column, calls: seq<FieldCall>)
    requires Addable(c)
    ensures var s := FieldCollected(c, calls);
            && (s.value.Some? <==> SetLast(calls)) && (s.cleared <==> ClearedLast(calls)) && (s.added.Some? <==> AddedLast(calls))
  {
    if calls != [] {
      var before, last := calls[..|calls|-1], calls[|calls|-1];
      assert calls == before + [last];
      NumericHolds(c, before);
      ResetExtend(before, last);
    }
  }

  /** A column is both written and summed exactly if it was set, and all later calls, at least one, add. */
  lemma {:induction false} SetAndAddedExactlyIf(c: Column, calls: seq<FieldCall>)
    requires Allowed(c, calls)
    ensures var s := FieldCollected(c, calls);
            s.value.Some? && s.added.Some? <==> AddedLast(calls) && SetLast(calls)
  {
    NumericOrNot(c, calls);
  }

  /** A column is both cleared and summed exactly if it was cleared, and all later calls, at least one, add. */
  lemma {:induction false} ClearedAndAddedExactlyIf(c: Column, calls: seq<FieldCall>)
    requires Allowed(c, calls)
    ensures var s := FieldCollected(c, calls);
            s.cleared && s.added.Some? <==> AddedLast(calls) && ClearedLast(calls)
  {
    NumericOrNot(c, calls);
  }

  lemma NumericOrNot(c: Column, calls: seq<FieldCall>)
    requires Allowed(c, calls)
    ensures Addable(c) ==>
              var s := FieldCollected(c, calls);
              (s.value.Some? <==> SetLast(calls)) && (s.cleared <==> ClearedLast(calls)) && (s.added.Some? <==> AddedLast(calls))
    ensures !Addable(c) ==> !AddedLast(calls) && FieldCollected(c, calls).added == None
  {
    if Addable(c) {
      NumericHolds(c, calls);
    } else {
      NoSum(c, calls);
    }
  }

  lemma {:induction false} NoSum(c: Column, calls: seq<FieldCall>)
    requires Allowed(c, calls) && !Addable(c)
    ensures !AddedLast(calls) && FieldCollected(c, calls).added == None
  {
    if calls != [] {
      NoSum(c, calls[..|calls|-1]);
      assert Offered(c, calls[|calls|-1]);
    }
  }

  /**
    The calls leave the column in one list only, or in the lists of values and sums with a sum that changes
    nothing: it was not cleared before it was set last without having an `Add`, and no `Add` comes last
    after a clear, or after a set value that the sum changes.
   */
  ghost predicate SafeInAnyOrder(c: Column, calls: seq<FieldCall>) {
    && !(!Addable(c) && calls != [] && calls[|calls|-1].SetField? && ClearField in calls)
    && !(AddedLast(calls) && ClearedLast(calls))
    && (AddedLast(calls) && SetLast(calls) ==> SumChangesNothing(FieldCollected(c, calls)))
  }

  predicate SumChangesNothing(s: FieldState) {
    s.value.Some? && s.added.Some? && Plus(s.value, s.added.value) == s.value.value
  }

  /**
    Without any assumption on the order: exactly after which calls a field ends up as the calls say one by
    one, however a database applies the three lists.
   */
  lemma {:induction false} FieldMatchesCallsInAnyOrder(c: Column, calls: seq<FieldCall>, initial: Option<Value>)
    requires Allowed(c, calls) && Stored(c, initial)
    ensures (forall order :: IsOrder(order) ==> InOrder(order, FieldCollected(c, calls), initial) == FieldExecuted(initial, calls)) <==>
            SafeInAnyOrder(c, calls)
  {
    var s := FieldCollected(c, calls);
    FieldMatchesCalls(c, calls, initial);
    OrderIsIrrelevantExactlyIf(s, initial);
    SetAndClearedExactlyIf(c, calls);
    SetAndAddedExactlyIf(c, calls);
    ClearedAndAddedExactlyIf(c, calls);
    assert AnyOrder(s, initial) <==>
           forall order :: IsOrder(order) ==> InOrder(order, s, initial) == FieldExecuted(initial, calls);
  }

  /** `SetConcurrency(5)` and then `AddConcurrency(3)`: a sum applied before the value is lost. */
  lemma SetThenAddNeedsTheOrder(initial: Option<Value>)
    ensures var s := FieldCollected(CONCURRENCY, [SetField(Int(5)), AddField(Int(3))]);
            && InOrder([Clears, Values, Sums], s, initial) == Some(Int(8))
            && InOrder([Clears, Sums, Values], s, initial) == Some(Int(5))
  {
    var calls := [SetField(Int(5)), AddField(Int(3))];
    assert calls[..1] == [SetField(Int(5))] && calls[..1][..0] == [];
    var s := FieldCollected(CONCURRENCY, calls);
    ThreeParts(Clears, Values, Sums, s, initial);
    ThreeParts(Clears, Sums, Values, s, initial);
  }
}
