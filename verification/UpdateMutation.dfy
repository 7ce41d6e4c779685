/** The changes an AccountMutation collects for an update, and what its calls mean one after the other. */
module UpdateMutation {
  import opened Prelude
  import opened AccountSchema
  import opened AccountCreation

  function SetOf(ids: seq<int>): set<int> {
    set i | i in ids
  }

  // ---------- A to-many edge ----------

  datatype EdgeState = EdgeState(ids: set<int>, removed: set<int>, cleared: bool)

  datatype EdgeCall = AddIDs(ids: seq<int>) | RemoveIDs(ids: seq<int>) | ClearEdge

  function EdgeStep(s: EdgeState, call: EdgeCall): EdgeState {
    match call
    case AddIDs(ids) => s.(ids := s.ids + SetOf(ids))
    case RemoveIDs(ids) => s.(ids := s.ids - SetOf(ids), removed := s.removed + SetOf(ids))
    case ClearEdge => s.(cleared := true)
  }

  /** What the mutation holds after the calls. */
  function Collected(calls: seq<EdgeCall>): EdgeState {
    if calls == [] then EdgeState({}, {}, false)
    else EdgeStep(Collected(calls[..|calls|-1]), calls[|calls|-1])
  }

  /** What the calls would do if each took effect at once. */
  function Executed(initial: set<int>, calls: seq<EdgeCall>): set<int> {
    if calls == [] then initial
    else
      var now := Executed(initial, calls[..|calls|-1]);
      match calls[|calls|-1]
      case AddIDs(ids) => now + SetOf(ids)
      case RemoveIDs(ids) => now - SetOf(ids)
      case ClearEdge => {}
  }

  /** The neighbours after an update with these collected changes. */
  function Neighbours(s: EdgeState, initial: set<int>): set<int> {
    (if s.cleared then {} else initial - s.removed) + s.ids
  }

  /** Ids added before a clear that no later call mentions: the update adds them although the clear came last. */
  function Revived(calls: seq<EdgeCall>): set<int> {
    if calls == [] then {}
    else
      var before := calls[..|calls|-1];
      match calls[|calls|-1]
      case AddIDs(ids) => Revived(before) - SetOf(ids)
      case RemoveIDs(ids) => Revived(before) - SetOf(ids)
      case ClearEdge => Collected(before).ids
  }

  /** The update does what the calls say, except that it adds the revived ids too. */
  lemma {:induction false} UpdateIsCallsPlusRevived(calls: seq<EdgeCall>, initial: set<int>)
    ensures Neighbours(Collected(calls), initial) == Executed(initial, calls) + Revived(calls)
    ensures Executed(initial, calls) !! Revived(calls)
  {
    if calls != [] {
      UpdateIsCallsPlusRevived(calls[..|calls|-1], initial);
    }
  }

  /** Call `a` adds the id, a clear follows at `c`, nothing removes the id after `a`, and nothing adds it after `c`. */
  ghost predicate RevivedBy(calls: seq<EdgeCall>, id: int, a: nat, c: nat) {
    && a < c < |calls| && calls[a].AddIDs? && id in calls[a].ids && calls[c].ClearEdge?
    && (forall j :: a < j < |calls| && calls[j].RemoveIDs? ==> id !in calls[j].ids)
    && (forall j :: c < j < |calls| && calls[j].AddIDs? ==> id !in calls[j].ids)
  }

  ghost predicate AddedBy(calls: seq<EdgeCall>, id: int, a: nat) {
    && a < |calls| && calls[a].AddIDs? && id in calls[a].ids
    && (forall j :: a < j < |calls| && calls[j].RemoveIDs? ==> id !in calls[j].ids)
  }

  lemma {:induction false} PendingIsAddedLast(calls: seq<EdgeCall>, id: int)
    ensures id in Collected(calls).ids <==> exists a: nat :: AddedBy(calls, id, a)
  {
    if calls != [] {
      var before, last := calls[..|calls|-1], calls[|calls|-1];
      PendingIsAddedLast(before, id);
      if a: nat :| AddedBy(before, id, a) {
        assert calls[a] == before[a];
        if !(last.RemoveIDs? && id in last.ids) { assert AddedBy(calls, id, a); }
      }
      if a: nat :| AddedBy(calls, id, a) && a < |before| {
        assert AddedBy(before, id, a);
      }
      if last.AddIDs? && id in last.ids {
        assert AddedBy(calls, id, |before|);
      }
    }
  }

  lemma RevivedByShorter(calls: seq<EdgeCall>, id: int, a: nat, c: nat)
    requires calls != [] && c < |calls| - 1
    ensures var before, last := calls[..|calls|-1], calls[|calls|-1];
            RevivedBy(calls, id, a, c) <==>
            RevivedBy(before, id, a, c) && (last.ClearEdge? || id !in last.ids)
  {
    var before := calls[..|calls|-1];
    assert forall j :: 0 <= j < |before| ==> before[j] == calls[j];
  }

  lemma {:induction false} RevivedExactlyIf(calls: seq<EdgeCall>, id: int)
    ensures id in Revived(calls) <==> exists a: nat, c: nat :: RevivedBy(calls, id, a, c)
  {
    if calls != [] {
      var n := |calls| - 1;
      var before, last := calls[..n], calls[n];
      RevivedExactlyIf(before, id);
      PendingIsAddedLast(before, id);
      if id in Revived(calls) {
        if last.ClearEdge? {
          var a: nat :| AddedBy(before, id, a);
          assert calls[a] == before[a];
          assert RevivedBy(calls, id, a, n);
        } else {
          var a: nat, c: nat :| RevivedBy(before, id, a, c);
          RevivedByShorter(calls, id, a, c);
        }
      }
      if a: nat, c: nat :| RevivedBy(calls, id, a, c) {
        if c < n {
          RevivedByShorter(calls, id, a, c);
          RevivedWasPending(before, id, a, c);
        } else {
          assert AddedBy(before, id, a);
        }
      }
    }
  }

  lemma RevivedWasPending(calls: seq<EdgeCall>, id: int, a: nat, c: nat)
    requires RevivedBy(calls, id, a, c)
    ensures id in Collected(calls).ids
  {
    PendingIsAddedLast(calls, id);
    assert AddedBy(calls, id, a);
  }

  /** An update of a to-many edge does exactly what its calls say unless an added id is then cleared and never mentioned again. */
  lemma UpdateMatchesCallsExactlyIf(calls: seq<EdgeCall>, initial: set<int>)
    ensures Neighbours(Collected(calls), initial) == Executed(initial, calls) <==>
            forall id, a: nat, c: nat :: !RevivedBy(calls, id, a, c)
  {
    UpdateIsCallsPlusRevived(calls, initial);
    var revived := Revived(calls);
    forall id ensures id in revived <==> exists a: nat, c: nat :: RevivedBy(calls, id, a, c) {
      RevivedExactlyIf(calls, id);
    }
    if id, a: nat, c: nat :| RevivedBy(calls, id, a, c) {
      assert id in revived;
    }
    if Neighbours(Collected(calls), initial) != Executed(initial, calls) {
      var id :| id in revived;
    }
  }

  /** Adding a group and then clearing all groups leaves the account in that group. */
  lemma AddThenClearAdds()
    ensures var calls := [AddIDs([7]), ClearEdge];
            Neighbours(Collected(calls), {1}) == {7} && Executed({1}, calls) == {}
  {
    var calls := [AddIDs([7]), ClearEdge];
    assert calls[..1] == [AddIDs([7])] && calls[..1][..0] == [];
  }

  // ---------- The proxy edge ----------

  datatype ProxyCall = SetProxy(id: int) | ClearProxy | ClearProxyID

  datatype ProxyState = ProxyState(pending: Option<int>, cleared: bool)

  function ProxyStep(s: ProxyState, call: ProxyCall): ProxyState {
    match call
    case SetProxy(id) => s.(pending := Some(id))
    case ClearProxy => s.(cleared := true)
    case ClearProxyID => ProxyState(None, true)
  }

  function ProxyCollected(calls: seq<ProxyCall>): ProxyState {
    if calls == [] then ProxyState(None, false)
    else ProxyStep(ProxyCollected(calls[..|calls|-1]), calls[|calls|-1])
  }

  function ProxyExecuted(initial: Option<int>, calls: seq<ProxyCall>): Option<int> {
    if calls == [] then initial
    else match calls[|calls|-1] case SetProxy(id) => Some(id) case _ => None
  }

  function ProxyAfter(s: ProxyState, initial: Option<int>): Option<int> {
    if s.pending.Some? then s.pending else if s.cleared then None else initial
  }

  ghost predicate ProxyPendingFrom(calls: seq<ProxyCall>, a: nat) {
    a < |calls| && calls[a].SetProxy? && forall j :: a < j < |calls| ==> !calls[j].ClearProxyID?
  }

  lemma {:induction false} ProxyPendingExactlyIf(calls: seq<ProxyCall>)
    ensures ProxyCollected(calls).pending.Some? <==> exists a: nat :: ProxyPendingFrom(calls, a)
    ensures calls != [] && !calls[|calls|-1].SetProxy? ==> ProxyCollected(calls).cleared
  {
    if calls != [] {
      var n := |calls| - 1;
      var before := calls[..n];
      ProxyPendingExactlyIf(before);
      if a: nat :| ProxyPendingFrom(before, a) {
        assert calls[a] == before[a];
        if !calls[n].ClearProxyID? { assert ProxyPendingFrom(calls, a); }
      }
      if a: nat :| ProxyPendingFrom(calls, a) && a < n {
        assert ProxyPendingFrom(before, a);
      }
      if calls[n].SetProxy? {
        assert ProxyPendingFrom(calls, n);
      }
    }
  }

  /** `ClearProxy` as the last call has no effect exactly when a proxy was set and its field not cleared since. */
  lemma ProxyMatchesCallsExactlyIf(calls: seq<ProxyCall>, initial: Option<int>)
    ensures ProxyAfter(ProxyCollected(calls), initial) == ProxyExecuted(initial, calls) <==>
            !(calls != [] && calls[|calls|-1].ClearProxy? && exists a: nat :: ProxyPendingFrom(calls, a))
  {
    ProxyPendingExactlyIf(calls);
  }

  // ---------- A field ----------

  datatype FieldCall = SetField(v: Value) | AddField(v: Value) | ClearField

  datatype FieldState = FieldState(value: Option<Value>, added: Option<Value>, cleared: bool)

  /** The fields with a numeric `Add`; their setters reset the field first. */
  predicate Addable(c: Column) {
    c == CONCURRENCY || c == LOAD_FACTOR || c == PRIORITY || c == RATE_MULTIPLIER
  }

  /** The fields with a `Clear`. */
  predicate Clearable(c: Column) {
    FieldShape(c).Pointer? && c != PROXY_ID
  }

  function Plus(a: Option<Value>, b: Value): Value {
    match (a, b)
    case (Some(Int(m)), Int(n)) => Int(m + n)
    case (Some(Float(x)), Float(y)) => Float(x + y)
    case _ => b
  }

  function FieldStep(c: Column, s: FieldState, call: FieldCall): FieldState {
    match call
    case SetField(v) => if Addable(c) then FieldState(Some(v), None, false) else s.(value := Some(v))
    case AddField(v) => s.(added := Some(Plus(s.added, v)))
    case ClearField => FieldState(None, None, true)
  }

  function FieldCollected(c: Column, calls: seq<FieldCall>): FieldState {
    if calls == [] then FieldState(None, None, false)
    else FieldStep(c, FieldCollected(c, calls[..|calls|-1]), calls[|calls|-1])
  }

  function FieldExecuted(initial: Option<Value>, calls: seq<FieldCall>): Option<Value> {
    if calls == [] then initial
    else match calls[|calls|-1]
      case SetField(v) => Some(v)
      case AddField(v) => Some(Plus(FieldExecuted(initial, calls[..|calls|-1]), v))
      case ClearField => None
  }

  /** The calls the typed setters of a column allow. */
  ghost predicate Allowed(c: Column, calls: seq<FieldCall>) {
    forall i :: 0 <= i < |calls| ==> Offered(c, calls[i])
  }

  /** The stored value after an update: clearing first, then the value set, then the sum added to it. */
  function FieldAfter(s: FieldState, initial: Option<Value>): Option<Value> {
    var base := if s.value.Some? then s.value else if s.cleared then None else initial;
    if s.added.Some? then Some(Plus(base, s.added.value)) else base
  }

  ghost predicate Stored(c: Column, v: Option<Value>) {
    v.Some? ==> Fits(TypeOf(c), v.value)
  }

  lemma PlusAssociates(c: Column, a: Option<Value>, b: Option<Value>, v: Value)
    requires Addable(c) && Stored(c, a) && Stored(c, b) && Fits(TypeOf(c), v)
    ensures Stored(c, Some(Plus(a, v)))
    ensures Plus(a, Plus(b, v)) == Plus(if b.Some? then Some(Plus(a, b.value)) else a, v)
  {
  }

  /** An update of a field does exactly what its calls say, whatever calls were made. */
  lemma {:induction false} FieldMatchesCalls(c: Column, calls: seq<FieldCall>, initial: Option<Value>)
    requires Allowed(c, calls) && Stored(c, initial)
    ensures FieldAfter(FieldCollected(c, calls), initial) == FieldExecuted(initial, calls)
    ensures var s := FieldCollected(c, calls);
            Stored(c, s.value) && Stored(c, s.added) && (s.added.Some? ==> Addable(c))
  {
    if calls != [] {
      var before, last := calls[..|calls|-1], calls[|calls|-1];
      FieldMatchesCalls(c, before, initial);
      var s := FieldCollected(c, before);
      if last.AddField? {
        var base := if s.value.Some? then s.value else if s.cleared then None else initial;
        PlusAssociates(c, base, s.added, last.v);
      }
    }
  }

  /** A column is both set and cleared exactly if it has no numeric `Add`, was cleared, and was set last. */
  lemma {:induction false} SetAndClearedExactlyIf(c: Column, calls: seq<FieldCall>)
    requires Allowed(c, calls)
    ensures var s := FieldCollected(c, calls);
            s.value.Some? && s.cleared <==>
            !Addable(c) && calls != [] && calls[|calls|-1].SetField? && ClearField in calls
  {
    if calls != [] {
      var before, last := calls[..|calls|-1], calls[|calls|-1];
      SetAndClearedExactlyIf(c, before);
      assert calls == before + [last];
      if Addable(c) {
        AddableNeverBoth(c, calls);
      } else {
        ClearedExactlyIf(c, before);
      }
    }
  }

  lemma {:induction false} ClearedExactlyIf(c: Column, calls: seq<FieldCall>)
    requires Allowed(c, calls) && !Addable(c)
    ensures FieldCollected(c, calls).cleared <==> ClearField in calls
  {
    if calls != [] {
      var before, last := calls[..|calls|-1], calls[|calls|-1];
      ClearedExactlyIf(c, before);
      assert calls == before + [last];
    }
  }

  lemma {:induction false} AddableNeverBoth(c: Column, calls: seq<FieldCall>)
    requires Addable(c)
    ensures !(FieldCollected(c, calls).value.Some? && FieldCollected(c, calls).cleared)
  {
    if calls != [] {
      AddableNeverBoth(c, calls[..|calls|-1]);
    }
  }

  // ---------- The mutation ----------

  /** A condition on the rows to update. */
  type Condition = Row -> bool

  /** Everything an update mutation holds. */
  datatype Update = Update(
    values: Values, added: Values, clearedFields: set<Column>, groups: EdgeState, usageLogs: EdgeState, proxy: Option<int>,
    clearedProxy: bool, predicates: seq<Condition>)
  {
    function ProxyChange(): ProxyState {
      ProxyState(proxy, PROXY_ID in clearedFields || clearedProxy)
    }

    function FieldChange(c: Column): FieldState {
      FieldState(if c in values then Some(values[c]) else None, if c in added then Some(added[c]) else None, c in clearedFields)
    }
  }

  class ToManyEdge {
    var ids: set<int>
    var removed: set<int>
    var cleared: bool

    constructor ()
      ensures State() == EdgeState({}, {}, false)
    {
      ids, removed, cleared := {}, {}, false;
    }

    function State(): EdgeState
      reads this
    {
      EdgeState(ids, removed, cleared)
    }

    method Add(more: seq<int>)
      modifies this
      ensures State() == EdgeStep(old(State()), AddIDs(more))
    {
      for i := 0 to |more|
        invariant ids == old(ids) + SetOf(more[..i]) && removed == old(removed) && cleared == old(cleared)
      {
        ids := ids + {more[i]};
      }
      assert more[..|more|] == more;
    }

    method Remove(less: seq<int>)
      modifies this
      ensures State() == EdgeStep(old(State()), RemoveIDs(less))
    {
      for i := 0 to |less|
        invariant ids == old(ids) - SetOf(less[..i]) && removed == old(removed) + SetOf(less[..i]) && cleared == old(cleared)
      {
        ids := ids - {less[i]};
        removed := removed + {less[i]};
      }
      assert less[..|less|] == less;
    }

    method Clear()
      modifies this
      ensures State() == EdgeStep(old(State()), ClearEdge)
    {
      cleared := true;
    }
  }

  class AccountMutation {
    var values: Values
    var added: Values
    var clearedFields: set<Column>
    const groups: ToManyEdge
    const usageLogs: ToManyEdge
    var proxy: Option<int>
    var clearedProxy: bool
    var predicates: seq<Condition>

    constructor ()
      ensures Pending() == Update(map[], map[], {}, EdgeState({}, {}, false), EdgeState({}, {}, false), None, false, [])
      ensures Holds(Pending(), [])
      ensures fresh(groups) && fresh(usageLogs) && groups != usageLogs
    {
      values, added, clearedFields, proxy, clearedProxy, predicates := map[], map[], {}, None, false, [];
      groups := new ToManyEdge();
      usageLogs := new ToManyEdge();
      new;
      NewHoldsNothing();
    }

    function Pending(): Update
      reads this, groups, usageLogs
    {
      Update(values, added, clearedFields, groups.State(), usageLogs.State(), proxy, clearedProxy, predicates)
    }

    /** The builder's setter: for a numeric field it resets the field before setting it. */
    method Set(c: Column, v: Value)
      modifies this
      ensures Pending().FieldChange(c) == FieldStep(c, old(Pending().FieldChange(c)), SetField(v))
      ensures OthersUnchanged(old(Pending()), c)
    {
      if Addable(c) {
        added, clearedFields := added - {c}, clearedFields - {c};
      }
      values := values[c := v];
    }

    method AddTo(c: Column, v: Value)
      requires Addable(c)
      modifies this
      ensures Pending().FieldChange(c) == FieldStep(c, old(Pending().FieldChange(c)), AddField(v))
      ensures OthersUnchanged(old(Pending()), c)
    {
      added := added[c := if c in added then Plus(Some(added[c]), v) else v];
    }

    method ClearColumn(c: Column)
      requires Clearable(c)
      modifies this
      ensures Pending().FieldChange(c) == FieldStep(c, old(Pending().FieldChange(c)), ClearField)
      ensures OthersUnchanged(old(Pending()), c)
    {
      values, added, clearedFields := values - {c}, added - {c}, clearedFields + {c};
    }

    /** Only the changes to column `c` may differ. */
    ghost predicate OthersUnchanged(before: Update, c: Column)
      reads this, groups, usageLogs
    {
      var now := Pending();
      && (forall d :: d != c ==> now.FieldChange(d) == before.FieldChange(d))
      && now.(values := before.values, added := before.added, clearedFields := before.clearedFields) == before
    }

    method SetProxyTo(id: int)
      modifies `proxy
      ensures Pending() == old(Pending()).(proxy := Some(id))
      ensures Pending().ProxyChange() == ProxyStep(old(Pending().ProxyChange()), SetProxy(id))
    {
      proxy := Some(id);
    }

    method ClearTheProxy()
      modifies `clearedProxy, `clearedFields
      ensures Pending() == old(Pending()).(clearedProxy := true, clearedFields := old(clearedFields) + {PROXY_ID})
      ensures Pending().ProxyChange() == ProxyStep(old(Pending().ProxyChange()), ClearProxy)
    {
      clearedProxy, clearedFields := true, clearedFields + {PROXY_ID};
    }

    method ClearTheProxyID()
      modifies `proxy, `clearedFields
      ensures Pending() == old(Pending()).(proxy := None, clearedFields := old(clearedFields) + {PROXY_ID})
      ensures Pending().ProxyChange() == ProxyStep(old(Pending().ProxyChange()), ClearProxyID)
    {
      proxy, clearedFields := None, clearedFields + {PROXY_ID};
    }

    /** One call of the builder's interface, after some others. */
    method Do(call: Call, ghost before: seq<Call>)
      requires groups != usageLogs && Callable(call) && Holds(Pending(), before)
      modifies this, groups, usageLogs
      ensures Holds(Pending(), before + [call])
    {
      ghost var was := Pending();
      match call
      case OnField(c, field) =>
        DoField(c, field);
        FieldHolds(was, Pending(), before, c, field);
      case OnGroups(edge) =>
        DoEdge(groups, edge);
        EdgeHolds(was, Pending(), before, call);
      case OnUsageLogs(edge) =>
        DoEdge(usageLogs, edge);
        EdgeHolds(was, Pending(), before, call);
      case OnProxy(p) =>
        DoProxy(p);
        ProxyHolds(was, Pending(), before, p);
      case Where(p) =>
        predicates := predicates + [p];
        WhereHolds(was, Pending(), before, p);
    }

    method DoField(c: Column, field: FieldCall)
      requires Callable(OnField(c, field))
      modifies this
      ensures Pending().FieldChange(c) == FieldStep(c, old(Pending().FieldChange(c)), field)
      ensures OthersUnchanged(old(Pending()), c)
    {
      match field
      case SetField(v) => Set(c, v);
      case AddField(v) => AddTo(c, v);
      case ClearField => ClearColumn(c);
    }

    static method DoEdge(e: ToManyEdge, edge: EdgeCall)
      modifies e
      ensures e.State() == EdgeStep(old(e.State()), edge)
    {
      match edge
      case AddIDs(ids) => e.Add(ids);
      case RemoveIDs(ids) => e.Remove(ids);
      case ClearEdge => e.Clear();
    }

    method DoProxy(p: ProxyCall)
      modifies this
      ensures Pending().ProxyChange() == ProxyStep(old(Pending().ProxyChange()), p)
      ensures OnlyProxyChanged(old(Pending()), Pending())
    {
      match p
      case SetProxy(id) => SetProxyTo(id);
      case ClearProxy => ClearTheProxy();
      case ClearProxyID => ClearTheProxyID();
    }

    /** Any list of calls on a new mutation. */
    method DoAll(calls: seq<Call>)
      requires groups != usageLogs && Holds(Pending(), []) && forall k :: 0 <= k < |calls| ==> Callable(calls[k])
      modifies this, groups, usageLogs
      ensures Holds(Pending(), calls)
    {
      for i := 0 to |calls|
        invariant Holds(Pending(), calls[..i])
      {
        Do(calls[i], calls[..i]);
        assert calls[..i+1] == calls[..i] + [calls[i]];
      }
      assert calls[..|calls|] == calls;
    }
  }

  // ---------- From calls to what is held ----------

  datatype Call =
    | OnField(c: Column, field: FieldCall) | OnGroups(edge: EdgeCall) | OnUsageLogs(edge: EdgeCall) | OnProxy(proxy: ProxyCall)
    | Where(p: Condition)

  /** The calls the typed interface offers. */
  predicate Callable(call: Call) {
    call.OnField? ==> Offered(call.c, call.field)
  }

  predicate Offered(c: Column, field: FieldCall) {
    match field
    case SetField(v) => Fits(TypeOf(c), v)
    case AddField(v) => Addable(c) && Fits(TypeOf(c), v)
    case ClearField => Clearable(c)
  }

  function FieldCalls(calls: seq<Call>, c: Column): seq<FieldCall> {
    if calls == [] then []
    else
      var last := calls[|calls|-1];
      FieldCalls(calls[..|calls|-1], c) + if last.OnField? && last.c == c then [last.field] else []
  }

  function GroupCalls(calls: seq<Call>): seq<EdgeCall> {
    if calls == [] then []
    else
      var last := calls[|calls|-1];
      GroupCalls(calls[..|calls|-1]) + if last.OnGroups? then [last.edge] else []
  }

  function UsageLogCalls(calls: seq<Call>): seq<EdgeCall> {
    if calls == [] then []
    else
      var last := calls[|calls|-1];
      UsageLogCalls(calls[..|calls|-1]) + if last.OnUsageLogs? then [last.edge] else []
  }

  function ProxyCalls(calls: seq<Call>): seq<ProxyCall> {
    if calls == [] then []
    else
      var last := calls[|calls|-1];
      ProxyCalls(calls[..|calls|-1]) + if last.OnProxy? then [last.proxy] else []
  }

  function Conditions(calls: seq<Call>): seq<Condition> {
    if calls == [] then []
    else
      var last := calls[|calls|-1];
      Conditions(calls[..|calls|-1]) + if last.Where? then [last.p] else []
  }

  /** Each part's calls are selected in their order. */
  lemma {:induction false} CallsInOrder(calls: seq<Call>, more: seq<Call>, c: Column)
    ensures FieldCalls(calls + more, c) == FieldCalls(calls, c) + FieldCalls(more, c)
    ensures GroupCalls(calls + more) == GroupCalls(calls) + GroupCalls(more)
    ensures UsageLogCalls(calls + more) == UsageLogCalls(calls) + UsageLogCalls(more)
  {
    if more == [] {
      assert calls + more == calls;
    } else {
      assert (calls + more)[..|calls + more|-1] == calls + more[..|more|-1];
      CallsInOrder(calls, more[..|more|-1], c);
    }
  }

  lemma {:induction false} ProxyCallsAndConditionsInOrder(calls: seq<Call>, more: seq<Call>)
    ensures ProxyCalls(calls + more) == ProxyCalls(calls) + ProxyCalls(more)
    ensures Conditions(calls + more) == Conditions(calls) + Conditions(more)
  {
    if more == [] {
      assert calls + more == calls;
    } else {
      assert (calls + more)[..|calls + more|-1] == calls + more[..|more|-1];
      ProxyCallsAndConditionsInOrder(calls, more[..|more|-1]);
    }
  }

  /** One call is selected for its own part, and no other. */
  lemma OneCallIsSelected(call: Call, c: Column)
    ensures FieldCalls([call], c) == (if call.OnField? && call.c == c then [call.field] else [])
    ensures GroupCalls([call]) == (if call.OnGroups? then [call.edge] else [])
    ensures UsageLogCalls([call]) == (if call.OnUsageLogs? then [call.edge] else [])
    ensures ProxyCalls([call]) == (if call.OnProxy? then [call.proxy] else [])
    ensures Conditions([call]) == (if call.Where? then [call.p] else [])
  {
    assert [call][..0] == [];
  }

  /** Each part of the mutation holds what its own calls collect, in their order. */
  ghost predicate Holds(u: Update, calls: seq<Call>) {
    && (forall c :: c != PROXY_ID ==> u.FieldChange(c) == FieldCollected(c, FieldCalls(calls, c)))
    && u.groups == Collected(GroupCalls(calls)) && u.usageLogs == Collected(UsageLogCalls(calls))
    && u.ProxyChange() == ProxyCollected(ProxyCalls(calls)) && u.predicates == Conditions(calls)
  }

  lemma HoldsField(u: Update, calls: seq<Call>, c: Column)
    requires Holds(u, calls) && c != PROXY_ID
    ensures u.FieldChange(c) == FieldCollected(c, FieldCalls(calls, c))
  {
  }

  lemma NewHoldsNothing()
    ensures Holds(Update(map[], map[], {}, EdgeState({}, {}, false), EdgeState({}, {}, false), None, false, []), [])
  {
  }

  ghost predicate OnlyProxyChanged(was: Update, now: Update) {
    && now.groups == was.groups && now.usageLogs == was.usageLogs && now.predicates == was.predicates
    && forall c :: c != PROXY_ID ==> now.FieldChange(c) == was.FieldChange(c)
  }

  lemma FieldCallsExtend(before: seq<Call>, call: Call, c: Column)
    ensures FieldCalls(before + [call], c) == if call.OnField? && call.c == c then FieldCalls(before, c) + [call.field] else FieldCalls(before, c)
  {
    assert (before + [call])[..|before|] == before;
    assert FieldCalls(before, c) + [] == FieldCalls(before, c);
  }

  lemma GroupCallsExtend(before: seq<Call>, call: Call)
    ensures GroupCalls(before + [call]) == if call.OnGroups? then GroupCalls(before) + [call.edge] else GroupCalls(before)
  {
    assert (before + [call])[..|before|] == before;
    assert GroupCalls(before) + [] == GroupCalls(before);
  }

  lemma UsageLogCallsExtend(before: seq<Call>, call: Call)
    ensures UsageLogCalls(before + [call]) == if call.OnUsageLogs? then UsageLogCalls(before) + [call.edge] else UsageLogCalls(before)
  {
    assert (before + [call])[..|before|] == before;
    assert UsageLogCalls(before) + [] == UsageLogCalls(before);
  }

  lemma ProxyCallsExtend(before: seq<Call>, call: Call)
    ensures ProxyCalls(before + [call]) == if call.OnProxy? then ProxyCalls(before) + [call.proxy] else ProxyCalls(before)
  {
    assert (before + [call])[..|before|] == before;
    assert ProxyCalls(before) + [] == ProxyCalls(before);
  }

  lemma ConditionsExtend(before: seq<Call>, call: Call)
    ensures Conditions(before + [call]) == if call.Where? then Conditions(before) + [call.p] else Conditions(before)
  {
    assert (before + [call])[..|before|] == before;
    assert Conditions(before) + [] == Conditions(before);
  }

  lemma OneMoreField(c: Column, calls: seq<FieldCall>, call: FieldCall)
    ensures FieldCollected(c, calls + [call]) == FieldStep(c, FieldCollected(c, calls), call)
  {
    assert (calls + [call])[..|calls|] == calls;
  }

  lemma OneMoreEdge(calls: seq<EdgeCall>, call: EdgeCall)
    ensures Collected(calls + [call]) == EdgeStep(Collected(calls), call)
  {
    assert (calls + [call])[..|calls|] == calls;
  }

  lemma OneMoreProxy(calls: seq<ProxyCall>, call: ProxyCall)
    ensures ProxyCollected(calls + [call]) == ProxyStep(ProxyCollected(calls), call)
  {
    assert (calls + [call])[..|calls|] == calls;
  }

  /** The parts a call is not about. */
  lemma OthersStay(before: seq<Call>, call: Call)
    ensures !call.OnGroups? ==> GroupCalls(before + [call]) == GroupCalls(before)
    ensures !call.OnUsageLogs? ==> UsageLogCalls(before + [call]) == UsageLogCalls(before)
    ensures !call.OnProxy? ==> ProxyCalls(before + [call]) == ProxyCalls(before)
    ensures !call.Where? ==> Conditions(before + [call]) == Conditions(before)
  {
    GroupCallsExtend(before, call);
    UsageLogCallsExtend(before, call);
    ProxyCallsExtend(before, call);
    ConditionsExtend(before, call);
  }

  lemma FieldHolds(was: Update, now: Update, before: seq<Call>, c: Column, field: FieldCall)
    requires Holds(was, before) && c != PROXY_ID
    requires now.FieldChange(c) == FieldStep(c, was.FieldChange(c), field)
    requires forall d :: d != c ==> now.FieldChange(d) == was.FieldChange(d)
    requires now.(values := was.values, added := was.added, clearedFields := was.clearedFields) == was
    ensures Holds(now, before + [OnField(c, field)])
  {
    var call := OnField(c, field);
    OthersStay(before, call);
    forall d | d != PROXY_ID ensures now.FieldChange(d) == FieldCollected(d, FieldCalls(before + [call], d)) {
      FieldCallsExtend(before, call, d);
      OneMoreField(d, FieldCalls(before, d), field);
    }
    SameProxyChange(was, now);
  }

  lemma SameProxyChange(was: Update, now: Update)
    requires now.FieldChange(PROXY_ID) == was.FieldChange(PROXY_ID) && now.proxy == was.proxy && now.clearedProxy == was.clearedProxy
    ensures now.ProxyChange() == was.ProxyChange()
  {
  }

  lemma FieldsStay(was: Update, now: Update, before: seq<Call>, call: Call)
    requires Holds(was, before) && !call.OnField?
    requires forall c :: c != PROXY_ID ==> now.FieldChange(c) == was.FieldChange(c)
    ensures forall c :: c != PROXY_ID ==> now.FieldChange(c) == FieldCollected(c, FieldCalls(before + [call], c))
  {
    forall c | c != PROXY_ID ensures now.FieldChange(c) == FieldCollected(c, FieldCalls(before + [call], c)) {
      FieldCallsExtend(before, call, c);
    }
  }

  lemma EdgeHolds(was: Update, now: Update, before: seq<Call>, call: Call)
    requires Holds(was, before) && (call.OnGroups? || call.OnUsageLogs?)
    requires call.OnGroups? ==> now == was.(groups := EdgeStep(was.groups, call.edge))
    requires call.OnUsageLogs? ==> now == was.(usageLogs := EdgeStep(was.usageLogs, call.edge))
    ensures Holds(now, before + [call])
  {
    OthersStay(before, call);
    FieldsStay(was, now, before, call);
    GroupCallsExtend(before, call);
    UsageLogCallsExtend(before, call);
    OneMoreEdge(if call.OnGroups? then GroupCalls(before) else UsageLogCalls(before), call.edge);
  }

  lemma ProxyHolds(was: Update, now: Update, before: seq<Call>, p: ProxyCall)
    requires Holds(was, before) && OnlyProxyChanged(was, now) && now.ProxyChange() == ProxyStep(was.ProxyChange(), p)
    ensures Holds(now, before + [OnProxy(p)])
  {
    OthersStay(before, OnProxy(p));
    FieldsStay(was, now, before, OnProxy(p));
    ProxyCallsExtend(before, OnProxy(p));
    OneMoreProxy(ProxyCalls(before), p);
  }

  lemma WhereHolds(was: Update, now: Update, before: seq<Call>, p: Condition)
    requires Holds(was, before) && now == was.(predicates := was.predicates + [p])
    ensures Holds(now, before + [Where(p)])
  {
    OthersStay(before, Where(p));
    FieldsStay(was, now, before, Where(p));
    ConditionsExtend(before, Where(p));
  }

  /** The calls on one column are calls it offers. */
  lemma {:induction false} FieldCallsAllowed(calls: seq<Call>, c: Column)
    requires forall k :: 0 <= k < |calls| ==> Callable(calls[k])
    ensures Allowed(c, FieldCalls(calls, c))
  {
    if calls != [] {
      FieldCallsAllowed(calls[..|calls|-1], c);
    }
  }

  /** `SetProxyID` and then `ClearProxy`: the proxy stays. */
  lemma SetThenClearProxySets()
    ensures var calls := [SetProxy(7), ClearProxy];
            ProxyAfter(ProxyCollected(calls), Some(1)) == Some(7) && ProxyExecuted(Some(1), calls) == None
  {
    var calls := [SetProxy(7), ClearProxy];
    assert calls[..1] == [SetProxy(7)] && calls[..1][..0] == [];
  }
}
