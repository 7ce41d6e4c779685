/**
  Bulk creation: a chain of mutators, one per builder, each wrapped in that builder's hooks.  The base
  step of a mutator fills its slot and calls the next mutator; the innermost one fires the batch insert.
  Everything a run can do to the builders is written here as a function on states.
 */
module BulkCreation {
  import opened Prelude
  import opened AccountSchema
  import opened AccountCreation

  datatype Error = CheckFailed(builder: nat, why: Invalid) | InsertFailed(constraint: bool) | HookError(code: int)

  /** The value a mutator returns: nil, an account pointer (itself nil if there is no entity), or something else. */
  datatype Returned = Nothing | Node(entity: Option<Entity>) | Foreign

  /** A mutator returns a value and an error. */
  datatype Reply = Reply(value: Returned, error: Option<Error>)

  /**
    A hook is code around `next`.  Knowing the mutation and the replies of `next` so far, it changes the
    mutation, and then either calls `next` again or returns a reply of its own, whatever that is.  It makes
    at most `limit` calls, as a hook that returns does.
   */
  datatype Hook = Hook(
    edit: (Mutation, seq<Reply>) -> Mutation, limit: nat, again: (Mutation, seq<Reply>) -> bool,
    answer: (Mutation, seq<Reply>) -> Reply)

  datatype InsertOutcome = Inserted(ids: nat -> Option<int>) | Refused(constraint: bool)

  /** An insert is recorded with the slots it sends and the mutations as they stand. */
  datatype Event =
    | EnterHook(builder: nat, hook: nat) | ExitHook(builder: nat, hook: nat)
    | EnterBase(builder: nat) | ExitBase(builder: nat)
    | InsertBatch(mutations: seq<Mutation>, specs: seq<Option<CreateSpec>>, nodes: seq<Option<Entity>>)

  /** The generated code of one entity that a bulk create relies on: `check`, and the two results of `createSpec`. */
  datatype Generated = Generated(check: Values -> Option<Invalid>, node: Mutation -> Entity, spec: Mutation -> CreateSpec)

  function AccountCode(v: Validators, setup: Setup): Generated {
    Generated(values => Check(values, v), NodeOf, m => SpecOf(m, setup))
  }

  /** What a run is given: the builders after `defaults`, and a database that answers each insert. */
  datatype Config = Config(hooks: seq<seq<Hook>>, mutations: seq<Mutation>, code: Generated, db: nat -> InsertOutcome) {
    ghost predicate Valid() {
      |hooks| == |mutations|
    }
  }

  datatype State = State(
    mutations: seq<Mutation>, done: seq<bool>, nodes: seq<Option<Entity>>, specs: seq<Option<CreateSpec>>,
    ids: seq<Option<int>>, inserts: nat, trace: seq<Event>)
  {
    ghost predicate Sized(n: nat) {
      |mutations| == |done| == |nodes| == |specs| == |ids| == n
    }

    function Log(e: Event): State {
      this.(trace := trace + [e])
    }

    function With(i: nat, m: Mutation): State
      requires i < |mutations|
    {
      this.(mutations := mutations[i := m])
    }
  }

  /** The insert: every spec in one batch; on success the database fills the ids of the specs. */
  function Insert(c: Config, s: State): (Option<Error>, State)
    requires c.Valid() && s.Sized(|c.hooks|)
  {
    var s1 := s.(inserts := s.inserts + 1, trace := s.trace + [InsertBatch(s.mutations, s.specs, s.nodes)]);
    match c.db(s.inserts)
    case Inserted(ids) => (None, s1.(ids := seq(|c.hooks|, (k: nat) => ids(k))))
    case Refused(constraint) => (Some(InsertFailed(constraint)), s1)
  }

  /** `createSpec` into slot `i`. */
  function FillSlot(c: Config, i: nat, s: State): (s': State)
    requires c.Valid() && s.Sized(|c.hooks|) && i < |c.hooks|
    ensures s'.Sized(|c.hooks|)
  {
    var m := s.mutations[i];
    s.(nodes := s.nodes[i := Some(c.code.node(m))], specs := s.specs[i := Some(c.code.spec(m))], ids := s.ids[i := None])
  }

  function WithId(e: Entity, id: Option<int>): Entity {
    if id.Some? then e.Set(ID, Int(id.value)) else e
  }

  /** After the inner call succeeded: the node takes the id of its spec, and the mutation is done. */
  function Complete(c: Config, i: nat, s: State): (s': State)
    requires c.Valid() && s.Sized(|c.hooks|) && i < |c.hooks|
    ensures s'.Sized(|c.hooks|)
  {
    var node := if s.nodes[i].Some? then Some(WithId(s.nodes[i].value, s.ids[i])) else None;
    s.(nodes := s.nodes[i := node], done := s.done[i := true])
  }

  /** The mutator of builder `i` from its hook `j` inwards. */
  function Mutate(c: Config, i: nat, j: nat, s: State): (rs: (Reply, State))
    requires c.Valid() && s.Sized(|c.hooks|) && i < |c.hooks| && j <= |c.hooks[i]|
    ensures rs.1.Sized(|c.hooks|)
    decreases |c.hooks| - i, |c.hooks[i]| - j, 2, 0
  {
    if j == |c.hooks[i]| then Base(c, i, s)
    else
      var (r, s1) := RunHook(c, i, j, [], s.Log(EnterHook(i, j)));
      (r, s1.Log(ExitHook(i, j)))
  }

  /** Hook `j` goes on, having seen some replies of `next`. */
  function RunHook(c: Config, i: nat, j: nat, seen: seq<Reply>, s: State): (rs: (Reply, State))
    requires c.Valid() && s.Sized(|c.hooks|) && i < |c.hooks| && j < |c.hooks[i]| && |seen| <= c.hooks[i][j].limit
    ensures rs.1.Sized(|c.hooks|)
    decreases |c.hooks| - i, |c.hooks[i]| - j, 1, c.hooks[i][j].limit - |seen|
  {
    var h := c.hooks[i][j];
    var m := h.edit(s.mutations[i], seen);
    if |seen| < h.limit && h.again(m, seen) then
      var (r, s1) := Mutate(c, i, j + 1, s.With(i, m));
      RunHook(c, i, j, seen + [r], s1)
    else (h.answer(m, seen), s.With(i, m))
  }

  /** The base step: check, fill the slot, then the next mutator or the insert. */
  function Base(c: Config, i: nat, s: State): (rs: (Reply, State))
    requires c.Valid() && s.Sized(|c.hooks|) && i < |c.hooks|
    ensures rs.1.Sized(|c.hooks|)
    decreases |c.hooks| - i, 0, 1, 0
  {
    var s1 := s.Log(EnterBase(i));
    match c.code.check(s.mutations[i].values)
    case Some(why) => (Reply(Nothing, Some(CheckFailed(i, why))), s1.Log(ExitBase(i)))
    case None =>
      var (e, s2) := Inner(c, i, FillSlot(c, i, s1));
      if e.Some? then (Reply(Nothing, e), s2.Log(ExitBase(i)))
      else
        var s3 := Complete(c, i, s2);
        (Reply(Node(s3.nodes[i]), None), s3.Log(ExitBase(i)))
  }

  /** What the base step calls: the next builder's mutator, whose value is dropped, or for the last builder the insert. */
  function Inner(c: Config, i: nat, s: State): (rs: (Option<Error>, State))
    requires c.Valid() && s.Sized(|c.hooks|) && i < |c.hooks|
    ensures rs.1.Sized(|c.hooks|)
    decreases |c.hooks| - i, 0, 0, 0
  {
    if i + 1 < |c.hooks| then
      var (r, s1) := Mutate(c, i + 1, 0, s);
      (r.error, s1)
    else Insert(c, s)
  }

  function Start(c: Config): State {
    var n := |c.mutations|;
    State(c.mutations, seq(n, _ => false), seq(n, _ => None), seq(n, _ => None), seq(n, _ => None), 0, [])
  }

  /** `Save` once the mutators are built. */
  function Run(c: Config): (rs: (Option<Error>, State))
    requires c.Valid()
    ensures rs.1.Sized(|c.hooks|)
  {
    if |c.hooks| == 0 then (None, Start(c))
    else
      var (r, s) := Mutate(c, 0, 0, Start(c));
      (r.error, s)
  }
}
