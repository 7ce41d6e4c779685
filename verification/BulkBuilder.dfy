/** The bulk builder itself: the recursive chain of mutators over the builders and the slots they fill. */
module BulkBuilder {
  import opened Prelude
  import opened AccountSchema
  import opened AccountCreation
  import opened BulkCreation

  function MutationsOf(builders: seq<AccountCreate>): (r: seq<Mutation>)
    reads builders
    ensures |r| == |builders| && forall i :: 0 <= i < |builders| ==> r[i] == builders[i].Pending()
  {
    seq(|builders|, i requires 0 <= i < |builders| reads builders => builders[i].Pending())
  }

  class AccountCreateBulk {
    const builders: seq<AccountCreate>
    const hooks: seq<seq<Hook>>
    const code: Generated
    const db: nat -> InsertOutcome
    var done: seq<bool>
    var nodes: seq<Option<Entity>>
    var specs: seq<Option<CreateSpec>>
    var ids: seq<Option<int>>
    var inserts: nat
    var trace: seq<Event>

    constructor (builders: seq<AccountCreate>, hooks: seq<seq<Hook>>, code: Generated, db: nat -> InsertOutcome)
      ensures this.builders == builders && this.hooks == hooks && this.code == code && this.db == db
    {
      this.builders, this.hooks, this.code, this.db := builders, hooks, code, db;
      done, nodes, specs, ids, inserts, trace := [], [], [], [], 0, [];
    }

    ghost predicate Valid() {
      && |hooks| == |builders|
      && (forall i, j :: 0 <= i < j < |builders| ==> builders[i] != builders[j])
    }

    /** The run this object makes. */
    ghost predicate Represents(c: Config) {
      c.hooks == hooks && c.code == code && c.db == db && |c.mutations| == |builders|
    }

    ghost function View(): State
      reads this, builders
    {
      State(MutationsOf(builders), done, nodes, specs, ids, inserts, trace)
    }

    method MutateFrom(ghost c: Config, i: nat, j: nat) returns (r: Reply)
      requires Valid() && Represents(c) && View().Sized(|hooks|) && i < |hooks| && j <= |hooks[i]|
      modifies this, builders
      ensures (r, View()) == Mutate(c, i, j, old(View()))
      decreases |hooks| - i, |hooks[i]| - j, 2
    {
      if j == |hooks[i]| {
        r := BaseStep(c, i);
      } else {
        trace := trace + [EnterHook(i, j)];
        r := HookStep(c, i, j);
        trace := trace + [ExitHook(i, j)];
      }
    }

    /** Running one hook: what it has left to do always leads to the same end. */
    method HookStep(ghost c: Config, i: nat, j: nat) returns (r: Reply)
      requires Valid() && Represents(c) && View().Sized(|hooks|) && i < |hooks| && j < |hooks[i]|
      modifies this, builders
      ensures (r, View()) == RunHook(c, i, j, [], old(View()))
      decreases |hooks| - i, |hooks[i]| - j, 1
    {
      var h, seen := hooks[i][j], [];
      Edit(i, h, seen);
      while |seen| < h.limit && h.again(builders[i].Pending(), seen)
        invariant |seen| <= h.limit && View().Sized(|hooks|)
        invariant RunHook(c, i, j, [], old(View())) == Resumed(c, i, j, seen, View())
        decreases h.limit - |seen|
      {
        var reply := MutateFrom(c, i, j + 1);
        seen := seen + [reply];
        Edit(i, h, seen);
      }
      r := h.answer(builders[i].Pending(), seen);
    }

    /** What a hook does once it has changed the mutation. */
    ghost function Resumed(c: Config, i: nat, j: nat, seen: seq<Reply>, s: State): (Reply, State)
      requires Valid() && Represents(c) && s.Sized(|hooks|) && i < |hooks| && j < |hooks[i]| && |seen| <= hooks[i][j].limit
    {
      var h, m := hooks[i][j], s.mutations[i];
      if |seen| < h.limit && h.again(m, seen) then
        var (r, s1) := Mutate(c, i, j + 1, s);
        RunHook(c, i, j, seen + [r], s1)
      else (h.answer(m, seen), s)
    }

    method Edit(i: nat, h: Hook, seen: seq<Reply>)
      requires Valid() && i < |builders| && |hooks| == |builders|
      modifies builders[i]
      ensures View() == old(View()).With(i, h.edit(old(View()).mutations[i], seen))
    {
      builders[i].Become(h.edit(builders[i].Pending(), seen));
      assert MutationsOf(builders) == old(MutationsOf(builders))[i := builders[i].Pending()];
    }

    method BaseStep(ghost c: Config, i: nat) returns (r: Reply)
      requires Valid() && Represents(c) && View().Sized(|hooks|) && i < |hooks|
      modifies this, builders
      ensures (r, View()) == Base(c, i, old(View()))
      decreases |hooks| - i, 0, 1
    {
      trace := trace + [EnterBase(i)];
      var checked := code.check(builders[i].values);
      if checked.Some? {
        trace := trace + [ExitBase(i)];
        return Reply(Nothing, Some(CheckFailed(i, checked.value)));
      }
      Fill(c, i);
      var error := Next(c, i);
      if error.Some? {
        trace := trace + [ExitBase(i)];
        return Reply(Nothing, error);
      }
      Finish(c, i);
      trace := trace + [ExitBase(i)];
      r := Reply(Node(nodes[i]), None);
    }

    /** `nodes[i], specs[i] = builder.createSpec()`. */
    method Fill(ghost c: Config, i: nat)
      requires Valid() && Represents(c) && View().Sized(|hooks|) && i < |hooks|
      modifies `nodes, `specs, `ids
      ensures View() == FillSlot(c, i, old(View()))
    {
      var m := builders[i].Pending();
      nodes, specs, ids := nodes[i := Some(code.node(m))], specs[i := Some(code.spec(m))], ids[i := None];
    }

    /** The node takes the id its spec was given, and the mutation is marked done. */
    method Finish(ghost c: Config, i: nat)
      requires Valid() && Represents(c) && View().Sized(|hooks|) && i < |hooks|
      modifies `nodes, `done
      ensures View() == Complete(c, i, old(View()))
    {
      var node := nodes[i];
      if node.Some? {
        nodes := nodes[i := Some(WithId(node.value, ids[i]))];
      }
      done := done[i := true];
      assert node.None? ==> nodes == nodes[i := None];
    }

    method Next(ghost c: Config, i: nat) returns (error: Option<Error>)
      requires Valid() && Represents(c) && View().Sized(|hooks|) && i < |hooks|
      modifies this, builders
      ensures (error, View()) == Inner(c, i, old(View()))
      decreases |hooks| - i, 0, 0
    {
      if i + 1 < |hooks| {
        var r := MutateFrom(c, i + 1, 0);
        error := r.error;
      } else {
        error := InsertAll(c);
      }
    }

    /** The batch insert. */
    method InsertAll(ghost c: Config) returns (error: Option<Error>)
      requires Valid() && Represents(c) && View().Sized(|hooks|)
      modifies `inserts, `trace, `ids
      ensures (error, View()) == Insert(c, old(View()))
    {
      var answer := db(inserts);
      inserts := inserts + 1;
      trace := trace + [InsertBatch(MutationsOf(builders), specs, nodes)];
      match answer
      case Inserted(given) =>
        ids := seq(|hooks|, (k: nat) => given(k));
        error := None;
      case Refused(constraint) =>
        error := Some(InsertFailed(constraint));
    }

    /** Empty slots, and the defaults of every builder, whatever they report. */
    method Prepare(env: Values)
      requires Valid() && Registered(env)
      modifies this, builders
      ensures forall k :: 0 <= k < |builders| ==>
                builders[k].Pending() == old(builders[k].Pending()).(values := Defaulted(env, old(builders[k].values)))
      ensures done == seq(|builders|, _ => false) && inserts == 0 && trace == []
      ensures specs == seq(|builders|, _ => None) && nodes == seq(|builders|, _ => None) && ids == seq(|builders|, _ => None)
    {
      DefaultsOfAll(env);
      var n := |builders|;
      specs, nodes, ids := seq(n, _ => None), seq(n, _ => None), seq(n, _ => None);
      done, inserts, trace := seq(n, _ => false), 0, [];
    }

    method DefaultsOfAll(env: Values)
      requires Valid() && Registered(env)
      modifies builders
      ensures forall k :: 0 <= k < |builders| ==>
                builders[k].Pending() == old(builders[k].Pending()).(values := Defaulted(env, old(builders[k].values)))
    {
      for i := 0 to |builders|
        invariant forall k :: 0 <= k < i ==>
                    builders[k].Pending() == old(builders[k].Pending()).(values := Defaulted(env, old(builders[k].values)))
        invariant forall k :: i <= k < |builders| ==> builders[k].Pending() == old(builders[k].Pending())
      {
        var ignored := builders[i].Defaults(env);
      }
    }

    /** `Save`: defaults, then the chain from the first builder; an empty bulk succeeds at once. */
    method Save(env: Values) returns (r: Result<seq<Option<Entity>>, Error>, ghost c: Config)
      requires Valid() && Registered(env)
      modifies this, builders
      ensures c.Valid() && Represents(c)
      ensures forall k :: 0 <= k < |builders| ==>
                c.mutations[k] == old(builders[k].Pending()).(values := Defaulted(env, old(builders[k].values)))
      ensures View() == Run(c).1
      ensures match Run(c).0
              case None => r == Ok(nodes)
              case Some(e) => r == Err(e)
    {
      Prepare(env);
      c := Config(hooks, MutationsOf(builders), code, db);
      assert View() == Start(c);
      if |builders| == 0 {
        return Ok(nodes), c;
      }
      var reply := MutateFrom(c, 0, 0);
      if reply.error.Some? {
        return Err(reply.error.value), c;
      }
      r := Ok(nodes);
    }
  }
}
