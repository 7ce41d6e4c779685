/**
  What the edges computed by the loaders mean: the join each of them stands for, and what is
  conserved when rows are handed out to nodes.
 */
module EdgeTheorems {
  import opened Prelude
  import opened EdgeLoaders

  // ---------- Many to many ----------

  ghost predicate IsFirstRow<E>(rows: seq<LinkRow<E>>, key: E -> int, k: int, j: nat) {
    && j < |rows| && key(rows[j].entity) == k
    && forall i :: 0 <= i < j ==> key(rows[i].entity) != k
  }

  lemma {:induction false} SomeRowIsFirst<E>(rows: seq<LinkRow<E>>, key: E -> int, k: int, j: nat)
    requires j < |rows| && key(rows[j].entity) == k
    ensures exists i: nat :: IsFirstRow(rows, key, k, i)
  {
    if !IsFirstRow(rows, key, k, j) {
      var i :| 0 <= i < j && key(rows[i].entity) == k;
      SomeRowIsFirst(rows, key, k, i);
    }
  }

  /** Position of the first row of a neighbour. */
  ghost function FirstRow<E>(rows: seq<LinkRow<E>>, key: E -> int, k: int): (j: nat)
    requires Known(rows, key, k)
    ensures IsFirstRow(rows, key, k, j)
  {
    var j :| 0 <= j < |rows| && key(rows[j].entity) == k;
    SomeRowIsFirst(rows, key, k, j);
    var i: nat :| IsFirstRow(rows, key, k, i);
    i
  }

  /** Neighbours listed by their first row, each once, as that row described it. */
  ghost predicate InFirstRowOrder<E>(rows: seq<LinkRow<E>>, key: E -> int, es: seq<E>) {
    es == [] ||
    var before, e := es[..|es|-1], es[|es|-1];
    && InFirstRowOrder(rows, key, before)
    && Known(rows, key, key(e)) && e == rows[FirstRow(rows, key, key(e))].entity
    && (before != [] ==> Known(rows, key, key(before[|before|-1])) && FirstRow(rows, key, key(before[|before|-1])) < FirstRow(rows, key, key(e)))
  }

  /** The same, for any two positions of the list. */
  lemma {:induction false} FirstRowOrderPairwise<E>(rows: seq<LinkRow<E>>, key: E -> int, es: seq<E>)
    requires InFirstRowOrder(rows, key, es)
    ensures AllKnown(rows, key, es)
    ensures forall i :: 0 <= i < |es| ==> es[i] == rows[FirstRow(rows, key, key(es[i]))].entity
    ensures forall i, j :: 0 <= i < j < |es| ==> FirstRow(rows, key, key(es[i])) < FirstRow(rows, key, key(es[j]))
  {
    if es != [] {
      var before := es[..|es|-1];
      FirstRowOrderPairwise(rows, key, before);
      assert forall i :: 0 <= i < |before| ==> es[i] == before[i];
      forall i | 0 <= i < |before|
        ensures FirstRow(rows, key, key(es[i])) < FirstRow(rows, key, key(es[|before|]))
      {
        assert i < |before| - 1 ==> FirstRow(rows, key, key(before[i])) < FirstRow(rows, key, key(before[|before|-1]));
      }
    }
  }

  ghost predicate HasKey<E>(es: seq<E>, key: E -> int, k: int) {
    exists i :: 0 <= i < |es| && key(es[i]) == k
  }

  lemma HasKeyAppend<E>(es: seq<E>, e: E, key: E -> int, k: int)
    ensures HasKey(es + [e], key, k) <==> HasKey(es, key, k) || key(e) == k
  {
    assert (es + [e])[|es|] == e;
    if HasKey(es, key, k) {
      var i :| 0 <= i < |es| && key(es[i]) == k;
      assert (es + [e])[i] == es[i];
    }
  }

  lemma OrderAppend<E>(rows: seq<LinkRow<E>>, key: E -> int, es: seq<E>, e: E)
    requires InFirstRowOrder(rows, key, es) && Known(rows, key, key(e)) && e == rows[FirstRow(rows, key, key(e))].entity
    requires es != [] ==> Known(rows, key, key(es[|es|-1])) && FirstRow(rows, key, key(es[|es|-1])) < FirstRow(rows, key, key(e))
    ensures InFirstRowOrder(rows, key, es + [e])
  {
    assert (es + [e])[..|es|] == es;
  }

  lemma FirstRowStays<E>(rows: seq<LinkRow<E>>, row: LinkRow<E>, key: E -> int, k: int)
    requires Known(rows, key, k)
    ensures Known(rows + [row], key, k) && FirstRow(rows + [row], key, k) == FirstRow(rows, key, k)
  {
    LinkedExtend(rows, row, key, row.owner, k);
    var j, j' := FirstRow(rows, key, k), FirstRow(rows + [row], key, k);
    assert (rows + [row])[j] == rows[j];
    assert j' < |rows| ==> rows[j'] == (rows + [row])[j'];
  }

  lemma {:induction false} FirstRowOrderStays<E>(rows: seq<LinkRow<E>>, row: LinkRow<E>, key: E -> int, es: seq<E>)
    requires InFirstRowOrder(rows, key, es)
    ensures InFirstRowOrder(rows + [row], key, es)
  {
    if es != [] {
      var before, e := es[..|es|-1], es[|es|-1];
      FirstRowOrderStays(rows, row, key, before);
      FirstRowStays(rows, row, key, key(e));
      if before != [] {
        FirstRowStays(rows, row, key, key(before[|before|-1]));
      }
    }
  }

  /** One object is created per neighbour id, from its first row. */
  lemma {:induction false} FirstsListEveryNeighbour<E>(rows: seq<LinkRow<E>>, key: E -> int)
    ensures InFirstRowOrder(rows, key, Firsts(rows, key))
    ensures forall k :: HasKey(Firsts(rows, key), key, k) <==> Known(rows, key, k)
  {
    if rows != [] {
      var before, row := rows[..|rows|-1], rows[|rows|-1];
      assert rows == before + [row];
      FirstsListEveryNeighbour(before, key);
      var fs := Firsts(before, key);
      FirstRowOrderStays(before, row, key, fs);
      assert fs + [] == fs;
      if !Known(before, key, key(row.entity)) {
        NewNeighbourIsLast(before, row, key, fs);
      }
      forall k
        ensures Known(rows, key, k) <==> Known(before, key, k) || key(row.entity) == k
        ensures HasKey(fs + [row.entity], key, k) <==> HasKey(fs, key, k) || key(row.entity) == k
      {
        LinkedExtend(before, row, key, row.owner, k);
        HasKeyAppend(fs, row.entity, key, k);
      }
    }
  }

  lemma NewNeighbourIsLast<E>(rows: seq<LinkRow<E>>, row: LinkRow<E>, key: E -> int, fs: seq<E>)
    requires InFirstRowOrder(rows, key, fs) && InFirstRowOrder(rows + [row], key, fs)
    requires !Known(rows, key, key(row.entity))
    ensures InFirstRowOrder(rows + [row], key, fs + [row.entity])
  {
    var rows', e := rows + [row], row.entity;
    assert rows'[|rows|] == row;
    var f := FirstRow(rows', key, key(e));
    assert f == |rows| by {
      assert forall i :: 0 <= i < |rows| ==> key(rows'[i].entity) == key(rows[i].entity);
    }
    if fs != [] {
      FirstRowStays(rows, row, key, key(fs[|fs|-1]));
    }
    OrderAppend(rows', key, fs, e);
  }

  /** The last neighbour of a list comes no later than that of another. */
  ghost predicate EndsBy<E>(rows: seq<LinkRow<E>>, key: E -> int, js: seq<E>, es: seq<E>)
    requires InFirstRowOrder(rows, key, js) && InFirstRowOrder(rows, key, es)
  {
    js != [] ==> es != [] && FirstRow(rows, key, key(js[|js|-1])) <= FirstRow(rows, key, key(es[|es|-1]))
  }

  /** Joining keeps order and content of whatever list it filters. */
  lemma {:induction false} JoinedFilters<E>(rows: seq<LinkRow<E>>, key: E -> int, owner: int, es: seq<E>)
    requires InFirstRowOrder(rows, key, es)
    ensures InFirstRowOrder(rows, key, Joined(rows, key, owner, es)) && EndsBy(rows, key, Joined(rows, key, owner, es), es)
  {
    if es != [] {
      var before, e := es[..|es|-1], es[|es|-1];
      JoinedFilters(rows, key, owner, before);
      var js := Joined(rows, key, owner, before);
      FilterStep(rows, key, js, es);
      assert Joined(rows, key, owner, es) == if Linked(rows, key, owner, key(e)) then js + [e] else js + [];
      assert js + [] == js;
    }
  }

  lemma FilterStep<E>(rows: seq<LinkRow<E>>, key: E -> int, js: seq<E>, es: seq<E>)
    requires es != [] && InFirstRowOrder(rows, key, es) && InFirstRowOrder(rows, key, js)
    requires InFirstRowOrder(rows, key, es[..|es|-1]) && EndsBy(rows, key, js, es[..|es|-1])
    ensures EndsBy(rows, key, js, es)
    ensures var js' := js + [es[|es|-1]]; InFirstRowOrder(rows, key, js') && EndsBy(rows, key, js', es)
  {
    var before, e := es[..|es|-1], es[|es|-1];
    if js != [] {
      assert FirstRow(rows, key, key(js[|js|-1])) <= FirstRow(rows, key, key(before[|before|-1])) < FirstRow(rows, key, key(e));
    }
    OrderAppend(rows, key, js, e);
  }

  lemma {:induction false} JoinedKeys<E>(rows: seq<LinkRow<E>>, key: E -> int, owner: int, es: seq<E>, k: int)
    ensures HasKey(Joined(rows, key, owner, es), key, k) <==> HasKey(es, key, k) && Linked(rows, key, owner, k)
  {
    if es != [] {
      var before, e := es[..|es|-1], es[|es|-1];
      assert es == before + [e];
      JoinedKeys(rows, key, owner, before, k);
      HasKeyAppend(before, e, key, k);
      HasKeyAppend(Joined(rows, key, owner, before), e, key, k);
      assert Joined(rows, key, owner, before) + [] == Joined(rows, key, owner, before);
    }
  }

  /**
    With interceptors that pass rows through, a many-to-many load is the nested-loop join: the error
    branch is unreachable, and each owner gets exactly the neighbours some row pairs with it, each
    once, in the order in which the neighbours first appear in the stream.
   */
  lemma ManyToManyIsTheJoin<E>(rows: seq<LinkRow<E>>, key: E -> int, owner: int)
    ensures AllKnown(rows, key, Firsts(rows, key))
    ensures var js := Joined(rows, key, owner, Firsts(rows, key));
            && InFirstRowOrder(rows, key, js)
            && (forall k :: HasKey(js, key, k) <==> Linked(rows, key, owner, k))
  {
    FirstsListEveryNeighbour(rows, key);
    JoinedFilters(rows, key, owner, Firsts(rows, key));
    FirstRowOrderPairwise(rows, key, Firsts(rows, key));
    forall k ensures HasKey(Joined(rows, key, owner, Firsts(rows, key)), key, k) <==> Linked(rows, key, owner, k) {
      JoinedKeys(rows, key, owner, Firsts(rows, key), k);
      assert Linked(rows, key, owner, k) ==> Known(rows, key, k);
    }
  }

  /** The specification determines the list: two lists in first-row order with the same keys are equal. */
  lemma {:induction false} FirstRowOrderIsUnique<E>(rows: seq<LinkRow<E>>, key: E -> int, es: seq<E>, fs: seq<E>)
    requires InFirstRowOrder(rows, key, es) && InFirstRowOrder(rows, key, fs)
    requires forall k :: HasKey(es, key, k) <==> HasKey(fs, key, k)
    ensures es == fs
  {
    if es == [] || fs == [] {
      if es != [] { assert HasKey(es, key, key(es[0])); }
      if fs != [] { assert HasKey(fs, key, key(fs[0])); }
    } else {
      var es0, e, fs0, f := es[..|es|-1], es[|es|-1], fs[..|fs|-1], fs[|fs|-1];
      assert es == es0 + [e] && fs == fs0 + [f];
      LastsAreEqual(rows, key, es, fs);
      LastKeyIsNew(rows, key, es);
      LastKeyIsNew(rows, key, fs);
      SameKeysBefore(es0, fs0, e, key);
      FirstRowOrderIsUnique(rows, key, es0, fs0);
    }
  }

  lemma LastsAreEqual<E>(rows: seq<LinkRow<E>>, key: E -> int, es: seq<E>, fs: seq<E>)
    requires InFirstRowOrder(rows, key, es) && InFirstRowOrder(rows, key, fs) && es != [] && fs != []
    requires forall k :: HasKey(es, key, k) <==> HasKey(fs, key, k)
    ensures es[|es|-1] == fs[|fs|-1]
  {
    LastIsLatest(rows, key, es, fs);
    LastIsLatest(rows, key, fs, es);
  }

  lemma SameKeysBefore<E>(es: seq<E>, fs: seq<E>, e: E, key: E -> int)
    requires !HasKey(es, key, key(e)) && !HasKey(fs, key, key(e))
    requires forall k :: HasKey(es + [e], key, k) <==> HasKey(fs + [e], key, k)
    ensures forall k :: HasKey(es, key, k) <==> HasKey(fs, key, k)
  {
    forall k ensures HasKey(es, key, k) <==> HasKey(fs, key, k) {
      HasKeyAppend(es, e, key, k);
      HasKeyAppend(fs, e, key, k);
    }
  }

  lemma LastKeyIsNew<E>(rows: seq<LinkRow<E>>, key: E -> int, es: seq<E>)
    requires es != [] && InFirstRowOrder(rows, key, es)
    ensures !HasKey(es[..|es|-1], key, key(es[|es|-1]))
  {
    FirstRowOrderPairwise(rows, key, es);
    var before := es[..|es|-1];
    forall i | 0 <= i < |before| ensures key(before[i]) != key(es[|es|-1]) {
      assert FirstRow(rows, key, key(es[i])) < FirstRow(rows, key, key(es[|es|-1]));
    }
  }

  lemma LastIsLatest<E>(rows: seq<LinkRow<E>>, key: E -> int, es: seq<E>, fs: seq<E>)
    requires InFirstRowOrder(rows, key, es) && InFirstRowOrder(rows, key, fs) && es != [] && fs != []
    requires forall k :: HasKey(es, key, k) ==> HasKey(fs, key, k)
    ensures FirstRow(rows, key, key(es[|es|-1])) <= FirstRow(rows, key, key(fs[|fs|-1]))
  {
    FirstRowOrderPairwise(rows, key, fs);
    assert HasKey(es, key, key(es[|es|-1]));
    var i :| 0 <= i < |fs| && key(fs[i]) == key(es[|es|-1]);
    assert i < |fs| - 1 ==> FirstRow(rows, key, key(fs[i])) < FirstRow(rows, key, key(fs[|fs|-1]));
  }

  // ---------- Many-to-many conservation ----------

  ghost function Pairs<E>(rows: seq<LinkRow<E>>, key: E -> int): set<(int, int)> {
    set j | 0 <= j < |rows| :: (rows[j].owner, key(rows[j].entity))
  }

  ghost function Keys<E>(es: seq<E>, key: E -> int): set<int> {
    set j | 0 <= j < |es| :: key(es[j])
  }

  ghost function PairsOf<E>(rows: seq<LinkRow<E>>, key: E -> int, owner: int): set<(int, int)> {
    set p | p in Pairs(rows, key) && p.0 == owner
  }

  /** Total length of the edges over the nodes from position `from` on. */
  ghost function TotalManyToMany<E>(ids: seq<int>, from: nat, rows: seq<LinkRow<E>>, key: E -> int, es: seq<E>): nat
    requires from <= |ids|
    decreases |ids| - from
  {
    if from == |ids| then 0
    else |ManyToManyEdge(ids, from, rows, key, es)| + TotalManyToMany(ids, from + 1, rows, key, es)
  }

  lemma {:induction false} DistinctKeysCount<E>(rows: seq<LinkRow<E>>, key: E -> int, es: seq<E>)
    requires InFirstRowOrder(rows, key, es)
    ensures |Keys(es, key)| == |es|
  {
    if es != [] {
      var m := |es| - 1;
      DistinctKeysCount(rows, key, es[..m]);
      LastKeyIsNew(rows, key, es);
      assert Keys(es, key) == Keys(es[..m], key) + {key(es[m])};
    }
  }

  lemma EdgeLengthIsPairCount<E>(rows: seq<LinkRow<E>>, key: E -> int, owner: int)
    ensures |Joined(rows, key, owner, Firsts(rows, key))| == |PairsOf(rows, key, owner)|
  {
    var js := Joined(rows, key, owner, Firsts(rows, key));
    ManyToManyIsTheJoin(rows, key, owner);
    DistinctKeysCount(rows, key, js);
    var keys, pairs := Keys(js, key), PairsOf(rows, key, owner);
    forall k ensures k in keys <==> (owner, k) in pairs {
      assert k in keys <==> HasKey(js, key, k);
      assert Linked(rows, key, owner, k) <==> (owner, k) in Pairs(rows, key);
    }
    SameSize(owner, keys, pairs);
  }

  lemma {:induction false} SameSize(owner: int, keys: set<int>, pairs: set<(int, int)>)
    requires forall p :: p in pairs ==> p.0 == owner
    requires forall k :: k in keys <==> (owner, k) in pairs
    ensures |keys| == |pairs|
  {
    if pairs == {} {
      assert forall k :: k in keys ==> (owner, k) in pairs;
      assert keys == {};
    } else {
      var p :| p in pairs;
      var (o, k) := p;
      assert k in keys <==> (owner, k) in pairs;
      SameSize(owner, keys - {k}, pairs - {p});
    }
  }

  ghost predicate OccursFrom(ids: seq<int>, from: nat, f: int)
    decreases |ids| - from
  {
    from < |ids| && (ids[from] == f || OccursFrom(ids, from + 1, f))
  }

  lemma {:induction false} OccursFromIsMembership(ids: seq<int>, from: nat, f: int)
    requires from <= |ids|
    ensures OccursFrom(ids, from, f) <==> exists j :: from <= j < |ids| && ids[j] == f
    decreases |ids| - from
  {
    if from < |ids| {
      OccursFromIsMembership(ids, from + 1, f);
    }
  }

  lemma LastIffNotLater(ids: seq<int>, i: nat)
    requires i < |ids|
    ensures IsLast(ids, i) <==> !OccursFrom(ids, i + 1, ids[i])
  {
    OccursFromIsMembership(ids, i + 1, ids[i]);
  }

  /** The pairs whose owner is at position `from` or later. */
  ghost function PairsFrom<E>(rows: seq<LinkRow<E>>, key: E -> int, ids: seq<int>, from: nat): set<(int, int)> {
    set p | p in Pairs(rows, key) && OccursFrom(ids, from, p.0)
  }

  lemma PairsFromSplit<E>(rows: seq<LinkRow<E>>, key: E -> int, ids: seq<int>, from: nat)
    requires from < |ids|
    ensures |PairsFrom(rows, key, ids, from)| ==
            |PairsFrom(rows, key, ids, from + 1)| + if OccursFrom(ids, from + 1, ids[from]) then 0 else |PairsOf(rows, key, ids[from])|
  {
    var here, one, later := PairsFrom(rows, key, ids, from), PairsOf(rows, key, ids[from]), PairsFrom(rows, key, ids, from + 1);
    assert here == one + later;
    if OccursFrom(ids, from + 1, ids[from]) {
      assert one <= later;
      assert here == later;
    } else {
      assert one !! later;
    }
  }

  /** An edge is as long as the pairs of its owner, and an owner's pairs are in its last edge. */
  ghost predicate EdgeCounts<E>(ids: seq<int>, i: nat, rows: seq<LinkRow<E>>, key: E -> int, es: seq<E>)
    requires i < |ids|
  {
    |ManyToManyEdge(ids, i, rows, key, es)| == if OccursFrom(ids, i + 1, ids[i]) then 0 else |PairsOf(rows, key, ids[i])|
  }

  lemma EdgesCount<E>(ids: seq<int>, rows: seq<LinkRow<E>>, key: E -> int)
    ensures forall i :: 0 <= i < |ids| ==> EdgeCounts(ids, i, rows, key, Firsts(rows, key))
  {
    forall i | 0 <= i < |ids| ensures EdgeCounts(ids, i, rows, key, Firsts(rows, key)) {
      LastIffNotLater(ids, i);
      EdgeLengthIsPairCount(rows, key, ids[i]);
    }
  }

  lemma {:induction false} TotalCountsPairs<E>(ids: seq<int>, from: nat, rows: seq<LinkRow<E>>, key: E -> int, es: seq<E>)
    requires from <= |ids| && forall i :: 0 <= i < |ids| ==> EdgeCounts(ids, i, rows, key, es)
    ensures TotalManyToMany(ids, from, rows, key, es) == |PairsFrom(rows, key, ids, from)|
    decreases |ids| - from
  {
    if from == |ids| {
      assert PairsFrom(rows, key, ids, from) == {};
    } else {
      TotalCountsPairs(ids, from + 1, rows, key, es);
      PairsFromSplit(rows, key, ids, from);
      assert EdgeCounts(ids, from, rows, key, es);
    }
  }

  /** However often rows repeat: list lengths add up to the distinct pairs, objects to the distinct ids. */
  lemma ManyToManyConserves<E>(ids: seq<int>, rows: seq<LinkRow<E>>, key: E -> int)
    requires OwnersAmong(rows, ids)
    ensures TotalManyToMany(ids, 0, rows, key, Firsts(rows, key)) == |Pairs(rows, key)|
    ensures |Firsts(rows, key)| == |set j | 0 <= j < |rows| :: key(rows[j].entity)|
  {
    EdgesCount(ids, rows, key);
    TotalCountsPairs(ids, 0, rows, key, Firsts(rows, key));
    forall p | p in Pairs(rows, key) ensures OccursFrom(ids, 0, p.0) {
      OccursFromIsMembership(ids, 0, p.0);
    }
    assert PairsFrom(rows, key, ids, 0) == Pairs(rows, key);
    FirstsListEveryNeighbour(rows, key);
    DistinctKeysCount(rows, key, Firsts(rows, key));
    var keys := set j | 0 <= j < |rows| :: key(rows[j].entity);
    forall k ensures k in keys <==> k in Keys(Firsts(rows, key), key) {
      assert k in keys <==> Known(rows, key, k);
      assert k in Keys(Firsts(rows, key), key) <==> HasKey(Firsts(rows, key), key, k);
    }
    assert keys == Keys(Firsts(rows, key), key);
  }

  // ---------- One to many ----------

  /** Everything the nodes from position `from` on were given. */
  ghost function Collected<E>(ids: seq<int>, from: nat, rows: seq<E>, fk: E -> Option<int>): multiset<E>
    requires from <= |ids|
    decreases |ids| - from
  {
    if from == |ids| then multiset{}
    else multiset(OneToManyEdge(ids, from, rows, fk)) + Collected(ids, from + 1, rows, fk)
  }

  lemma {:induction false} CollectedStep<E>(ids: seq<int>, from: nat, before: seq<E>, e: E, fk: E -> Option<int>)
    requires from <= |ids|
    ensures Collected(ids, from, before + [e], fk) ==
            Collected(ids, from, before, fk)
              + if fk(e).Some? && OccursFrom(ids, from, fk(e).value) then multiset{e} else multiset{}
    decreases |ids| - from
  {
    if from < |ids| {
      CollectedStep(ids, from + 1, before, e, fk);
      LastIffNotLater(ids, from);
      EdgeStep(ids, from, before, e, fk);
      var c, c' := Collected(ids, from + 1, before, fk), Collected(ids, from + 1, before + [e], fk);
      if fk(e).Some? && OccursFrom(ids, from + 1, fk(e).value) {
        assert c' == c + multiset{e};
      } else {
        assert c' == c;
      }
    }
  }

  lemma EdgeStep<E>(ids: seq<int>, i: nat, before: seq<E>, e: E, fk: E -> Option<int>)
    requires i < |ids|
    ensures multiset(OneToManyEdge(ids, i, before + [e], fk)) ==
            multiset(OneToManyEdge(ids, i, before, fk))
              + if IsLast(ids, i) && fk(e) == Some(ids[i]) then multiset{e} else multiset{}
  {
    assert (before + [e])[..|before|] == before;
  }

  /** Every returned child ends up in exactly one node, as often as it was returned. */
  lemma {:induction false} OneToManyPartitions<E>(ids: seq<int>, rows: seq<E>, fk: E -> Option<int>)
    requires AllReference(ids, rows, fk)
    ensures Collected(ids, 0, rows, fk) == multiset(rows)
  {
    if rows == [] {
      CollectedEmpty(ids, 0, rows, fk);
    } else {
      var before, e := rows[..|rows|-1], rows[|rows|-1];
      assert rows == before + [e];
      assert References(ids, fk, e);
      OneToManyPartitions(ids, before, fk);
      CollectedStep(ids, 0, before, e, fk);
      OccursFromIsMembership(ids, 0, fk(e).value);
    }
  }

  lemma {:induction false} CollectedEmpty<E>(ids: seq<int>, from: nat, rows: seq<E>, fk: E -> Option<int>)
    requires from <= |ids| && rows == []
    ensures Collected(ids, from, rows, fk) == multiset{}
    decreases |ids| - from
  {
    if from < |ids| {
      CollectedEmpty(ids, from + 1, rows, fk);
    }
  }

  /** `WHERE fk IN (ids)` over a table. */
  ghost function WhereReferences<E>(table: seq<E>, fk: E -> Option<int>, ids: seq<int>): seq<E> {
    if table == [] then []
    else
      var e := table[|table|-1];
      WhereReferences(table[..|table|-1], fk, ids) + if References(ids, fk, e) then [e] else []
  }

  /** The batched query never errs, and gives each node what its own query would have returned. */
  lemma {:induction false} OneToManyMatchesPerNodeQuery<E>(table: seq<E>, fk: E -> Option<int>, ids: seq<int>, i: nat)
    requires i < |ids|
    ensures AllReference(ids, WhereReferences(table, fk, ids), fk)
    ensures IsLast(ids, i) ==>
              OneToManyEdge(ids, i, WhereReferences(table, fk, ids), fk) == WhereReferences(table, fk, [ids[i]])
  {
    if table != [] {
      var before, e := table[..|table|-1], table[|table|-1];
      OneToManyMatchesPerNodeQuery(before, fk, ids, i);
      var kept := WhereReferences(before, fk, ids);
      assert (kept + [e])[..|kept|] == kept;
      assert kept + [] == kept;
    }
  }

  // ---------- Many to one ----------

  ghost predicate FirstAt(fks: seq<Option<int>>, f: int, i: nat) {
    && i < |fks| && fks[i] == Some(f)
    && forall j :: 0 <= j < i ==> fks[j] != Some(f)
  }

  /** The requested ids are the non-nil foreign keys, each once, in order of first occurrence. */
  lemma {:induction false} RequestedIsDistinctInOrder(fks: seq<Option<int>>)
    ensures Distinct(Requested(fks))
    ensures forall f :: f in Requested(fks) <==> Some(f) in fks
    ensures forall a, b, i: nat, j: nat | 0 <= a < b < |Requested(fks)| ::
              FirstAt(fks, Requested(fks)[a], i) && FirstAt(fks, Requested(fks)[b], j) ==> i < j
  {
    forall f ensures f in Requested(fks) <==> Some(f) in fks {
      RequestedHasEveryKey(fks, f);
    }
    if fks != [] {
      var before := fks[..|fks|-1];
      RequestedIsDistinctInOrder(before);
      var ids := Requested(fks);
      forall a, b, i: nat, j: nat | 0 <= a < b < |ids| && FirstAt(fks, ids[a], i) && FirstAt(fks, ids[b], j)
        ensures i < j
      {
        assert ids[a] == Requested(before)[a] && ids[a] in Requested(before);
        var k :| 0 <= k < |before| && before[k] == Some(ids[a]);
        assert fks[k] == Some(ids[a]);
        if j < |before| {
          assert before[j] == Some(ids[b]);
          assert FirstAt(before, ids[a], i) && FirstAt(before, ids[b], j);
        }
      }
    }
  }

  /** `WHERE id IN (ids)` over a table. */
  ghost function WhereKeyIn<E>(table: seq<E>, key: E -> int, ids: seq<int>): seq<E> {
    if table == [] then []
    else
      var e := table[|table|-1];
      WhereKeyIn(table[..|table|-1], key, ids) + if key(e) in ids then [e] else []
  }

  /** The batched query never errs, and a node is given the row its own lookup would have found. */
  lemma ManyToOneMatchesPerNodeLookup<E>(table: seq<E>, key: E -> int, ids: seq<int>, f: int)
    requires f in ids
    ensures AllRequested(ids, WhereKeyIn(table, key, ids), key)
    ensures RowWith(WhereKeyIn(table, key, ids), key, f) == RowWith(WhereKeyIn(table, key, [f]), key, f)
    ensures RowWith(WhereKeyIn(table, key, ids), key, f) == RowWith(table, key, f)
  {
    FilterKeepsLookup(table, key, ids, f);
    FilterKeepsLookup(table, key, [f], f);
  }

  lemma {:induction false} FilterKeepsLookup<E>(table: seq<E>, key: E -> int, ids: seq<int>, f: int)
    requires f in ids
    ensures AllRequested(ids, WhereKeyIn(table, key, ids), key)
    ensures RowWith(WhereKeyIn(table, key, ids), key, f) == RowWith(table, key, f)
  {
    if table != [] {
      var before, e := table[..|table|-1], table[|table|-1];
      FilterKeepsLookup(before, key, ids, f);
      var kept := WhereKeyIn(before, key, ids);
      if key(e) in ids {
        assert WhereKeyIn(table, key, ids) == kept + [e];
        assert (kept + [e])[..|kept|] == kept;
      } else {
        assert WhereKeyIn(table, key, ids) == kept;
      }
    }
  }

  /** A lookup finds nothing exactly if no row has the key. */
  lemma {:induction false} NoRowMeansNone<E>(rows: seq<E>, key: E -> int, f: int)
    ensures RowWith(rows, key, f).None? <==> forall k :: 0 <= k < |rows| ==> key(rows[k]) != f
  {
    if rows != [] {
      var before := rows[..|rows|-1];
      NoRowMeansNone(before, key, f);
      assert forall k :: 0 <= k < |before| ==> before[k] == rows[k];
    }
  }

  /** With at most one row per id the lookup is exact: it finds the row with that id, or there is none. */
  lemma {:induction false} LookupIsExact<E>(rows: seq<E>, key: E -> int, f: int)
    requires forall i, j :: 0 <= i < j < |rows| ==> key(rows[i]) != key(rows[j])
    ensures forall k :: 0 <= k < |rows| && key(rows[k]) == f ==> RowWith(rows, key, f) == Some(rows[k])
    ensures RowWith(rows, key, f).None? <==> forall k :: 0 <= k < |rows| ==> key(rows[k]) != f
  {
    NoRowMeansNone(rows, key, f);
    if rows != [] {
      var before := rows[..|rows|-1];
      LookupIsExact(before, key, f);
      assert forall k :: 0 <= k < |before| ==> before[k] == rows[k];
    }
  }

  // ---------- One error ----------

  lemma OneStray<E>(ids: seq<int>, rows: seq<E>, fk: E -> Option<int>, e: LoadError, e': LoadError)
    requires FirstStray(ids, rows, fk, e) && FirstStray(ids, rows, fk, e')
    ensures e == e'
  {
    var k :| 0 <= k < |rows| && AllReference(ids, rows[..k], fk) && !References(ids, fk, rows[k]) &&
      e == match fk(rows[k]) case None => NilForeignKey case Some(f) => UnexpectedForeignKey(f);
    var k' :| 0 <= k' < |rows| && AllReference(ids, rows[..k'], fk) && !References(ids, fk, rows[k']) &&
      e' == match fk(rows[k']) case None => NilForeignKey case Some(f) => UnexpectedForeignKey(f);
    EarlierReference(ids, rows, fk, k);
    EarlierReference(ids, rows, fk, k');
  }

  lemma EarlierReference<E>(ids: seq<int>, rows: seq<E>, fk: E -> Option<int>, k: nat)
    requires k <= |rows| && AllReference(ids, rows[..k], fk)
    ensures forall j :: 0 <= j < k ==> References(ids, fk, rows[j])
  {
    forall j | 0 <= j < k ensures References(ids, fk, rows[j]) {
      assert References(ids, fk, rows[..k][j]);
    }
  }

  lemma EarlierRequested<E>(ids: seq<int>, rows: seq<E>, key: E -> int, k: nat)
    requires k <= |rows| && AllRequested(ids, rows[..k], key)
    ensures forall j :: 0 <= j < k ==> key(rows[j]) in ids
  {
    forall j | 0 <= j < k ensures key(rows[j]) in ids {
      assert key(rows[..k][j]) in ids;
    }
  }

  lemma OneNotRequested<E>(ids: seq<int>, rows: seq<E>, key: E -> int, e: LoadError, e': LoadError)
    requires NotRequested(ids, rows, key, e) && NotRequested(ids, rows, key, e')
    ensures e == e'
  {
    var k :| 0 <= k < |rows| && AllRequested(ids, rows[..k], key) && key(rows[k]) !in ids && e == UnexpectedForeignKey(key(rows[k]));
    var k' :| 0 <= k' < |rows| && AllRequested(ids, rows[..k'], key) && key(rows[k']) !in ids && e' == UnexpectedForeignKey(key(rows[k']));
    EarlierRequested(ids, rows, key, k);
    EarlierRequested(ids, rows, key, k');
  }

  // ---------- Repeated node ids ----------

  /** When ids are distinct, every node gets its join. */
  lemma DistinctIdsGetTheirJoin<E>(ids: seq<int>, i: nat, rows: seq<LinkRow<E>>, key: E -> int, es: seq<E>)
    requires i < |ids| && Distinct(ids)
    ensures ManyToManyEdge(ids, i, rows, key, es) == Joined(rows, key, ids[i], es)
  {
  }

  ghost predicate GetsItsJoin<E>(ids: seq<int>, i: nat, rows: seq<LinkRow<E>>, key: E -> int)
    requires i < |ids|
  {
    ManyToManyEdge(ids, i, rows, key, Firsts(rows, key)) == Joined(rows, key, ids[i], Firsts(rows, key))
  }

  /** A node whose id occurs again later goes without: a single row shows it. */
  lemma LaterIdTakesTheRow<E>(ids: seq<int>, i: nat, key: E -> int, e: E)
    requires i < |ids| && !IsLast(ids, i)
    ensures !GetsItsJoin(ids, i, [LinkRow(ids[i], e)], key)
  {
    var rows := [LinkRow(ids[i], e)];
    assert rows[0].owner == ids[i];
    ManyToManyIsTheJoin(rows, key, ids[i]);
    assert Linked(rows, key, ids[i], key(e));
    assert HasKey(Joined(rows, key, ids[i], Firsts(rows, key)), key, key(e));
  }

  /** Every node gets its many-to-many join, for every stream of rows, if and only if the ids are distinct. */
  lemma EdgesAreJoinsIffDistinct<E(!new)>(ids: seq<int>, key: E -> int, e: E)
    ensures Distinct(ids) <==> forall rows, i :: 0 <= i < |ids| ==> GetsItsJoin(ids, i, rows, key)
  {
    if Distinct(ids) {
      forall rows: seq<LinkRow<E>>, i | 0 <= i < |ids| ensures GetsItsJoin(ids, i, rows, key) {
        DistinctIdsGetTheirJoin(ids, i, rows, key, Firsts(rows, key));
      }
    } else {
      var i, j :| 0 <= i < j < |ids| && ids[i] == ids[j];
      LaterIdTakesTheRow(ids, i, key, e);
    }
  }

  ghost predicate GetsItsChildren<E>(ids: seq<int>, i: nat, rows: seq<E>, fk: E -> Option<int>)
    requires i < |ids|
  {
    OneToManyEdge(ids, i, rows, fk) == ChildrenOf(rows, fk, ids[i])
  }

  /** The same for one-to-many edges, if every id can have a child. */
  lemma ChildrenArriveIffDistinct<E(!new)>(ids: seq<int>, fk: E -> Option<int>, child: int -> E)
    requires forall a :: fk(child(a)) == Some(a)
    ensures Distinct(ids) <==> forall rows, i :: 0 <= i < |ids| ==> GetsItsChildren(ids, i, rows, fk)
  {
    if !Distinct(ids) {
      var i, j :| 0 <= i < j < |ids| && ids[i] == ids[j];
      var rows := [child(ids[i])];
      assert rows[..0] == [] && ChildrenOf(rows, fk, ids[i]) == [child(ids[i])];
      assert !IsLast(ids, i);
      assert !GetsItsChildren(ids, i, rows, fk);
    }
  }
}
