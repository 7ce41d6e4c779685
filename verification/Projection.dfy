/** Reading fewer columns of a neighbour does not change which neighbours a node is given. */
module Projection {
  import opened Prelude
  import opened EdgeLoaders

  ghost function MapSeq<E, F>(f: E -> F, s: seq<E>): seq<F> {
    if s == [] then [] else MapSeq(f, s[..|s|-1]) + [f(s[|s|-1])]
  }

  ghost function MapLinks<E, F>(f: E -> F, rows: seq<LinkRow<E>>): seq<LinkRow<F>> {
    if rows == [] then []
    else MapLinks(f, rows[..|rows|-1]) + [LinkRow(rows[|rows|-1].owner, f(rows[|rows|-1].entity))]
  }

  lemma {:induction false} MapSeqAt<E, F>(f: E -> F, s: seq<E>)
    ensures |MapSeq(f, s)| == |s| && forall i :: 0 <= i < |s| ==> MapSeq(f, s)[i] == f(s[i])
  {
    if s != [] {
      MapSeqAt(f, s[..|s|-1]);
    }
  }

  lemma {:induction false} MapLinksAt<E, F>(f: E -> F, rows: seq<LinkRow<E>>)
    ensures |MapLinks(f, rows)| == |rows|
    ensures forall i :: 0 <= i < |rows| ==> MapLinks(f, rows)[i] == LinkRow(rows[i].owner, f(rows[i].entity))
  {
    if rows != [] {
      MapLinksAt(f, rows[..|rows|-1]);
    }
  }

  /** `f` keeps the key that the loaders look at. */
  ghost predicate KeepsKey<E(!new), F>(f: E -> F, key: E -> int, key': F -> int) {
    forall e :: key'(f(e)) == key(e)
  }

  lemma SameLinks<E(!new), F>(f: E -> F, key: E -> int, key': F -> int, rows: seq<LinkRow<E>>, owner: int, k: int)
    requires KeepsKey(f, key, key')
    ensures Linked(MapLinks(f, rows), key', owner, k) <==> Linked(rows, key, owner, k)
    ensures Known(MapLinks(f, rows), key', k) <==> Known(rows, key, k)
  {
    MapLinksAt(f, rows);
    var mapped := MapLinks(f, rows);
    forall i | 0 <= i < |rows| ensures mapped[i].owner == rows[i].owner && key'(mapped[i].entity) == key(rows[i].entity) {
    }
    if Linked(rows, key, owner, k) {
      var j :| 0 <= j < |rows| && rows[j].owner == owner && key(rows[j].entity) == k;
      assert mapped[j].owner == owner && key'(mapped[j].entity) == k;
    }
    if Known(rows, key, k) {
      var j :| 0 <= j < |rows| && key(rows[j].entity) == k;
      assert key'(mapped[j].entity) == k;
    }
  }

  lemma {:induction false} FirstsMap<E(!new), F>(f: E -> F, key: E -> int, key': F -> int, rows: seq<LinkRow<E>>)
    requires KeepsKey(f, key, key')
    ensures Firsts(MapLinks(f, rows), key') == MapSeq(f, Firsts(rows, key))
  {
    if rows != [] {
      var before, e := rows[..|rows|-1], rows[|rows|-1].entity;
      FirstsMap(f, key, key', before);
      SameLinks(f, key, key', before, 0, key(e));
      var mapped, fs := MapLinks(f, before), Firsts(before, key);
      assert MapLinks(f, rows)[..|mapped|] == mapped by { MapLinksAt(f, before); }
      assert (fs + [e])[..|fs|] == fs;
      assert fs + [] == fs && MapSeq(f, fs) + [] == MapSeq(f, fs);
    }
  }

  lemma {:induction false} JoinedMap<E(!new), F>(f: E -> F, key: E -> int, key': F -> int, rows: seq<LinkRow<E>>, owner: int, es: seq<E>)
    requires KeepsKey(f, key, key')
    ensures Joined(MapLinks(f, rows), key', owner, MapSeq(f, es)) == MapSeq(f, Joined(rows, key, owner, es))
  {
    if es != [] {
      var before, e := es[..|es|-1], es[|es|-1];
      JoinedMap(f, key, key', rows, owner, before);
      SameLinks(f, key, key', rows, owner, key(e));
      var mapped, js := MapSeq(f, before), Joined(rows, key, owner, before);
      assert MapSeq(f, es)[..|mapped|] == mapped;
      assert (js + [e])[..|js|] == js;
      assert js + [] == js && MapSeq(f, js) + [] == MapSeq(f, js);
    }
  }

  /** Many to many. */
  lemma ManyToManyMap<E(!new), F>(f: E -> F, key: E -> int, key': F -> int, rows: seq<LinkRow<E>>, ids: seq<int>, i: nat)
    requires KeepsKey(f, key, key') && i < |ids|
    ensures ManyToManyEdge(ids, i, MapLinks(f, rows), key', Firsts(MapLinks(f, rows), key'))
            == MapSeq(f, ManyToManyEdge(ids, i, rows, key, Firsts(rows, key)))
  {
    FirstsMap(f, key, key', rows);
    JoinedMap(f, key, key', rows, ids[i], Firsts(rows, key));
  }

  ghost predicate KeepsForeignKey<E(!new), F>(f: E -> F, fk: E -> Option<int>, fk': F -> Option<int>) {
    forall e :: fk'(f(e)) == fk(e)
  }

  lemma {:induction false} ChildrenMap<E(!new), F>(f: E -> F, fk: E -> Option<int>, fk': F -> Option<int>, rows: seq<E>, id: int)
    requires KeepsForeignKey(f, fk, fk')
    ensures ChildrenOf(MapSeq(f, rows), fk', id) == MapSeq(f, ChildrenOf(rows, fk, id))
  {
    if rows != [] {
      var before, e := rows[..|rows|-1], rows[|rows|-1];
      ChildrenMap(f, fk, fk', before, id);
      var mapped, cs := MapSeq(f, before), ChildrenOf(before, fk, id);
      assert MapSeq(f, rows)[..|mapped|] == mapped;
      assert (cs + [e])[..|cs|] == cs;
      assert cs + [] == cs && MapSeq(f, cs) + [] == MapSeq(f, cs);
    }
  }

  /** One to many. */
  lemma OneToManyMap<E(!new), F>(f: E -> F, fk: E -> Option<int>, fk': F -> Option<int>, rows: seq<E>, ids: seq<int>, i: nat)
    requires KeepsForeignKey(f, fk, fk') && i < |ids|
    ensures OneToManyEdge(ids, i, MapSeq(f, rows), fk') == MapSeq(f, OneToManyEdge(ids, i, rows, fk))
  {
    ChildrenMap(f, fk, fk', rows, ids[i]);
  }

  function MapOption<E, F>(f: E -> F, e: Option<E>): Option<F> {
    match e case None => None case Some(x) => Some(f(x))
  }

  /** Many to one. */
  lemma {:induction false} LookupMap<E(!new), F>(f: E -> F, key: E -> int, key': F -> int, rows: seq<E>, k: int)
    requires KeepsKey(f, key, key')
    ensures RowWith(MapSeq(f, rows), key', k) == MapOption(f, RowWith(rows, key, k))
  {
    if rows != [] {
      LookupMap(f, key, key', rows[..|rows|-1], k);
      assert MapSeq(f, rows)[..|MapSeq(f, rows)|-1] == MapSeq(f, rows[..|rows|-1]);
    }
  }

  // ---------- Failures ----------

  lemma {:induction false} MapSeqPrefix<E, F>(f: E -> F, s: seq<E>, k: nat)
    requires k <= |s|
    ensures |MapSeq(f, s)| == |s| && MapSeq(f, s)[..k] == MapSeq(f, s[..k])
  {
    MapSeqAt(f, s);
    MapSeqAt(f, s[..k]);
  }

  /** A many-to-one load fails alike. */
  lemma SameRequests<E(!new), F>(f: E -> F, key: E -> int, key': F -> int, ids: seq<int>, rows: seq<E>)
    requires KeepsKey(f, key, key')
    ensures AllRequested(ids, MapSeq(f, rows), key') <==> AllRequested(ids, rows, key)
    ensures forall e :: NotRequested(ids, MapSeq(f, rows), key', e) <==> NotRequested(ids, rows, key, e)
  {
    var mapped := MapSeq(f, rows);
    MapSeqAt(f, rows);
    forall k | 0 <= k <= |rows| ensures AllRequested(ids, mapped[..k], key') <==> AllRequested(ids, rows[..k], key) {
      PrefixRequests(f, key, key', ids, rows, k);
    }
    assert mapped[..|rows|] == mapped && rows[..|rows|] == rows;
  }

  lemma PrefixRequests<E(!new), F>(f: E -> F, key: E -> int, key': F -> int, ids: seq<int>, rows: seq<E>, k: nat)
    requires KeepsKey(f, key, key') && k <= |rows| == |MapSeq(f, rows)|
    ensures AllRequested(ids, MapSeq(f, rows)[..k], key') <==> AllRequested(ids, rows[..k], key)
  {
    MapSeqPrefix(f, rows, k);
    MapSeqAt(f, rows[..k]);
    var before, mapped := rows[..k], MapSeq(f, rows[..k]);
    assert forall j :: 0 <= j < k ==> key'(mapped[j]) == key(before[j]);
  }

  /** A one-to-many load fails alike. */
  lemma SameReferences<E(!new), F>(f: E -> F, fk: E -> Option<int>, fk': F -> Option<int>, ids: seq<int>, rows: seq<E>)
    requires KeepsForeignKey(f, fk, fk')
    ensures AllReference(ids, MapSeq(f, rows), fk') <==> AllReference(ids, rows, fk)
    ensures forall e :: FirstStray(ids, MapSeq(f, rows), fk', e) <==> FirstStray(ids, rows, fk, e)
  {
    var mapped := MapSeq(f, rows);
    MapSeqAt(f, rows);
    forall k | 0 <= k <= |rows| ensures AllReference(ids, mapped[..k], fk') <==> AllReference(ids, rows[..k], fk) {
      PrefixReferences(f, fk, fk', ids, rows, k);
    }
    forall k | 0 <= k < |rows| ensures References(ids, fk', mapped[k]) <==> References(ids, fk, rows[k]) {
    }
    assert mapped[..|rows|] == mapped && rows[..|rows|] == rows;
  }

  lemma PrefixReferences<E(!new), F>(f: E -> F, fk: E -> Option<int>, fk': F -> Option<int>, ids: seq<int>, rows: seq<E>, k: nat)
    requires KeepsForeignKey(f, fk, fk') && k <= |rows| == |MapSeq(f, rows)|
    ensures AllReference(ids, MapSeq(f, rows)[..k], fk') <==> AllReference(ids, rows[..k], fk)
  {
    MapSeqPrefix(f, rows, k);
    MapSeqAt(f, rows[..k]);
    var before, mapped := rows[..k], MapSeq(f, rows[..k]);
    assert forall j :: 0 <= j < k ==> (References(ids, fk', mapped[j]) <==> References(ids, fk, before[j]));
  }
}
