/** What the order of the exceptions and of the findings means for the verdict. */
module GateTheorems {
  import opened Prelude
  import opened PythonText
  import opened ExceptionParser
  import opened AuditGate

  ghost predicate Reordering<T>(p: seq<T>, q: seq<T>) {
    multiset(p) == multiset(q)
  }

  lemma SameMembers<T>(p: seq<T>, q: seq<T>)
    requires Reordering(p, q)
    ensures forall x :: x in p <==> x in q
  {
    assert forall x :: x in p <==> x in multiset(p);
    assert forall x :: x in q <==> x in multiset(q);
  }

  // ---------- Exceptions may come in any order ----------

  lemma TwoPositionsMeanTwice<T>(s: seq<T>, i: nat, j: nat)
    requires i < j < |s| && s[i] == s[j]
    ensures multiset(s)[s[i]] >= 2
  {
    var front, back := s[..j], s[j..];
    assert s == front + back && front[i] == s[i] && back[0] == s[i];
    assert s[i] in front && s[i] in back;
  }

  lemma TwiceMeansTwoPositions<T>(s: seq<T>, x: T) returns (i: nat, j: nat)
    requires multiset(s)[x] >= 2
    ensures i < j < |s| && s[i] == x && s[j] == x
  {
    assert x in multiset(s);
    var k :| 0 <= k < |s| && s[k] == x;
    var front, back := s[..k], s[k+1..];
    assert s == front + [x] + back;
    assert multiset(s) == multiset(front) + multiset{x} + multiset(back);
    if x in front {
      var h :| 0 <= h < |front| && front[h] == x;
      i, j := h, k;
    } else {
      assert x in multiset(back);
      var h :| 0 <= h < |back| && back[h] == x;
      i, j := k, k + 1 + h;
    }
  }

  /** Distinct keys, said without positions. */
  lemma DistinctKeysByMembers(lib: Library, es: seq<Fields>)
    ensures DistinctKeys(lib, es) <==>
            (forall e :: multiset(es)[e] <= 1) &&
            (forall d, e :: d in es && e in es && d != e ==> ExceptionKey(lib, d) != ExceptionKey(lib, e))
  {
    if DistinctKeys(lib, es) {
      forall e ensures multiset(es)[e] <= 1 {
        if multiset(es)[e] >= 2 {
          var i, j := TwiceMeansTwoPositions(es, e);
        }
      }
    }
    if (forall e :: multiset(es)[e] <= 1) &&
       (forall d, e :: d in es && e in es && d != e ==> ExceptionKey(lib, d) != ExceptionKey(lib, e))
    {
      forall i, j | 0 <= i < j < |es| ensures ExceptionKey(lib, es[i]) != ExceptionKey(lib, es[j]) {
        if es[i] == es[j] {
          TwoPositionsMeanTwice(es, i, j);
        }
      }
    }
  }

  lemma ExceptionOrderIsIrrelevant(lib: Library, es: seq<Fields>, es': seq<Fields>, findings: seq<Finding>, today: int)
    requires Reordering(es, es')
    ensures Passes(lib, es, findings, today) <==> Passes(lib, es', findings, today)
  {
    SameMembers(es, es');
    DistinctKeysByMembers(lib, es);
    DistinctKeysByMembers(lib, es');
    assert ExceptionsValid(lib, es) <==> ExceptionsValid(lib, es');
    assert forall f :: Covered(lib, es, today, f) <==> Covered(lib, es', today, f);
    assert forall f :: SeverityAgrees(lib, es, f) <==> SeverityAgrees(lib, es', f);
  }

  // ---------- Findings may not ----------

  /** Every relevant finding agrees, not only the first of each key. */
  ghost predicate AllAgree(lib: Library, es: seq<Fields>, findings: seq<Finding>) {
    forall f :: f in findings && Relevant(lib, f) ==> SeverityAgrees(lib, es, f)
  }

  /** Severity is a function of the key. */
  ghost predicate OneSeverityPerKey(lib: Library, findings: seq<Finding>) {
    forall f, g :: f in findings && g in findings && Relevant(lib, f) && Relevant(lib, g) && FindingKey(lib, f) == FindingKey(lib, g) ==>
      FindingSeverity(lib, f) == FindingSeverity(lib, g)
  }

  /** Some key has only relevant findings whose severity disagrees. */
  ghost predicate SomeKeyNeverAgrees(lib: Library, es: seq<Fields>, findings: seq<Finding>) {
    exists f :: f in findings && NeverAgrees(lib, es, findings, f)
  }

  ghost predicate NeverAgrees(lib: Library, es: seq<Fields>, findings: seq<Finding>, f: Finding) {
    Relevant(lib, f) &&
    forall g :: g in findings && Relevant(lib, g) && FindingKey(lib, g) == FindingKey(lib, f) ==> !SeverityAgrees(lib, es, g)
  }

  /** The verdict when no finding is skipped for having been seen. */
  ghost predicate PassesUnfiltered(lib: Library, es: seq<Fields>, findings: seq<Finding>, today: int) {
    ExceptionsValid(lib, es) && AllCovered(lib, es, findings, today) && AllAgree(lib, es, findings)
  }

  /** Every relevant finding is preceded by, or is, the first of its key. */
  lemma HasFirst(lib: Library, findings: seq<Finding>, i: nat) returns (j: nat)
    requires i < |findings| && Relevant(lib, findings[i])
    ensures j <= i && FirstOfKey(lib, findings, j) && FindingKey(lib, findings[j]) == FindingKey(lib, findings[i])
  {
    if FirstOfKey(lib, findings, i) {
      j := i;
    } else {
      var h :| 0 <= h < i && Relevant(lib, findings[h]) && FindingKey(lib, findings[h]) == FindingKey(lib, findings[i]);
      j := HasFirst(lib, findings, h);
    }
  }

  /** The loop body run with no key marked as seen accepts exactly the findings the unfiltered verdict accepts. */
  lemma UnfilteredIsTheLoopWithoutSeen(lib: Library, es: seq<Fields>, index: map<Key, IndexEntry>, findings: seq<Finding>, today: int)
    requires IndexMatches(lib, index, es)
    ensures (forall f :: f in findings ==> Clean(lib, index, {}, f, today)) <==>
            AllCovered(lib, es, findings, today) && AllAgree(lib, es, findings)
  {
    forall f ensures Clean(lib, index, {}, f, today) <==>
                     Covered(lib, es, today, f) && (Relevant(lib, f) ==> SeverityAgrees(lib, es, f))
    {
      IndexDecides(lib, es, index, today, f);
    }
  }

  lemma AllAgreeMeansFirstsAgree(lib: Library, es: seq<Fields>, findings: seq<Finding>)
    requires AllAgree(lib, es, findings)
    ensures FirstsAgree(lib, es, findings)
  {
    forall i: nat | FirstOfKey(lib, findings, i) ensures SeverityAgrees(lib, es, findings[i]) {
      assert findings[i] in findings;
    }
  }

  /** If severity is a function of the key, skipping seen keys changes no verdict. */
  lemma {:induction false} DedupIsTransparent(lib: Library, es: seq<Fields>, findings: seq<Finding>, today: int)
    requires OneSeverityPerKey(lib, findings)
    ensures Passes(lib, es, findings, today) <==> PassesUnfiltered(lib, es, findings, today)
  {
    if AllAgree(lib, es, findings) {
      AllAgreeMeansFirstsAgree(lib, es, findings);
    }
    if FirstsAgree(lib, es, findings) {
      forall f | f in findings && Relevant(lib, f) ensures SeverityAgrees(lib, es, f) {
        var i :| 0 <= i < |findings| && findings[i] == f;
        var j := HasFirst(lib, findings, i);
        assert SeverityAgrees(lib, es, findings[j]);
      }
    }
  }

  lemma FindingOrderIsIrrelevantForOneSeverity(lib: Library, es: seq<Fields>, findings: seq<Finding>, findings': seq<Finding>, today: int)
    requires Reordering(findings, findings') && OneSeverityPerKey(lib, findings)
    ensures Passes(lib, es, findings, today) <==> Passes(lib, es, findings', today)
  {
    SameMembers(findings, findings');
    DedupIsTransparent(lib, es, findings, today);
    DedupIsTransparent(lib, es, findings', today);
  }

  ghost predicate OrderIndependent(lib: Library, es: seq<Fields>, findings: seq<Finding>, today: int) {
    forall p :: Reordering(p, findings) ==> (Passes(lib, es, p, today) <==> Passes(lib, es, findings, today))
  }

  function Where(findings: seq<Finding>, keep: Finding -> bool): seq<Finding> {
    if findings == [] then []
    else Where(findings[..|findings|-1], keep) + if keep(findings[|findings|-1]) then [findings[|findings|-1]] else []
  }

  lemma {:induction false} WhereSplits(findings: seq<Finding>, keep: Finding -> bool)
    ensures forall f :: f in Where(findings, keep) <==> f in findings && keep(f)
    ensures multiset(Where(findings, keep)) + multiset(Where(findings, f => !keep(f))) == multiset(findings)
  {
    if findings != [] {
      var n := |findings| - 1;
      assert findings == findings[..n] + [findings[n]];
      WhereSplits(findings[..n], keep);
    }
  }

  /** The findings that agree, then the others. */
  lemma Partitioned(findings: seq<Finding>, agreeing: set<Finding>) returns (first: seq<Finding>, rest: seq<Finding>)
    ensures Reordering(first + rest, findings)
    ensures forall f :: f in first <==> f in findings && f in agreeing
    ensures forall f :: f in rest <==> f in findings && f !in agreeing
  {
    var keep := f => f in agreeing;
    WhereSplits(findings, keep);
    WhereSplits(findings, f => !keep(f));
    first, rest := Where(findings, keep), Where(findings, f => !keep(f));
    assert multiset(first + rest) == multiset(first) + multiset(rest);
  }

  lemma {:induction false} AgreeingFirstPasses(lib: Library, es: seq<Fields>, findings: seq<Finding>) returns (p: seq<Finding>)
    requires !SomeKeyNeverAgrees(lib, es, findings)
    ensures Reordering(p, findings) && FirstsAgree(lib, es, p)
  {
    var agreeing := set f | f in findings && SeverityAgrees(lib, es, f);
    var first, rest := Partitioned(findings, agreeing);
    p := first + rest;
    forall i: nat | FirstOfKey(lib, p, i) ensures SeverityAgrees(lib, es, p[i]) {
      assert p[i] in p;
      SameMembers(p, findings);
      var g := AgreeingOne(lib, es, findings, p[i]);
      FirstIsInFront(lib, first, rest, i, g);
      assert p[i] == first[i];
    }
  }

  lemma {:induction false} AgreeingOne(lib: Library, es: seq<Fields>, findings: seq<Finding>, f: Finding) returns (g: Finding)
    requires !SomeKeyNeverAgrees(lib, es, findings) && f in findings && Relevant(lib, f)
    ensures g in findings && Relevant(lib, g) && FindingKey(lib, g) == FindingKey(lib, f) && SeverityAgrees(lib, es, g)
  {
    assert !NeverAgrees(lib, es, findings, f);
    g :| g in findings && Relevant(lib, g) && FindingKey(lib, g) == FindingKey(lib, f) && SeverityAgrees(lib, es, g);
  }

  lemma FirstIsInFront(lib: Library, first: seq<Finding>, rest: seq<Finding>, i: nat, g: Finding)
    requires FirstOfKey(lib, first + rest, i)
    requires g in first && Relevant(lib, g) && FindingKey(lib, g) == FindingKey(lib, (first + rest)[i])
    ensures i < |first|
  {
    var p := first + rest;
    var j: nat :| j < |first| && first[j] == g;
    assert p[j] == g;
  }

  lemma MovedToFront<T>(s: seq<T>, i: nat) returns (q: seq<T>)
    requires i < |s|
    ensures Reordering(q, s) && |q| > 0 && q[0] == s[i]
  {
    var front, back := s[..i], s[i+1..];
    q := [s[i]] + (front + back);
    assert s == front + ([s[i]] + back);
    assert multiset(q) == multiset{s[i]} + multiset(front + back);
  }

  /** A disagreeing finding first. */
  lemma DisagreeingFirstFails(lib: Library, es: seq<Fields>, findings: seq<Finding>) returns (q: seq<Finding>)
    requires !AllAgree(lib, es, findings)
    ensures Reordering(q, findings) && !FirstsAgree(lib, es, q)
  {
    var f :| f in findings && Relevant(lib, f) && !SeverityAgrees(lib, es, f);
    var i :| 0 <= i < |findings| && findings[i] == f;
    q := MovedToFront(findings, i);
    assert FirstOfKey(lib, q, 0) && q[0] == f;
  }

  lemma {:induction false} NeverAgreesFails(lib: Library, es: seq<Fields>, findings: seq<Finding>)
    requires SomeKeyNeverAgrees(lib, es, findings)
    ensures !FirstsAgree(lib, es, findings)
  {
    var f :| f in findings && NeverAgrees(lib, es, findings, f);
    var i :| 0 <= i < |findings| && findings[i] == f;
    var j := HasFirst(lib, findings, i);
    assert findings[j] in findings;
  }

  /**
    Exactly when the order of the findings does not matter: the verdict is negative for another reason, or
    all relevant findings agree with their exceptions, or those of some key all disagree.
   */
  lemma {:induction false} FindingOrderMattersExactlyIf(lib: Library, es: seq<Fields>, findings: seq<Finding>, today: int)
    ensures OrderIndependent(lib, es, findings, today) <==>
            || !ExceptionsValid(lib, es)
            || !AllCovered(lib, es, findings, today)
            || AllAgree(lib, es, findings)
            || SomeKeyNeverAgrees(lib, es, findings)
  {
    if MixedVerdicts(lib, es, findings, today) {
      MixedVerdictsDiffer(lib, es, findings, today);
    } else {
      forall p | Reordering(p, findings) ensures Passes(lib, es, p, today) <==> Passes(lib, es, findings, today) {
        ReorderedVerdict(lib, es, findings, p, today);
        ReorderedVerdict(lib, es, findings, findings, today);
      }
    }
  }

  ghost predicate MixedVerdicts(lib: Library, es: seq<Fields>, findings: seq<Finding>, today: int) {
    && ExceptionsValid(lib, es) && AllCovered(lib, es, findings, today)
    && !AllAgree(lib, es, findings) && !SomeKeyNeverAgrees(lib, es, findings)
  }

  lemma {:induction false} MixedVerdictsDiffer(lib: Library, es: seq<Fields>, findings: seq<Finding>, today: int)
    requires MixedVerdicts(lib, es, findings, today)
    ensures !OrderIndependent(lib, es, findings, today)
  {
    var p := AgreeingFirstPasses(lib, es, findings);
    var q := DisagreeingFirstFails(lib, es, findings);
    SameMembers(p, findings);
    assert Passes(lib, es, p, today) && !Passes(lib, es, q, today);
  }

  lemma ReorderedVerdict(lib: Library, es: seq<Fields>, findings: seq<Finding>, p: seq<Finding>, today: int)
    requires Reordering(p, findings)
    requires !MixedVerdicts(lib, es, findings, today)
    ensures Passes(lib, es, p, today) <==> PassesUnfiltered(lib, es, findings, today)
  {
    SameMembers(p, findings);
    assert AllCovered(lib, es, p, today) <==> AllCovered(lib, es, findings, today);
    if AllAgree(lib, es, findings) {
      AllAgreeMeansFirstsAgree(lib, es, p);
    } else if SomeKeyNeverAgrees(lib, es, findings) {
      var f :| f in findings && NeverAgrees(lib, es, findings, f);
      assert NeverAgrees(lib, es, p, f);
      NeverAgreesFails(lib, es, p);
    }
  }

  // ---------- An input on which order decides ----------

  const Plain: Library := Library(n => "", s => s, s => Some(20))
  const Accepted: Fields := map["package" := "p", "advisory" := "a", "severity" := "high", "mitigation" := "m", "expires_on" := "d"]

  function Seen(severity: string): Finding {
    Finding(Str("p"), Str(severity), Str("a"), Null)
  }

  /** One package reported as high and as critical, excused as high: the report's order decides. */
  lemma OrderCanDecide()
    ensures Passes(Plain, [Accepted], [Seen("high"), Seen("critical")], 0)
    ensures !Passes(Plain, [Accepted], [Seen("critical"), Seen("high")], 0)
    ensures !PassesUnfiltered(Plain, [Accepted], [Seen("high"), Seen("critical")], 0)
  {
    var high, critical := Seen("high"), Seen("critical");
    PlainKeys();
    var es := [Accepted];
    assert forall e :: e in es <==> e == Accepted;
    assert Excused(Plain, es, 0, high) by { assert Accepted in es; }
    assert Excused(Plain, es, 0, critical) by { assert Accepted in es; }
    assert SeverityAgrees(Plain, es, high) && !SeverityAgrees(Plain, es, critical);
    assert [high, critical][0] == high && [critical, high][0] == critical;
    assert FirstOfKey(Plain, [critical, high], 0);
    forall i: nat | FirstOfKey(Plain, [high, critical], i) ensures i == 0 {
      if i == 1 { assert Relevant(Plain, [high, critical][0]); }
    }
    assert critical in [high, critical];
  }

  lemma PlainKeys()
    ensures ExceptionKey(Plain, Accepted) == ("p", "a") && ExceptionSeverity(Plain, Accepted) == "high" && Usable(Plain, Accepted)
    ensures ExpiresOn(Plain, Accepted) == Some(20)
    ensures FindingKey(Plain, Seen("high")) == ("p", "a") && FindingKey(Plain, Seen("critical")) == ("p", "a")
    ensures FindingSeverity(Plain, Seen("high")) == "high" && FindingSeverity(Plain, Seen("critical")) == "critical"
    ensures Relevant(Plain, Seen("high")) && Relevant(Plain, Seen("critical"))
  {
    Letters();
    AcceptedKey();
  }

  lemma Letters()
    ensures Strip("p") == "p" && Strip("a") == "a" && Strip("high") == "high" && Strip("critical") == "critical"
  {
  }

  lemma AcceptedKey()
    ensures ExceptionKey(Plain, Accepted) == ("p", "a") && ExceptionSeverity(Plain, Accepted) == "high" && Usable(Plain, Accepted)
  {
    Letters();
  }
}
