/** Exactly which problems the audit tool reports, and how often. */
module ReportedProblems {
  import opened Prelude
  import opened PythonText
  import opened ExceptionParser
  import opened AuditGate
  import opened ReportTheorems

  // ---------- The exception list ----------

  /** The first well-formed exception of its key. */
  ghost predicate FirstFor(lib: Library, es: seq<Fields>, i: nat, k: Key) {
    && i < |es| && WellFormed(lib, es[i]) && ExceptionKey(lib, es[i]) == k
    && forall j :: 0 <= j < i && WellFormed(lib, es[j]) ==> ExceptionKey(lib, es[j]) != k
  }

  ghost predicate KeyOccurs(lib: Library, es: seq<Fields>, k: Key) {
    exists i: nat :: FirstFor(lib, es, i, k)
  }

  /** What is wrong with an exception: only the first thing is reported. */
  ghost predicate ErrorAt(lib: Library, es: seq<Fields>, i: nat, p: Problem) {
    && i < |es|
    && match p
       case MissingFields => !AllGiven(es[i])
       case InvalidDate => AllGiven(es[i]) && lib.fromIso(es[i]["expires_on"]).None?
       case BlankKey => AllGiven(es[i]) && lib.fromIso(es[i]["expires_on"]).Some? && !WellFormed(lib, es[i])
       case Duplicate(k) => WellFormed(lib, es[i]) && ExceptionKey(lib, es[i]) == k && !FirstFor(lib, es, i, k)
       case _ => false
  }

  lemma FirstForExtends(lib: Library, before: seq<Fields>, e: Fields, i: nat, k: Key)
    ensures FirstFor(lib, before + [e], i, k) <==>
            FirstFor(lib, before, i, k) || (i == |before| && WellFormed(lib, e) && ExceptionKey(lib, e) == k && !KeyOccurs(lib, before, k))
  {
    var all := before + [e];
    assert all[|before|] == e && forall j :: 0 <= j < |before| ==> all[j] == before[j];
    if i == |before| && WellFormed(lib, e) && ExceptionKey(lib, e) == k && !FirstFor(lib, all, i, k) {
      var j :| 0 <= j < i && WellFormed(lib, all[j]) && ExceptionKey(lib, all[j]) == k;
      SomeIsFirst(lib, before, j, k);
    }
  }

  /** If an exception of a key occurs, there is a first. */
  lemma {:induction false} SomeIsFirst(lib: Library, es: seq<Fields>, i: nat, k: Key)
    requires i < |es| && WellFormed(lib, es[i]) && ExceptionKey(lib, es[i]) == k
    ensures KeyOccurs(lib, es, k)
  {
    if j :| 0 <= j < i && WellFormed(lib, es[j]) && ExceptionKey(lib, es[j]) == k {
      SomeIsFirst(lib, es, j, k);
    } else {
      assert FirstFor(lib, es, i, k);
    }
  }

  ghost predicate HoldsTheFirst(lib: Library, index: map<Key, IndexEntry>, es: seq<Fields>) {
    && (forall k :: k in index <==> KeyOccurs(lib, es, k))
    && (forall i: nat, k: Key :: FirstFor(lib, es, i, k) ==> k in index && EntryIs(lib, es[i], index[k]))
  }

  predicate EntryIs(lib: Library, e: Fields, entry: IndexEntry) {
    && AllGiven(e) && lib.fromIso(e["expires_on"]) == Some(entry.expiresOn)
    && lib.lower(Strip(e["severity"])) == entry.severity
  }

  lemma EntryOfIs(lib: Library, e: Fields)
    requires Usable(lib, e)
    ensures EntryIs(lib, e, EntryOf(lib, e))
  {
    UsableIsWellFormed(lib, e);
  }

  /** The index holds, for each key, the severity and the date of its first well-formed exception. */
  lemma {:induction false} IndexHoldsTheFirst(lib: Library, es: seq<Fields>)
    ensures HoldsTheFirst(lib, IndexOf(lib, es), es)
  {
    if es != [] {
      var n, e := |es| - 1, es[|es|-1];
      assert es == es[..n] + [e];
      IndexHoldsTheFirst(lib, es[..n]);
      OneMoreException(lib, es[..n], e);
      UsableIsWellFormed(lib, e);
      FirstsExtend(lib, IndexOf(lib, es[..n]), es[..n], e);
    }
  }

  lemma KeyOccursExtends(lib: Library, before: seq<Fields>, e: Fields, k: Key)
    ensures KeyOccurs(lib, before + [e], k) <==> KeyOccurs(lib, before, k) || (WellFormed(lib, e) && ExceptionKey(lib, e) == k)
  {
    var all := before + [e];
    if i: nat :| FirstFor(lib, all, i, k) {
      FirstForExtends(lib, before, e, i, k);
    }
    if i: nat :| FirstFor(lib, before, i, k) {
      FirstForExtends(lib, before, e, i, k);
      assert FirstFor(lib, all, i, k);
    }
    if WellFormed(lib, e) && ExceptionKey(lib, e) == k {
      assert all[|before|] == e;
      SomeIsFirst(lib, all, |before|, k);
    }
  }

  lemma FirstsExtend(lib: Library, index: map<Key, IndexEntry>, before: seq<Fields>, e: Fields)
    requires HoldsTheFirst(lib, index, before)
    ensures HoldsTheFirst(lib, if Usable(lib, e) && ExceptionKey(lib, e) !in index then index[ExceptionKey(lib, e) := EntryOf(lib, e)] else index,
                          before + [e])
  {
    UsableIsWellFormed(lib, e);
    if Usable(lib, e) && ExceptionKey(lib, e) !in index {
      EntryOfIs(lib, e);
      NewKeyHolds(lib, index, before, e, ExceptionKey(lib, e), EntryOf(lib, e));
    } else {
      OldKeysHold(lib, index, before, e);
    }
  }

  lemma NewKeyHolds(lib: Library, index: map<Key, IndexEntry>, before: seq<Fields>, e: Fields, key: Key, entry: IndexEntry)
    requires HoldsTheFirst(lib, index, before) && WellFormed(lib, e) && ExceptionKey(lib, e) == key && key !in index && EntryIs(lib, e, entry)
    ensures HoldsTheFirst(lib, index[key := entry], before + [e])
  {
    forall k ensures KeyOccurs(lib, before + [e], k) <==> KeyOccurs(lib, before, k) || k == key {
      KeyOccursExtends(lib, before, e, k);
    }
    forall i: nat, k: Key | FirstFor(lib, before + [e], i, k)
      ensures k in index[key := entry] && EntryIs(lib, (before + [e])[i], index[key := entry][k])
    {
      FirstForExtends(lib, before, e, i, k);
      FirstHasEntry(lib, index, before, e, key, entry, i, k);
    }
  }

  lemma FirstHasEntry(lib: Library, index: map<Key, IndexEntry>, before: seq<Fields>, e: Fields, key: Key, entry: IndexEntry, i: nat, k: Key)
    requires HoldsTheFirst(lib, index, before) && EntryIs(lib, e, entry) && key !in index
    requires FirstFor(lib, before, i, k) || (i == |before| && k == key)
    ensures k in index[key := entry] && EntryIs(lib, (before + [e])[i], index[key := entry][k])
  {
  }

  lemma OldKeysHold(lib: Library, index: map<Key, IndexEntry>, before: seq<Fields>, e: Fields)
    requires HoldsTheFirst(lib, index, before) && (WellFormed(lib, e) ==> ExceptionKey(lib, e) in index)
    ensures HoldsTheFirst(lib, index, before + [e])
  {
    forall k ensures KeyOccurs(lib, before + [e], k) <==> KeyOccurs(lib, before, k) {
      KeyOccursExtends(lib, before, e, k);
    }
    forall i: nat, k: Key | FirstFor(lib, before + [e], i, k) ensures k in index && EntryIs(lib, (before + [e])[i], index[k]) {
      FirstForExtends(lib, before, e, i, k);
      assert FirstFor(lib, before, i, k) && (before + [e])[i] == before[i];
    }
  }

  /** Every problem of the list is one of its exceptions, and every exception is either in the index or reported once. */
  lemma {:induction false} ListErrorsAre(lib: Library, es: seq<Fields>)
    ensures forall p :: p in IndexErrors(lib, es) <==> exists i: nat :: ErrorAt(lib, es, i, p)
    ensures |IndexErrors(lib, es)| + |IndexOf(lib, es)| == |es|
  {
    if es != [] {
      var n, e := |es| - 1, es[|es|-1];
      assert es == es[..n] + [e];
      ListErrorsAre(lib, es[..n]);
      OneMoreException(lib, es[..n], e);
      LastError(lib, es[..n], e);
      forall p ensures p in IndexErrors(lib, es) <==> exists i: nat :: ErrorAt(lib, es, i, p) {
        EarlierErrors(lib, es[..n], e, p);
      }
    }
  }

  lemma EarlierErrors(lib: Library, before: seq<Fields>, e: Fields, p: Problem)
    ensures (exists i: nat :: ErrorAt(lib, before + [e], i, p)) <==>
            (exists i: nat :: ErrorAt(lib, before, i, p)) || ErrorAt(lib, before + [e], |before|, p)
  {
    var all := before + [e];
    forall i: nat | i < |before| ensures ErrorAt(lib, all, i, p) <==> ErrorAt(lib, before, i, p) {
      assert all[i] == before[i];
      if p.Duplicate? { FirstForExtends(lib, before, e, i, p.key); }
    }
  }

  lemma LastError(lib: Library, before: seq<Fields>, e: Fields)
    ensures forall p :: ErrorAt(lib, before + [e], |before|, p) <==> ProblemWith(lib, IndexOf(lib, before), e) == Some(p)
  {
    IndexHoldsTheFirst(lib, before);
    forall p ensures ErrorAt(lib, before + [e], |before|, p) <==> ProblemWith(lib, IndexOf(lib, before), e) == Some(p) {
      LastErrorIs(lib, before, e, p);
      ProblemIs(lib, IndexOf(lib, before), e, p);
    }
  }

  /** What is wrong with an exception, given whether its key is taken. */
  predicate ErrorOf(lib: Library, e: Fields, taken: bool, p: Problem) {
    match p
    case MissingFields => !AllGiven(e)
    case InvalidDate => AllGiven(e) && lib.fromIso(e["expires_on"]).None?
    case BlankKey => AllGiven(e) && lib.fromIso(e["expires_on"]).Some? && !WellFormed(lib, e)
    case Duplicate(k) => WellFormed(lib, e) && ExceptionKey(lib, e) == k && taken
    case _ => false
  }

  lemma LastErrorIs(lib: Library, before: seq<Fields>, e: Fields, p: Problem)
    ensures ErrorAt(lib, before + [e], |before|, p) <==> ErrorOf(lib, e, KeyOccurs(lib, before, ExceptionKey(lib, e)), p)
  {
    assert (before + [e])[|before|] == e;
    if p.Duplicate? { FirstForExtends(lib, before, e, |before|, p.key); }
  }

  lemma ProblemIs(lib: Library, index: map<Key, IndexEntry>, e: Fields, p: Problem)
    ensures ErrorOf(lib, e, ExceptionKey(lib, e) in index, p) <==> ProblemWith(lib, index, e) == Some(p)
  {
    CompleteIsAllGiven(e);
    UsableIsWellFormed(lib, e);
  }

  // ---------- The findings ----------

  /** What is reported of a finding: a missing identifier each time, everything else for the first of its key. */
  ghost predicate ProblemAt(lib: Library, es: seq<Fields>, findings: seq<Finding>, j: nat, p: Problem, today: int) {
    match p
    case NoAdvisory => j < |findings| && Relevant(lib, findings[j]) && FindingKey(lib, findings[j]).1 == ""
    case NoException(k) => FirstWithKey(lib, findings, j, k) && !KeyOccurs(lib, es, k)
    case SeverityMismatch(k) => FirstWithKey(lib, findings, j, k) && exists i: nat :: FirstFor(lib, es, i, k) && Disagrees(lib, es[i], findings[j])
    case Expired(k) => FirstWithKey(lib, findings, j, k) && exists i: nat :: FirstFor(lib, es, i, k) && HasExpired(lib, es[i], today)
    case _ => false
  }

  ghost predicate FirstWithKey(lib: Library, findings: seq<Finding>, j: nat, k: Key) {
    FirstOfKey(lib, findings, j) && FindingKey(lib, findings[j]) == k && k.1 != ""
  }

  predicate Disagrees(lib: Library, e: Fields, f: Finding) {
    AllGiven(e) && lib.lower(Strip(e["severity"])) != "" && lib.lower(Strip(e["severity"])) != FindingSeverity(lib, f)
  }

  predicate HasExpired(lib: Library, e: Fields, today: int) {
    AllGiven(e) && lib.fromIso(e["expires_on"]).Some? && lib.fromIso(e["expires_on"]).value < today
  }

  /** One finding's part of the three lists. */
  ghost predicate PartIs(lib: Library, es: seq<Fields>, findings: seq<Finding>, j: nat, today: int, part: Problems) {
    (forall p :: PartHas(lib, es, findings, j, today, part, p)) && |part.missing| <= 1 && |part.expired| <= 1
  }

  ghost predicate PartHas(lib: Library, es: seq<Fields>, findings: seq<Finding>, j: nat, today: int, part: Problems, p: Problem) {
    && (p in part.errors <==> (p.NoAdvisory? || p.SeverityMismatch?) && ProblemAt(lib, es, findings, j, p, today))
    && (p in part.missing <==> p.NoException? && ProblemAt(lib, es, findings, j, p, today))
    && (p in part.expired <==> p.Expired? && ProblemAt(lib, es, findings, j, p, today))
  }

  lemma OnePart(lib: Library, es: seq<Fields>, findings: seq<Finding>, j: nat, today: int)
    requires j < |findings|
    ensures PartIs(lib, es, findings, j, today, ProblemsOf(lib, IndexOf(lib, es), SeenIn(lib, findings, j), findings[j], today))
  {
    forall p: Problem
      ensures PartHas(lib, es, findings, j, today, ProblemsOf(lib, IndexOf(lib, es), SeenIn(lib, findings, j), findings[j], today), p)
    {
      IndexHoldsTheFirst(lib, es);
      FirstWithKeyIs(lib, findings, j);
      OneProblem(lib, es, IndexOf(lib, es), SeenIn(lib, findings, j), findings, j, today, p);
    }
  }

  lemma FirstWithKeyIs(lib: Library, findings: seq<Finding>, j: nat)
    requires j < |findings|
    ensures forall k: Key :: FirstWithKey(lib, findings, j, k) <==>
              Judged(lib, SeenIn(lib, findings, j), findings[j]) && k == FindingKey(lib, findings[j])
  {
    SeenInIsSeen(lib, findings, j);
  }

  lemma OneProblem(lib: Library, es: seq<Fields>, index: map<Key, IndexEntry>, seen: set<Key>, findings: seq<Finding>, j: nat, today: int, p: Problem)
    requires j < |findings| && HoldsTheFirst(lib, index, es)
    requires forall k: Key :: FirstWithKey(lib, findings, j, k) <==> Judged(lib, seen, findings[j]) && k == FindingKey(lib, findings[j])
    ensures PartHas(lib, es, findings, j, today, ProblemsOf(lib, index, seen, findings[j], today), p)
  {
    var key := FindingKey(lib, findings[j]);
    if KeyOccurs(lib, es, key) {
      var i: nat :| FirstFor(lib, es, i, key);
      WithException(lib, es, index, seen, findings, j, i, today, p);
    } else {
      WithoutException(lib, es, index, seen, findings, j, today, p);
    }
  }

  /** Relevant, with an identifier, and not seen before. */
  predicate Judged(lib: Library, seen: set<Key>, f: Finding) {
    Relevant(lib, f) && FindingKey(lib, f).1 != "" && FindingKey(lib, f) !in seen
  }

  lemma WithException(lib: Library, es: seq<Fields>, index: map<Key, IndexEntry>, seen: set<Key>, findings: seq<Finding>, j: nat, i: nat, today: int, p: Problem)
    requires j < |findings| && HoldsTheFirst(lib, index, es) && FirstFor(lib, es, i, FindingKey(lib, findings[j]))
    requires forall k: Key :: FirstWithKey(lib, findings, j, k) <==> Judged(lib, seen, findings[j]) && k == FindingKey(lib, findings[j])
    ensures PartHas(lib, es, findings, j, today, ProblemsOf(lib, index, seen, findings[j], today), p)
  {
    EntryDecides(lib, es, index, findings[j], i, today);
    ProblemAtFirst(lib, es, findings, j, i, p, today);
  }

  lemma WithoutException(lib: Library, es: seq<Fields>, index: map<Key, IndexEntry>, seen: set<Key>, findings: seq<Finding>, j: nat, today: int, p: Problem)
    requires j < |findings| && HoldsTheFirst(lib, index, es) && !KeyOccurs(lib, es, FindingKey(lib, findings[j]))
    requires forall k: Key :: FirstWithKey(lib, findings, j, k) <==> Judged(lib, seen, findings[j]) && k == FindingKey(lib, findings[j])
    ensures PartHas(lib, es, findings, j, today, ProblemsOf(lib, index, seen, findings[j], today), p)
  {
    ProblemWithoutFirst(lib, es, findings, j, p, today);
  }

  /** The problem in terms of the first exception of the finding's key. */
  lemma ProblemAtFirst(lib: Library, es: seq<Fields>, findings: seq<Finding>, j: nat, i: nat, p: Problem, today: int)
    requires j < |findings| && FirstFor(lib, es, i, FindingKey(lib, findings[j]))
    requires forall i': nat :: FirstFor(lib, es, i', FindingKey(lib, findings[j])) ==> i' == i
    ensures match p
            case NoException(k) => !ProblemAt(lib, es, findings, j, p, today)
            case SeverityMismatch(k) => ProblemAt(lib, es, findings, j, p, today) <==> FirstWithKey(lib, findings, j, k) && Disagrees(lib, es[i], findings[j])
            case Expired(k) => ProblemAt(lib, es, findings, j, p, today) <==> FirstWithKey(lib, findings, j, k) && HasExpired(lib, es[i], today)
            case _ => true
  {
  }

  lemma ProblemWithoutFirst(lib: Library, es: seq<Fields>, findings: seq<Finding>, j: nat, p: Problem, today: int)
    requires j < |findings| && !KeyOccurs(lib, es, FindingKey(lib, findings[j]))
    ensures match p
            case NoException(k) => ProblemAt(lib, es, findings, j, p, today) <==> FirstWithKey(lib, findings, j, k)
            case SeverityMismatch(_) | Expired(_) => !ProblemAt(lib, es, findings, j, p, today)
            case _ => true
  {
  }

  /** The entry of a key tells the same as its first exception. */
  lemma EntryDecides(lib: Library, es: seq<Fields>, index: map<Key, IndexEntry>, f: Finding, i: nat, today: int)
    requires HoldsTheFirst(lib, index, es) && FirstFor(lib, es, i, FindingKey(lib, f))
    ensures var entry := index[FindingKey(lib, f)];
            && (forall i': nat :: FirstFor(lib, es, i', FindingKey(lib, f)) ==> i' == i)
            && (Disagrees(lib, es[i], f) <==> entry.severity != "" && entry.severity != FindingSeverity(lib, f))
            && (HasExpired(lib, es[i], today) <==> entry.expiresOn < today)
  {
  }

  // ---------- The whole report ----------

  ghost predicate NoRepeats(ps: seq<Problem>) {
    forall a, b :: 0 <= a < b < |ps| ==> ps[a] != ps[b]
  }

  /** The lists are those of the parts put together. */
  lemma {:induction false} TotalHas(parts: seq<Problems>)
    ensures forall p :: p in Total(parts).errors <==> exists j: nat :: j < |parts| && p in parts[j].errors
    ensures forall p :: p in Total(parts).missing <==> exists j: nat :: j < |parts| && p in parts[j].missing
    ensures forall p :: p in Total(parts).expired <==> exists j: nat :: j < |parts| && p in parts[j].expired
  {
    if parts != [] {
      var n := |parts| - 1;
      TotalHas(parts[..n]);
      assert forall j: nat :: j < n ==> parts[..n][j] == parts[j];
    }
  }

  ghost predicate Disjoint(parts: seq<Problems>) {
    forall j: nat, k: nat, p :: j < k < |parts| ==>
      !(p in parts[j].missing && p in parts[k].missing) && !(p in parts[j].expired && p in parts[k].expired)
  }

  lemma {:induction false} TotalRepeatsNothing(parts: seq<Problems>)
    requires Disjoint(parts) && forall j :: 0 <= j < |parts| ==> |parts[j].missing| <= 1 && |parts[j].expired| <= 1
    ensures NoRepeats(Total(parts).missing) && NoRepeats(Total(parts).expired)
  {
    if parts != [] {
      var n := |parts| - 1;
      assert forall j: nat :: j < n ==> parts[..n][j] == parts[j];
      TotalRepeatsNothing(parts[..n]);
      TotalHas(parts[..n]);
      AppendRepeatsNothing(Total(parts[..n]).missing, parts[n].missing);
      AppendRepeatsNothing(Total(parts[..n]).expired, parts[n].expired);
    }
  }

  lemma AppendRepeatsNothing(ps: seq<Problem>, more: seq<Problem>)
    requires NoRepeats(ps) && |more| <= 1 && forall p :: p in more ==> p !in ps
    ensures NoRepeats(ps + more)
  {
    assert more != [] ==> more[0] in more;
  }

  /**
    Exactly what is reported: the problems of the exceptions and of the findings, each in its list, and no
    missing or expired exception twice.
   */
  lemma ReportIsExact(lib: Library, es: seq<Fields>, findings: seq<Finding>, today: int)
    ensures var r := Reported(lib, es, findings, today);
            && (forall p :: p in r.errors <==>
                  (exists i: nat :: ErrorAt(lib, es, i, p))
                  || ((p.NoAdvisory? || p.SeverityMismatch?) && Occurs(lib, es, findings, p, today)))
            && (forall p :: p in r.missing <==> p.NoException? && Occurs(lib, es, findings, p, today))
            && (forall p :: p in r.expired <==> p.Expired? && Occurs(lib, es, findings, p, today))
            && NoRepeats(r.missing) && NoRepeats(r.expired)
  {
    var parts := ProblemsOfEach(lib, IndexOf(lib, es), findings, today);
    forall j: nat | j < |parts| ensures PartIs(lib, es, findings, j, today, parts[j]) {
      OnePart(lib, es, findings, j, today);
    }
    ListErrorsAre(lib, es);
    TotalIs(lib, es, findings, today, parts);
    PartsAreDisjoint(lib, es, findings, today, parts);
    TotalRepeatsNothing(parts);
    assert [] + Total(parts).missing == Total(parts).missing && [] + Total(parts).expired == Total(parts).expired;
  }

  ghost predicate Occurs(lib: Library, es: seq<Fields>, findings: seq<Finding>, p: Problem, today: int) {
    exists j: nat :: ProblemAt(lib, es, findings, j, p, today)
  }

  lemma TotalIs(lib: Library, es: seq<Fields>, findings: seq<Finding>, today: int, parts: seq<Problems>)
    requires |parts| == |findings| && forall j: nat :: j < |parts| ==> PartIs(lib, es, findings, j, today, parts[j])
    ensures forall p :: p in Total(parts).errors <==> (p.NoAdvisory? || p.SeverityMismatch?) && Occurs(lib, es, findings, p, today)
    ensures forall p :: p in Total(parts).missing <==> p.NoException? && Occurs(lib, es, findings, p, today)
    ensures forall p :: p in Total(parts).expired <==> p.Expired? && Occurs(lib, es, findings, p, today)
  {
    TotalHas(parts);
    forall p
      ensures p in Total(parts).errors <==> (p.NoAdvisory? || p.SeverityMismatch?) && Occurs(lib, es, findings, p, today)
      ensures p in Total(parts).missing <==> p.NoException? && Occurs(lib, es, findings, p, today)
      ensures p in Total(parts).expired <==> p.Expired? && Occurs(lib, es, findings, p, today)
    {
      forall j: nat ensures ProblemAt(lib, es, findings, j, p, today) ==> j < |parts| && PartHas(lib, es, findings, j, today, parts[j], p) {
      }
      forall j: nat | j < |parts| ensures PartHas(lib, es, findings, j, today, parts[j], p) {
        assert PartIs(lib, es, findings, j, today, parts[j]);
      }
    }
  }

  lemma PartsAreDisjoint(lib: Library, es: seq<Fields>, findings: seq<Finding>, today: int, parts: seq<Problems>)
    requires |parts| == |findings| && forall j: nat :: j < |parts| ==> PartIs(lib, es, findings, j, today, parts[j])
    ensures Disjoint(parts)
  {
    forall j: nat, k: nat, p | j < k < |parts|
      ensures !(p in parts[j].missing && p in parts[k].missing) && !(p in parts[j].expired && p in parts[k].expired)
    {
      assert PartIs(lib, es, findings, j, today, parts[j]) && PartIs(lib, es, findings, k, today, parts[k]);
      assert PartHas(lib, es, findings, j, today, parts[j], p) && PartHas(lib, es, findings, k, today, parts[k], p);
    }
  }
}
