/** Which identifier, name and title a finding carries, and what a report with one finding needs to be accepted. */
module ReportTheorems {
  import opened Prelude
  import opened PythonText
  import opened ExceptionParser
  import opened AuditGate

  // ---------- Values ----------

  /** What Python takes for false. */
  lemma FalsyValues(v: Json)
    ensures !Truthy(v) <==>
            v == Null || v == Bool(false) || v == Num(0) || v == Float(0.0) || v == Str("") || v == List([]) || v == Object([])
  {
  }

  ghost predicate DistinctMembers(members: seq<Member>) {
    forall i, j :: 0 <= i < j < |members| ==> members[i].key != members[j].key
  }

  /** Looking up a key finds its member, if there is one. */
  lemma {:induction false} FindIsMember(members: seq<Member>, key: string)
    requires DistinctMembers(members)
    ensures forall v :: Find(members, key) == Some(v) <==> Member(key, v) in members
    ensures Find(members, key) == None ==> Get(members, key) == Null
  {
    if members != [] {
      var n, last := |members| - 1, members[|members|-1];
      assert members == members[..n] + [last];
      FindIsMember(members[..n], key);
      forall v | Member(key, v) in members[..n] ensures last.key != key {
        var i :| 0 <= i < n && members[..n][i] == Member(key, v);
        assert members[i].key != members[n].key;
      }
    }
  }

  /** The first value that is there, or the last of all. */
  ghost predicate IsFirstGiven(r: Json, vs: seq<Json>) {
    || (exists k :: 0 <= k < |vs| && r == vs[k] && IsFirstTruthy(vs, k))
    || (vs != [] && r == vs[|vs|-1] && forall j :: 0 <= j < |vs| ==> !Truthy(vs[j]))
  }

  ghost predicate IsFirstTruthy(vs: seq<Json>, k: nat)
    requires k < |vs|
  {
    Truthy(vs[k]) && forall j :: 0 <= j < k ==> !Truthy(vs[j])
  }

  /** `a or rest` puts `a` in front. */
  lemma OrIsFirstGiven(a: Json, rest: Json, vs: seq<Json>)
    requires vs != [] && IsFirstGiven(rest, vs)
    ensures IsFirstGiven(Or(a, rest), [a] + vs)
  {
    if Truthy(a) {
      assert ([a] + vs)[0] == a && IsFirstTruthy([a] + vs, 0);
    } else if k :| 0 <= k < |vs| && rest == vs[k] && IsFirstTruthy(vs, k) {
      FirstIsLater(a, vs, k);
    } else {
      NoneIsGiven(a, vs);
    }
  }

  lemma FirstIsLater(a: Json, vs: seq<Json>, k: nat)
    requires k < |vs| && !Truthy(a) && IsFirstTruthy(vs, k)
    ensures ([a] + vs)[k + 1] == vs[k] && IsFirstTruthy([a] + vs, k + 1)
  {
  }

  lemma NoneIsGiven(a: Json, vs: seq<Json>)
    requires vs != [] && !Truthy(a) && forall j :: 0 <= j < |vs| ==> !Truthy(vs[j])
    ensures ([a] + vs)[|vs|] == vs[|vs|-1] && forall j :: 0 <= j < |[a] + vs| ==> !Truthy(([a] + vs)[j])
  {
  }

  lemma OneIsFirstGiven(a: Json)
    ensures IsFirstGiven(a, [a])
  {
    if Truthy(a) { assert IsFirstTruthy([a], 0); }
  }

  lemma TwoGiven(a: Json, b: Json)
    ensures IsFirstGiven(Or(a, b), [a, b])
  {
    OneIsFirstGiven(b);
    OrIsFirstGiven(a, b, [b]);
    assert [a] + [b] == [a, b];
  }

  lemma FourGiven(a: Json, b: Json, c: Json, d: Json)
    ensures IsFirstGiven(Or(a, Or(b, Or(c, d))), [a, b, c, d])
  {
    TwoGiven(c, d);
    OrIsFirstGiven(b, Or(c, d), [c, d]);
    assert [b] + [c, d] == [b, c, d];
    OrIsFirstGiven(a, Or(b, Or(c, d)), [b, c, d]);
    assert [a] + [b, c, d] == [a, b, c, d];
  }

  lemma FiveGiven(a: Json, b: Json, c: Json, d: Json, e: Json)
    ensures IsFirstGiven(Or(a, Or(b, Or(c, Or(d, e)))), [a, b, c, d, e])
  {
    FourGiven(b, c, d, e);
    OrIsFirstGiven(a, Or(b, Or(c, Or(d, e))), [b, c, d, e]);
    assert [a] + [b, c, d, e] == [a, b, c, d, e];
  }

  // ---------- Advisories ----------

  /** The first CVE of an entry, if the list or text has one. */
  function FirstCveOf(m: seq<Member>): Json {
    match Get(m, "cves")
    case List(items) => if items == [] then Null else items[0]
    case Str(s) => if s == "" then Null else Str(s[..1])
    case _ => Null
  }

  /** The numeric or textual id of an entry, as text. */
  function IdText(lib: Library, m: seq<Member>): Json {
    match Get(m, "id")
    case Null => Null
    case Str(s) => Str(s)
    case id => Str(lib.show(id))
  }

  /** What may identify an advisory, the best first. */
  function Identifiers(lib: Library, m: seq<Member>): seq<Json> {
    [Get(m, "github_advisory_id"), Get(m, "url"), FirstCveOf(m), IdText(lib, m), Get(m, "title"), Get(m, "advisory"), Get(m, "overview")]
  }

  /** Only an odd `cves`, without a better identifier, raises. */
  predicate OddCves(m: seq<Member>) {
    && !Truthy(Get(m, "github_advisory_id")) && !Truthy(Get(m, "url"))
    && Truthy(Get(m, "cves")) && !Get(m, "cves").List? && !Get(m, "cves").Str?
  }

  /** The identifier of an advisory is the best one given. */
  lemma AdvisoryIdIsTheBestGiven(lib: Library, m: seq<Member>)
    ensures PickAdvisoryID(lib, m).Err? <==> OddCves(m)
    ensures PickAdvisoryID(lib, m).Ok? ==> IsFirstGiven(PickAdvisoryID(lib, m).value, Identifiers(lib, m))
  {
    if PickAdvisoryID(lib, m).Ok? {
      var b, c, d := Get(m, "url"), FirstCveOf(m), IdText(lib, m);
      var e, f, g := Get(m, "title"), Get(m, "advisory"), Get(m, "overview");
      FiveGiven(c, d, e, f, g);
      var rest := [c, d, e, f, g];
      assert IsFirstGiven(Or(b, Or(c, Or(d, Or(e, Or(f, g))))), [b] + rest) by {
        OrIsFirstGiven(b, Or(c, Or(d, Or(e, Or(f, g)))), rest);
      }
      OrIsFirstGiven(Get(m, "github_advisory_id"), Or(b, Or(c, Or(d, Or(e, Or(f, g))))), [b] + rest);
      assert [Get(m, "github_advisory_id")] + ([b] + rest) == Identifiers(lib, m);
      PickedIsOr(lib, m);
    }
  }

  lemma PickedIsOr(lib: Library, m: seq<Member>)
    requires PickAdvisoryID(lib, m).Ok?
    ensures PickAdvisoryID(lib, m).value ==
            Or(Get(m, "github_advisory_id"), Or(Get(m, "url"), Or(FirstCveOf(m), Or(IdText(lib, m),
              Or(Get(m, "title"), Or(Get(m, "advisory"), Get(m, "overview")))))))
  {
    var cves := Get(m, "cves");
    if cves.Str? && cves.s != "" { assert cves.s[..1] == [cves.s[0]]; }
  }

  /** A finding of `advisories` carries the best name, identifier and title given, and the entry's severity. */
  lemma AdvisoryFindingIsTheBestGiven(lib: Library, m: seq<Member>)
    requires AdvisoryFinding(lib, Object(m)).Ok?
    ensures var f := AdvisoryFinding(lib, Object(m)).value;
            && IsFirstGiven(f.name, [Get(m, "module_name"), Get(m, "name")])
            && IsFirstGiven(f.advisory, Identifiers(lib, m))
            && IsFirstGiven(f.title, [Get(m, "title"), Get(m, "advisory"), Get(m, "overview"), Get(m, "url")])
            && f.severity == Get(m, "severity")
  {
    AdvisoryIdIsTheBestGiven(lib, m);
    TwoGiven(Get(m, "module_name"), Get(m, "name"));
    FourGiven(Get(m, "title"), Get(m, "advisory"), Get(m, "overview"), Get(m, "url"));
  }

  /** With a GHSA id, the finding carries that, whatever else the entry holds. */
  lemma GhsaIdIsPreferred(lib: Library, m: seq<Member>)
    requires Truthy(Get(m, "github_advisory_id"))
    ensures PickAdvisoryID(lib, m) == Ok(Get(m, "github_advisory_id"))
  {
  }

  // ---------- Vulnerabilities ----------

  /** The identifier and the title of an item of `via` are the best ones given. */
  lemma ItemIsTheBestGiven(item: Json)
    ensures item.Object? ==>
              var m := item.members;
              && IsFirstGiven(ItemID(item), [Get(m, "github_advisory_id"), Get(m, "url"), Get(m, "source"), Get(m, "title"), Get(m, "name")])
              && IsFirstGiven(ItemTitle(item), [Get(m, "title"), Get(m, "url"), Get(m, "advisory"), Get(m, "source")])
    ensures item.Str? ==> ItemID(item) == item && ItemTitle(item) == item
    ensures !item.Object? && !item.Str? ==> !Truthy(ItemID(item)) && !Truthy(ItemTitle(item))
  {
    if item.Object? {
      var m := item.members;
      var a, b, c, d, e := Get(m, "github_advisory_id"), Get(m, "url"), Get(m, "source"), Get(m, "title"), Get(m, "name");
      FiveGiven(a, b, c, d, e);
      FourGiven(d, b, Get(m, "advisory"), c);
    }
  }

  /** An entry's items are walked in order, each giving its own findings. */
  lemma {:induction false} FindingsItemByItem(name: string, severity: Json, title: Json, items: seq<Json>, more: seq<Json>)
    ensures FindingsOf(name, severity, title, items + more) == FindingsOf(name, severity, title, items) + FindingsOf(name, severity, title, more)
  {
    if more == [] {
      assert items + more == items;
    } else {
      assert (items + more)[..|items + more|-1] == items + more[..|more|-1];
      FindingsItemByItem(name, severity, title, items, more[..|more|-1]);
    }
  }

  /** An item gives one finding, of the entry's name and severity, unless its identifier is empty. */
  lemma OneItemOneFinding(name: string, severity: Json, title: Json, item: Json)
    ensures FindingsOf(name, severity, title, [item]) == if Truthy(ItemID(item)) then [Finding(Str(name), severity, ItemID(item), title)] else []
  {
    assert [item][..0] == [];
  }

  /** Titles are joined by "; ", those that are not there left out. */
  lemma {:induction false} TitlesItemByItem(items: seq<Json>, more: seq<Json>)
    requires !AnyBadTitle(items + more)
    ensures !AnyBadTitle(items) && !AnyBadTitle(more)
    ensures JoinedTitles(items + more) ==
            if JoinedTitles(items) == "" then JoinedTitles(more)
            else if JoinedTitles(more) == "" then JoinedTitles(items)
            else JoinedTitles(items) + "; " + JoinedTitles(more)
  {
    if more == [] {
      assert items + more == items;
    } else {
      var n := |more| - 1;
      assert (items + more)[..|items + more|-1] == items + more[..n];
      TitlesItemByItem(items, more[..n]);
      Chained(JoinedTitles(items), JoinedTitles(more[..n]), ItemTitle(more[n]));
    }
  }

  lemma Chained(a: string, b: string, last: Json)
    ensures last.Str? ==> a + "; " + (b + "; " + last.s) == a + "; " + b + "; " + last.s
  {
  }

  lemma OneTitle(item: Json)
    requires !BadTitle(item)
    ensures JoinedTitles([item]) == if Truthy(ItemTitle(item)) then ItemTitle(item).s else ""
  {
    assert [item][..0] == [];
  }

  /** Entries of `vulnerabilities` are walked in order. */
  lemma {:induction false} VulnerabilitiesInOrder(entries: seq<Member>, more: seq<Member>)
    ensures VulnerabilityFindings(entries + more) == VulnerabilityFindings(entries) + VulnerabilityFindings(more)
  {
    if more == [] {
      assert entries + more == entries;
    } else {
      assert (entries + more)[..|entries + more|-1] == entries + more[..|more|-1];
      VulnerabilitiesInOrder(entries, more[..|more|-1]);
    }
  }

  /** The findings of the advisories come first, one for each in their order, and then those of the vulnerabilities. */
  lemma AdvisoriesComeFirst(lib: Library, report: Json, advisories: seq<Member>, vulnerabilities: seq<Member>)
    requires !ReportRaises(lib, report)
    requires MembersOf(report.members, "advisories") == advisories && MembersOf(report.members, "vulnerabilities") == vulnerabilities
    ensures var found := AllFindings(lib, report);
            && |found| >= |advisories| && found[|advisories|..] == VulnerabilityFindings(vulnerabilities)
            && forall k :: 0 <= k < |advisories| ==> AdvisoryFinding(lib, advisories[k].value) == Ok(found[k])
  {
  }

  // ---------- Exceptions ----------

  function RequiredFields(): set<string> {
    {"package", "advisory", "severity", "mitigation", "expires_on"}
  }

  predicate AllGiven(e: Fields) {
    forall field :: field in RequiredFields() ==> field in e && e[field] != ""
  }

  /** The same package, up to surrounding white space, and the same advisory, up to that and case. */
  predicate SameSubject(lib: Library, package: string, advisory: string, package': string, advisory': string) {
    Strip(package) == Strip(package') && lib.lower(Strip(advisory)) == lib.lower(Strip(advisory'))
  }

  /** Two exceptions with all fields for one subject. */
  predicate SameSubjects(lib: Library, d: Fields, e: Fields) {
    AllGiven(d) && AllGiven(e) && SameSubject(lib, d["package"], d["advisory"], e["package"], e["advisory"])
  }

  /** All fields, a date, and a subject that is not blank. */
  predicate WellFormed(lib: Library, e: Fields) {
    AllGiven(e) && lib.fromIso(e["expires_on"]).Some? && Strip(e["package"]) != "" && lib.lower(Strip(e["advisory"])) != ""
  }

  lemma CompleteIsAllGiven(e: Fields)
    ensures Complete(e) <==> AllGiven(e)
  {
    assert forall field :: field in RequiredFields() ==>
      field == "package" || field == "advisory" || field == "severity" || field == "mitigation" || field == "expires_on";
    assert AllGiven(e) ==> Given(e, "package") && Given(e, "advisory") && Given(e, "severity") && Given(e, "mitigation");
  }

  lemma UsableIsWellFormed(lib: Library, e: Fields)
    ensures Usable(lib, e) <==> WellFormed(lib, e)
  {
    CompleteIsAllGiven(e);
  }

  /** The list is valid exactly if every exception is well-formed, and no two are for the same subject. */
  lemma ValidExceptionsAre(lib: Library, es: seq<Fields>)
    ensures ExceptionsValid(lib, es) <==>
            && (forall e :: e in es ==> WellFormed(lib, e))
            && (forall i, j :: 0 <= i < j < |es| ==> !SameSubjects(lib, es[i], es[j]))
  {
    forall e | e in es ensures Usable(lib, e) <==> WellFormed(lib, e) {
      UsableIsWellFormed(lib, e);
    }
    if forall e :: e in es ==> WellFormed(lib, e) {
      forall i, j | 0 <= i < j < |es|
        ensures ExceptionKey(lib, es[i]) == ExceptionKey(lib, es[j]) <==> SameSubjects(lib, es[i], es[j])
      {
        assert WellFormed(lib, es[i]) && WellFormed(lib, es[j]);
      }
    }
  }

  // ---------- Reports with one finding ----------

  /** High or critical, up to surrounding white space and case. */
  predicate Serious(lib: Library, severity: string) {
    var text := lib.lower(Strip(severity));
    text == "high" || text == "critical"
  }

  /** An exception for this subject that has not expired, and states this severity or none. */
  ghost predicate Excuses(lib: Library, e: Fields, package: string, advisory: string, severity: string, today: int) {
    && AllGiven(e) && SameSubject(lib, e["package"], e["advisory"], package, advisory)
    && lib.fromIso(e["expires_on"]).Some? && lib.fromIso(e["expires_on"]).value >= today
    && (lib.lower(Strip(e["severity"])) == "" || lib.lower(Strip(e["severity"])) == lib.lower(Strip(severity)))
  }

  /** What a list of exceptions needs for one finding to be accepted. */
  ghost predicate AcceptsOne(lib: Library, lines: seq<string>, package: string, advisory: string, severity: string, today: int) {
    var es := Overlays(Structure(lines).records);
    && !ParsingFails(lines) && ExceptionsValid(lib, es)
    && (Serious(lib, severity) ==> lib.lower(Strip(advisory)) != "" && exists e :: e in es && Excuses(lib, e, package, advisory, severity, today))
  }

  /** The text of a value that is not None: itself, or `str` of it. */
  predicate Reads(lib: Library, v: Json, text: string) {
    match v
    case Null => false
    case Str(s) => text == s
    case _ => text == lib.show(v)
  }

  /** The text of a severity: nothing if it is missing or otherwise false. */
  predicate ReadsSeverity(v: Json, text: string) {
    match v
    case Str(s) => text == s
    case _ => !Truthy(v) && text == ""
  }

  lemma OneFindingPasses(lib: Library, es: seq<Fields>, f: Finding, package: string, advisory: string, severity: string, today: int)
    requires Truthy(f.name) && Reads(lib, f.name, package) && Reads(lib, f.advisory, advisory)
    requires ReadsSeverity(f.severity, severity)
    ensures Passes(lib, es, [f], today) <==>
            && ExceptionsValid(lib, es)
            && (Serious(lib, severity) ==> lib.lower(Strip(advisory)) != "" && exists e :: e in es && Excuses(lib, e, package, advisory, severity, today))
  {
    assert Relevant(lib, f) <==> Serious(lib, severity);
    assert [f][0] == f && forall g :: g in [f] <==> g == f;
    FirstOfOne(lib, es, f);
    assert AllCovered(lib, es, [f], today) <==> Covered(lib, es, today, f);
    if ExceptionsValid(lib, es) {
      OneExceptionExcuses(lib, es, f, package, advisory, severity, today);
    }
  }

  /** A high or critical finding without an identifier is never accepted. */
  lemma NoIdentifierFails(lib: Library, es: seq<Fields>, findings: seq<Finding>, f: Finding, severity: string, today: int)
    requires f in findings && Truthy(f.name) && ReadsSeverity(f.severity, severity) && Serious(lib, severity)
    requires f.advisory == Null || exists text :: Reads(lib, f.advisory, text) && lib.lower(Strip(text)) == ""
    ensures !Passes(lib, es, findings, today)
  {
    assert Relevant(lib, f) && FindingKey(lib, f).1 == "";
    assert !Covered(lib, es, today, f);
  }

  /** For a usable exception, excusing is a matter of its key, its date and its severity. */
  lemma ExcusesByKey(lib: Library, e: Fields, f: Finding, package: string, advisory: string, severity: string, today: int)
    requires Usable(lib, e) && FindingKey(lib, f) == (Strip(package), lib.lower(Strip(advisory)))
    requires FindingSeverity(lib, f) == lib.lower(Strip(severity))
    ensures Excuses(lib, e, package, advisory, severity, today) <==>
            && ExceptionKey(lib, e) == FindingKey(lib, f) && ExpiresOn(lib, e).value >= today
            && (ExceptionSeverity(lib, e) == "" || ExceptionSeverity(lib, e) == FindingSeverity(lib, f))
  {
    UsableIsWellFormed(lib, e);
  }

  /** In a valid list, one exception answers for both the date and the severity. */
  lemma OneExceptionExcuses(lib: Library, es: seq<Fields>, f: Finding, package: string, advisory: string, severity: string, today: int)
    requires ExceptionsValid(lib, es) && FindingKey(lib, f) == (Strip(package), lib.lower(Strip(advisory)))
    requires FindingSeverity(lib, f) == lib.lower(Strip(severity))
    ensures Excused(lib, es, today, f) && SeverityAgrees(lib, es, f) <==>
            exists e :: e in es && Excuses(lib, e, package, advisory, severity, today)
  {
    OnlyOneSubject(lib, es, f);
    if Excused(lib, es, today, f) && SeverityAgrees(lib, es, f) {
      var e :| e in es && ExceptionKey(lib, e) == FindingKey(lib, f) && ExpiresOn(lib, e).Some? && ExpiresOn(lib, e).value >= today;
      ExcusesByKey(lib, e, f, package, advisory, severity, today);
    }
    if e :| e in es && Excuses(lib, e, package, advisory, severity, today) {
      ExcusesByKey(lib, e, f, package, advisory, severity, today);
    }
  }

  lemma FirstOfOne(lib: Library, es: seq<Fields>, f: Finding)
    ensures FirstsAgree(lib, es, [f]) <==> (Relevant(lib, f) ==> SeverityAgrees(lib, es, f))
  {
    assert FirstOfKey(lib, [f], 0) <==> Relevant(lib, f);
    assert forall i: nat :: FirstOfKey(lib, [f], i) ==> i == 0;
  }

  /** A finding without a name, or of any other severity, wherever it stands, changes no verdict. */
  lemma OthersAreSkipped(lib: Library, es: seq<Fields>, before: seq<Finding>, f: Finding, after: seq<Finding>, severity: string, today: int)
    requires ReadsSeverity(f.severity, severity) && (!Truthy(f.name) || !Serious(lib, severity))
    ensures Passes(lib, es, before + [f] + after, today) <==> Passes(lib, es, before + after, today)
  {
    var all, rest, n := before + [f] + after, before + after, |before|;
    assert !Relevant(lib, f) && all[n] == f;
    assert forall g :: g in all <==> g in rest || g == f;
    PassesByPosition(lib, es, all, today);
    PassesByPosition(lib, es, rest, today);
    forall j: nat | j < |rest| ensures FindingPasses(lib, es, all, today, Shifted(n, j)) <==> FindingPasses(lib, es, rest, today, j) {
      FirstStaysFirst(lib, before, f, after, j);
    }
    assert FindingPasses(lib, es, all, today, n);
    if forall j :: 0 <= j < |all| ==> FindingPasses(lib, es, all, today, j) {
      forall j: nat | j < |rest| ensures FindingPasses(lib, es, rest, today, j) {
        assert FindingPasses(lib, es, all, today, Shifted(n, j));
      }
    }
    if forall j :: 0 <= j < |rest| ==> FindingPasses(lib, es, rest, today, j) {
      forall i: nat | i < |all| && i != n ensures FindingPasses(lib, es, all, today, i) {
        assert i == Shifted(n, if i < n then i else i - 1);
      }
    }
  }

  /** Where a finding moves when another is put in at `n`. */
  function Shifted(n: nat, j: nat): nat {
    if j < n then j else j + 1
  }

  lemma FirstStaysFirst(lib: Library, before: seq<Finding>, f: Finding, after: seq<Finding>, j: nat)
    requires !Relevant(lib, f) && j < |before + after|
    ensures var i, all := Shifted(|before|, j), before + [f] + after;
            && i < |all| && all[i] == (before + after)[j]
            && (FirstOfKey(lib, all, i) <==> FirstOfKey(lib, before + after, j))
  {
    var n, all, rest := |before|, before + [f] + after, before + after;
    assert forall k: nat :: k < |rest| ==> all[Shifted(n, k)] == rest[k];
    assert forall k: nat :: k < |all| && k != n ==> all[k] == rest[if k < n then k else k - 1];
    if FirstOfKey(lib, all, Shifted(n, j)) {
      forall k | 0 <= k < j && Relevant(lib, rest[k]) ensures FindingKey(lib, rest[k]) != FindingKey(lib, rest[j]) {
        assert all[Shifted(n, k)] == rest[k];
      }
    }
  }

  /** In a valid list, the exceptions with a finding's key are one. */
  lemma OnlyOneSubject(lib: Library, es: seq<Fields>, f: Finding)
    requires ExceptionsValid(lib, es)
    ensures forall d, e :: d in es && e in es && ExceptionKey(lib, d) == FindingKey(lib, f) == ExceptionKey(lib, e) ==> d == e
  {
    forall d, e | d in es && e in es && ExceptionKey(lib, d) == FindingKey(lib, f) == ExceptionKey(lib, e) ensures d == e {
      var i :| 0 <= i < |es| && es[i] == d;
      var j :| 0 <= j < |es| && es[j] == e;
      assert i == j;
    }
  }

  /** A report with one entry in one of its two parts. */
  function Report(part: string, id: string, m: seq<Member>): Json {
    Object([Member(part, Object([Member(id, Object(m))]))])
  }

  lemma OneMember(key: string, v: Json, other: string)
    requires key != other
    ensures Get([Member(key, v)], key) == v && Get([Member(key, v)], other) == Null
  {
    MissingKeys(key, v);
    FindLast([], key, v);
    assert [] + [Member(key, v)] == [Member(key, v)];
  }

  lemma PartsOf(part: string, other: string, id: string, m: seq<Member>)
    requires part != other
    ensures MembersOf(Report(part, id, m).members, part) == [Member(id, Object(m))]
    ensures MembersOf(Report(part, id, m).members, other) == []
  {
    OneMember(part, Object([Member(id, Object(m))]), other);
  }

  /** Walking one advisory raises exactly for an odd `cves` that is needed, or a severity that is given but is no text. */
  lemma OneAdvisoryRaises(lib: Library, id: string, m: seq<Member>)
    ensures WalkRaises(lib, Report("advisories", id, m)) <==> OddCves(m) || (Truthy(Get(m, "severity")) && !Get(m, "severity").Str?)
  {
    var report := Report("advisories", id, m);
    PartsOf("advisories", "vulnerabilities", id, m);
    AdvisoryIdIsTheBestGiven(lib, m);
    if OddCves(m) {
      assert AdvisoryFinding(lib, MembersOf(report.members, "advisories")[0].value).Err?;
    } else {
      var f := AdvisoryFinding(lib, Object(m)).value;
      assert AllFindings(lib, report) == [f];
      assert AllFindings(lib, report)[0] == f && f.severity == Get(m, "severity");
    }
  }

  /**
    Exactly when a report with one advisory is accepted: it is judged by the best name and the best identifier
    given, and by its severity.
   */
  lemma OneAdvisoryIsJudged(lib: Library, lines: seq<string>, id: string, m: seq<Member>, package: string, advisory: string, severity: string, today: int)
    requires ReadsSeverity(Get(m, "severity"), severity) && !OddCves(m)
    requires exists v :: Truthy(v) && IsFirstGiven(v, [Get(m, "module_name"), Get(m, "name")]) && Reads(lib, v, package)
    requires exists v :: IsFirstGiven(v, Identifiers(lib, m)) && Reads(lib, v, advisory)
    ensures Accepts(lib, lines, Report("advisories", id, m), today) <==> AcceptsOne(lib, lines, package, advisory, severity, today)
  {
    var report := Report("advisories", id, m);
    PartsOf("advisories", "vulnerabilities", id, m);
    OneAdvisoryRaises(lib, id, m);
    AdvisoryIdIsTheBestGiven(lib, m);
    AdvisoryFindingIsTheBestGiven(lib, m);
    var f := AdvisoryFinding(lib, Object(m)).value;
    assert AllFindings(lib, report) == [f];
    var v :| Truthy(v) && IsFirstGiven(v, [Get(m, "module_name"), Get(m, "name")]) && Reads(lib, v, package);
    FirstGivenIsUnique(v, f.name, [Get(m, "module_name"), Get(m, "name")]);
    var w :| IsFirstGiven(w, Identifiers(lib, m)) && Reads(lib, w, advisory);
    FirstGivenIsUnique(w, f.advisory, Identifiers(lib, m));
    OneFindingPasses(lib, Overlays(Structure(lines).records), f, package, advisory, severity, today);
  }

  lemma FirstGivenIsUnique(r: Json, r': Json, vs: seq<Json>)
    requires IsFirstGiven(r, vs) && IsFirstGiven(r', vs)
    ensures r == r'
  {
    if (exists k :: 0 <= k < |vs| && r == vs[k] && IsFirstTruthy(vs, k)) && exists k :: 0 <= k < |vs| && r' == vs[k] && IsFirstTruthy(vs, k) {
      var i :| 0 <= i < |vs| && r == vs[i] && IsFirstTruthy(vs, i);
      var j :| 0 <= j < |vs| && r' == vs[j] && IsFirstTruthy(vs, j);
      assert i == j;
    }
  }

  /**
    An advisory with a GHSA id, and perhaps anything else such as a url, is judged by its package, that id and
    its severity.
   */
  lemma OneAdvisoryVerdict(lib: Library, lines: seq<string>, id: string, m: seq<Member>, package: string, ghsa: string, severity: string, today: int)
    requires Get(m, "module_name") == Str(package) && package != "" && Get(m, "github_advisory_id") == Str(ghsa) && ghsa != ""
    requires ReadsSeverity(Get(m, "severity"), severity)
    ensures Accepts(lib, lines, Report("advisories", id, m), today) <==> AcceptsOne(lib, lines, package, ghsa, severity, today)
  {
    var names, ids := [Get(m, "module_name"), Get(m, "name")], Identifiers(lib, m);
    assert IsFirstGiven(Str(package), names) by { assert IsFirstTruthy(names, 0); }
    assert IsFirstGiven(Str(ghsa), ids) by { assert IsFirstTruthy(ids, 0); }
    assert Reads(lib, Str(package), package) && Reads(lib, Str(ghsa), ghsa);
    OneAdvisoryIsJudged(lib, lines, id, m, package, ghsa, severity, today);
  }

  /** The same for one vulnerability with one item: the best identifier given to the item decides. */
  lemma OneVulnerabilityVerdict(lib: Library, lines: seq<string>, package: string, m: seq<Member>, item: Json, advisory: string, severity: string, today: int)
    requires package != "" && Find(m, "via") == Some(List([item])) && ReadsSeverity(Get(m, "severity"), severity)
    requires !BadTitle(item) && Truthy(ItemID(item)) && Reads(lib, ItemID(item), advisory)
    ensures Accepts(lib, lines, Report("vulnerabilities", package, m), today) <==> AcceptsOne(lib, lines, package, advisory, severity, today)
  {
    var report, entries := Report("vulnerabilities", package, m), [Member(package, Object(m))];
    PartsOf("vulnerabilities", "advisories", package, m);
    assert ItemsOf(m) == [item] && [item][..0] == [] && entries[..0] == [];
    AnyBadTitleIsAny([item]);
    AnyRaisesIsAny(entries);
    assert [item][0] == item && entries[0].value == Object(m) && !Raises(Object(m));
    var title := Str(JoinedTitles([item]));
    OneItemOneFinding(package, Get(m, "severity"), title, item);
    var f := Finding(Str(package), Get(m, "severity"), ItemID(item), title);
    assert VulnerabilityFindings(entries) == [f];
    assert AllFindings(lib, report) == [f];
    OneFindingPasses(lib, Overlays(Structure(lines).records), f, package, advisory, severity, today);
  }

  /** `via` is a list of items or one textual item; anything else, and nothing, gives no items. */
  lemma ItemsAreWhatViaHolds(m: seq<Member>)
    ensures Find(m, "via") == None ==> ItemsOf(m) == []
    ensures forall v :: Find(m, "via") == Some(v) ==> (if v.List? then ItemsOf(m) == v.items else if v.Str? then ItemsOf(m) == [v] else ItemsOf(m) == [])
  {
  }
}
