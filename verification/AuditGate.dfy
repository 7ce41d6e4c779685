/** `check_pnpm_audit_exceptions`: findings of an audit report, and the decision whether all are excused. */
module AuditGate {
  import opened Prelude
  import opened PythonText
  import opened ExceptionParser

  /** A decoded JSON value; an object's members have distinct keys. */
  datatype Json =
    | Null | Bool(b: bool) | Num(n: int) | Float(r: real) | Str(s: string) | List(items: seq<Json>) | Object(members: seq<Member>)

  datatype Member = Member(key: string, value: Json)

  predicate Truthy(v: Json) {
    match v
    case Null => false
    case Bool(b) => b
    case Num(n) => n != 0
    case Float(r) => r != 0.0
    case Str(s) => s != ""
    case List(items) => items != []
    case Object(members) => members != []
  }

  /** Python's `a or b`. */
  function Or(a: Json, b: Json): Json {
    if Truthy(a) then a else b
  }

  function Find(members: seq<Member>, key: string): Option<Json> {
    if members == [] then None
    else if members[|members|-1].key == key then Some(members[|members|-1].value)
    else Find(members[..|members|-1], key)
  }

  /** `get`: a missing key gives None. */
  function Get(members: seq<Member>, key: string): Json {
    match Find(members, key) case Some(v) => v case None => Null
  }

  /** Library functions used but not modelled: `str` of a value that is no text, `lower`, and `date.fromisoformat`. */
  datatype Library = Library(show: Json -> string, lower: string -> string, fromIso: string -> Option<int>)

  function AsText(lib: Library, v: Json): string {
    if v.Str? then v.s else lib.show(v)
  }

  // ---------- Findings ----------

  datatype Finding = Finding(name: Json, severity: Json, advisory: Json, title: Json)

  /**
    What stops the walk: an entry that is not an object has no `get`; the first of `cves` may not exist; a title
    that is not text cannot be joined.
   */
  datatype ReportError = NotAnObject | NoFirstCve | TitleNotText(name: string) | SeverityNotText

  /** `(advisory.get("cves") or [None])[0]`. */
  function FirstCve(cves: Json): Result<Json, ReportError> {
    if !Truthy(cves) then Ok(Null)
    else
      match cves
      case List(items) => Ok(items[0])
      case Str(s) => Ok(Str([s[0]]))
      case _ => Err(NoFirstCve)
  }

  function PickAdvisoryID(lib: Library, a: seq<Member>): Result<Json, ReportError> {
    var stable := Or(Get(a, "github_advisory_id"), Get(a, "url"));
    if Truthy(stable) then Ok(stable)
    else
      match FirstCve(Get(a, "cves"))
      case Err(e) => Err(e)
      case Ok(cve) =>
        var id := if Get(a, "id") != Null then Str(AsText(lib, Get(a, "id"))) else Null;
        Ok(Or(cve, Or(id, Or(Get(a, "title"), Or(Get(a, "advisory"), Get(a, "overview"))))))
  }

  /** The finding of one entry of `advisories`. */
  function AdvisoryFinding(lib: Library, entry: Json): Result<Finding, ReportError> {
    if !entry.Object? then Err(NotAnObject)
    else
      var a := entry.members;
      match PickAdvisoryID(lib, a)
      case Err(e) => Err(e)
      case Ok(id) =>
        var title := Or(Get(a, "title"), Or(Get(a, "advisory"), Or(Get(a, "overview"), Get(a, "url"))));
        Ok(Finding(Or(Get(a, "module_name"), Get(a, "name")), Get(a, "severity"), id, title))
  }

  function ItemID(item: Json): Json {
    match item
    case Object(m) => Or(Get(m, "github_advisory_id"), Or(Get(m, "url"), Or(Get(m, "source"), Or(Get(m, "title"), Get(m, "name")))))
    case Str(_) => item
    case _ => Null
  }

  function ItemTitle(item: Json): Json {
    match item
    case Object(m) => Or(Get(m, "title"), Or(Get(m, "url"), Or(Get(m, "advisory"), Get(m, "source"))))
    case Str(_) => item
    case _ => Null
  }

  function ItemsOf(v: seq<Member>): seq<Json> {
    match Find(v, "via")
    case Some(List(items)) => items
    case Some(Str(s)) => [Str(s)]
    case _ => []
  }

  predicate BadTitle(item: Json) {
    Truthy(ItemTitle(item)) && !ItemTitle(item).Str?
  }

  /** The titles that are text, joined by "; ". */
  function JoinedTitles(items: seq<Json>): string {
    if items == [] then ""
    else
      var before, last := JoinedTitles(items[..|items|-1]), ItemTitle(items[|items|-1]);
      if !Truthy(last) || !last.Str? then before else if before == "" then last.s else before + "; " + last.s
  }

  predicate AnyBadTitle(items: seq<Json>) {
    items != [] && (AnyBadTitle(items[..|items|-1]) || BadTitle(items[|items|-1]))
  }

  /** An entry of `vulnerabilities` that cannot be walked. */
  predicate Raises(entry: Json) {
    !entry.Object? || AnyBadTitle(ItemsOf(entry.members))
  }

  predicate AnyRaises(entries: seq<Member>) {
    entries != [] && (AnyRaises(entries[..|entries|-1]) || Raises(entries[|entries|-1].value))
  }

  /** Some entry raises, wherever it stands. */
  lemma {:induction false} AnyRaisesIsAny(entries: seq<Member>)
    ensures AnyRaises(entries) <==> exists k :: 0 <= k < |entries| && Raises(entries[k].value)
  {
    if entries != [] {
      var before := entries[..|entries|-1];
      AnyRaisesIsAny(before);
      assert forall k :: 0 <= k < |before| ==> before[k] == entries[k];
    }
  }

  /** Some title is bad, wherever it stands. */
  lemma {:induction false} AnyBadTitleIsAny(items: seq<Json>)
    ensures AnyBadTitle(items) <==> exists k :: 0 <= k < |items| && BadTitle(items[k])
  {
    if items != [] {
      var before := items[..|items|-1];
      AnyBadTitleIsAny(before);
      assert forall k :: 0 <= k < |before| ==> before[k] == items[k];
    }
  }

  /** The findings of an entry: one per advisory id that is not empty. */
  function FindingsOf(name: string, severity: Json, title: Json, items: seq<Json>): seq<Finding> {
    if items == [] then []
    else
      var id := ItemID(items[|items|-1]);
      FindingsOf(name, severity, title, items[..|items|-1]) + if Truthy(id) then [Finding(Str(name), severity, id, title)] else []
  }

  function EntryFindings(name: string, entry: Json): seq<Finding>
    requires entry.Object?
  {
    var items := ItemsOf(entry.members);
    FindingsOf(name, Get(entry.members, "severity"), Str(JoinedTitles(items)), items)
  }

  function MembersOf(report: seq<Member>, key: string): seq<Member> {
    match Get(report, key) case Object(members) => members case _ => []
  }

  ghost predicate ReportRaises(lib: Library, report: Json) {
    || !report.Object?
    || (exists k :: 0 <= k < |MembersOf(report.members, "advisories")|
                    && AdvisoryFinding(lib, MembersOf(report.members, "advisories")[k].value).Err?)
    || AnyRaises(MembersOf(report.members, "vulnerabilities"))
  }

  ghost function AdvisoryFindings(lib: Library, entries: seq<Member>): seq<Finding>
    requires forall k :: 0 <= k < |entries| ==> AdvisoryFinding(lib, entries[k].value).Ok?
  {
    seq(|entries|, k requires 0 <= k < |entries| => AdvisoryFinding(lib, entries[k].value).value)
  }

  function VulnerabilityFindings(entries: seq<Member>): seq<Finding> {
    if entries == [] then []
    else
      var last := entries[|entries|-1];
      VulnerabilityFindings(entries[..|entries|-1]) + if last.value.Object? then EntryFindings(last.key, last.value) else []
  }

  ghost function AllFindings(lib: Library, report: Json): seq<Finding>
    requires !ReportRaises(lib, report)
  {
    AdvisoryFindings(lib, MembersOf(report.members, "advisories")) + VulnerabilityFindings(MembersOf(report.members, "vulnerabilities"))
  }

  method IterVulns(lib: Library, report: Json) returns (r: Result<seq<Finding>, ReportError>)
    ensures r.Err? <==> ReportRaises(lib, report)
    ensures r.Ok? ==> r.value == AllFindings(lib, report)
  {
    if !report.Object? {
      return Err(NotAnObject);
    }
    var first := IterAdvisories(lib, MembersOf(report.members, "advisories"));
    if first.Err? {
      return first;
    }
    var second := IterEntries(MembersOf(report.members, "vulnerabilities"));
    if second.Err? {
      return second;
    }
    r := Ok(first.value + second.value);
  }

  /** The `advisories` object. */
  method IterAdvisories(lib: Library, entries: seq<Member>) returns (r: Result<seq<Finding>, ReportError>)
    ensures r.Err? <==> exists k :: 0 <= k < |entries| && AdvisoryFinding(lib, entries[k].value).Err?
    ensures r.Ok? ==> r.value == AdvisoryFindings(lib, entries)
  {
    var found: seq<Finding> := [];
    for i := 0 to |entries|
      invariant |found| == i && forall k :: 0 <= k < i ==> AdvisoryFinding(lib, entries[k].value) == Ok(found[k])
    {
      var one := AdvisoryFinding(lib, entries[i].value);
      if one.Err? {
        return Err(one.error);
      }
      found := found + [one.value];
    }
    r := Ok(found);
  }

  /** The `vulnerabilities` object. */
  method IterEntries(entries: seq<Member>) returns (r: Result<seq<Finding>, ReportError>)
    ensures r.Err? <==> AnyRaises(entries)
    ensures r.Ok? ==> r.value == VulnerabilityFindings(entries)
  {
    var found: seq<Finding> := [];
    for i := 0 to |entries|
      invariant !AnyRaises(entries[..i])
      invariant found == VulnerabilityFindings(entries[..i])
    {
      var one := IterVuln(entries[i].key, entries[i].value);
      if one.Err? {
        AnyRaisesIsAny(entries);
        return Err(one.error);
      }
      FindingsExtend(entries, i);
      found := found + one.value;
    }
    assert entries[..|entries|] == entries;
    r := Ok(found);
  }

  lemma FindingsExtend(entries: seq<Member>, i: nat)
    requires i < |entries| && entries[i].value.Object?
    ensures VulnerabilityFindings(entries[..i+1]) == VulnerabilityFindings(entries[..i]) + EntryFindings(entries[i].key, entries[i].value)
    ensures AnyRaises(entries[..i+1]) <==> AnyRaises(entries[..i]) || Raises(entries[i].value)
  {
    assert entries[..i+1][..i] == entries[..i];
  }

  /** One entry of the `vulnerabilities` object: its titles are joined before its findings are given out. */
  method IterVuln(name: string, entry: Json) returns (r: Result<seq<Finding>, ReportError>)
    ensures r.Err? <==> Raises(entry)
    ensures r.Ok? ==> r.value == EntryFindings(name, entry)
  {
    if !entry.Object? {
      return Err(NotAnObject);
    }
    var items, titles := ItemsOf(entry.members), "";
    for k := 0 to |items|
      invariant !AnyBadTitle(items[..k])
      invariant titles == JoinedTitles(items[..k])
    {
      assert items[..k+1][..k] == items[..k];
      var title := ItemTitle(items[k]);
      if Truthy(title) {
        if !title.Str? {
          AnyBadTitleIsAny(items);
          return Err(TitleNotText(name));
        }
        titles := if titles == "" then title.s else titles + "; " + title.s;
      }
    }
    assert items[..|items|] == items;
    var found := GiveOut(name, Get(entry.members, "severity"), Str(titles), items);
    r := Ok(found);
  }

  method GiveOut(name: string, severity: Json, title: Json, items: seq<Json>) returns (found: seq<Finding>)
    ensures found == FindingsOf(name, severity, title, items)
  {
    found := [];
    for k := 0 to |items|
      invariant found == FindingsOf(name, severity, title, items[..k])
    {
      assert items[..k+1][..k] == items[..k];
      if Truthy(ItemID(items[k])) {
        found := found + [Finding(Str(name), severity, ItemID(items[k]), title)];
      }
    }
    assert items[..|items|] == items;
  }

  /** A vulnerability whose only title is the number of its source. */
  function NumericSource(): Json {
    Object([Member("severity", Str("high")), Member("via", List([Object([Member("source", Num(7))])]))])
  }

  function NumericSourceReport(): Json {
    Object([Member("vulnerabilities", Object([Member("p", NumericSource())]))])
  }

  lemma NumericSourceHasBadTitle()
    ensures Raises(NumericSource())
  {
    var item := Object([Member("source", Num(7))]);
    FindLast([], "source", Num(7));
    MissingKeys("source", Num(7));
    assert [] + [Member("source", Num(7))] == item.members;
    assert BadTitle(item) && [item][..0] == [];
    FindLast([Member("severity", Str("high"))], "via", List([item]));
    assert [Member("severity", Str("high"))] + [Member("via", List([item]))] == NumericSource().members;
    assert ItemsOf(NumericSource().members) == [item];
  }

  /** Joining the titles raises TypeError, whatever else the report holds. */
  lemma NumericSourceRaises(lib: Library)
    ensures ReportRaises(lib, NumericSourceReport())
  {
    var entries, top := [Member("p", NumericSource())], NumericSourceReport().members;
    NumericSourceHasBadTitle();
    FindLast([], "vulnerabilities", Object(entries));
    assert [] + [Member("vulnerabilities", Object(entries))] == top;
    assert MembersOf(top, "vulnerabilities") == entries && entries[..0] == [];
  }

  lemma FindLast(members: seq<Member>, key: string, v: Json)
    ensures Find(members + [Member(key, v)], key) == Some(v)
  {
  }

  lemma MissingKeys(key: string, v: Json)
    ensures forall k :: k != key ==> Find([Member(key, v)], k) == None
  {
    assert [Member(key, v)][..0] == [];
  }

  // ---------- Normalised keys ----------

  /** `(severity or "").strip()` needs text, or nothing. */
  predicate BadSeverity(f: Finding) {
    Truthy(f.severity) && !f.severity.Str?
  }

  function NormalizeSeverity(lib: Library, severity: Json): string {
    lib.lower(Strip(if severity.Str? then severity.s else ""))
  }

  function NormalizePackage(lib: Library, name: Json): string {
    if name == Null then "" else Strip(AsText(lib, name))
  }

  function NormalizeAdvisory(lib: Library, advisory: Json): string {
    if advisory == Null then "" else lib.lower(Strip(AsText(lib, advisory)))
  }

  type Key = (string, string)

  predicate Given(e: Fields, field: string) {
    field in e && e[field] != ""
  }

  predicate Complete(e: Fields) {
    Given(e, "package") && Given(e, "advisory") && Given(e, "severity") && Given(e, "mitigation") && Given(e, "expires_on")
  }

  function TextOf(e: Fields, field: string): Json {
    if field in e then Str(e[field]) else Null
  }

  function ExceptionKey(lib: Library, e: Fields): Key {
    (NormalizePackage(lib, TextOf(e, "package")), NormalizeAdvisory(lib, TextOf(e, "advisory")))
  }

  function ExceptionSeverity(lib: Library, e: Fields): string {
    NormalizeSeverity(lib, TextOf(e, "severity"))
  }

  function ExpiresOn(lib: Library, e: Fields): Option<int> {
    if "expires_on" in e then lib.fromIso(e["expires_on"]) else None
  }

  /** An exception the index accepts, unless its key is taken. */
  predicate Usable(lib: Library, e: Fields) {
    Complete(e) && ExpiresOn(lib, e).Some? && ExceptionKey(lib, e).0 != "" && ExceptionKey(lib, e).1 != ""
  }

  function FindingKey(lib: Library, f: Finding): Key {
    (NormalizePackage(lib, f.name), NormalizeAdvisory(lib, f.advisory))
  }

  function FindingSeverity(lib: Library, f: Finding): string {
    NormalizeSeverity(lib, f.severity)
  }

  /** A named finding of high or critical severity; all others are skipped. */
  predicate Relevant(lib: Library, f: Finding) {
    (FindingSeverity(lib, f) == "high" || FindingSeverity(lib, f) == "critical") && Truthy(f.name)
  }

  // ---------- The specification of the exit code ----------

  ghost predicate DistinctKeys(lib: Library, exceptions: seq<Fields>) {
    forall i, j :: 0 <= i < j < |exceptions| ==> ExceptionKey(lib, exceptions[i]) != ExceptionKey(lib, exceptions[j])
  }

  ghost predicate ExceptionsValid(lib: Library, exceptions: seq<Fields>) {
    (forall e :: e in exceptions ==> Usable(lib, e)) && DistinctKeys(lib, exceptions)
  }

  /** Some exception with the finding's key has not expired. */
  ghost predicate Excused(lib: Library, exceptions: seq<Fields>, today: int, f: Finding) {
    exists e :: e in exceptions && ExceptionKey(lib, e) == FindingKey(lib, f) && ExpiresOn(lib, e).Some? && ExpiresOn(lib, e).value >= today
  }

  ghost predicate Covered(lib: Library, exceptions: seq<Fields>, today: int, f: Finding) {
    Relevant(lib, f) ==> FindingKey(lib, f).1 != "" && Excused(lib, exceptions, today, f)
  }

  /** The exception for the finding's key states its severity, or none. */
  ghost predicate SeverityAgrees(lib: Library, exceptions: seq<Fields>, f: Finding) {
    forall e :: e in exceptions && ExceptionKey(lib, e) == FindingKey(lib, f) ==>
      ExceptionSeverity(lib, e) == "" || ExceptionSeverity(lib, e) == FindingSeverity(lib, f)
  }

  /** The first relevant finding of its key. */
  ghost predicate FirstOfKey(lib: Library, findings: seq<Finding>, i: nat) {
    && i < |findings| && Relevant(lib, findings[i])
    && forall j :: 0 <= j < i && Relevant(lib, findings[j]) ==> FindingKey(lib, findings[j]) != FindingKey(lib, findings[i])
  }

  ghost predicate AllCovered(lib: Library, exceptions: seq<Fields>, findings: seq<Finding>, today: int) {
    forall f :: f in findings ==> Covered(lib, exceptions, today, f)
  }

  ghost predicate FirstsAgree(lib: Library, exceptions: seq<Fields>, findings: seq<Finding>) {
    forall i: nat :: FirstOfKey(lib, findings, i) ==> SeverityAgrees(lib, exceptions, findings[i])
  }

  ghost predicate Passes(lib: Library, exceptions: seq<Fields>, findings: seq<Finding>, today: int) {
    && ExceptionsValid(lib, exceptions)
    && AllCovered(lib, exceptions, findings, today)
    && FirstsAgree(lib, exceptions, findings)
  }

  // ---------- The decision ----------

  datatype IndexEntry = IndexEntry(severity: string, expiresOn: int)

  datatype Problem =
    | MissingFields | InvalidDate | BlankKey | Duplicate(key: Key)
    | NoAdvisory | SeverityMismatch(key: Key) | NoException(key: Key) | Expired(key: Key)

  /** The index holds exactly the given exceptions. */
  ghost predicate IndexMatches(lib: Library, index: map<Key, IndexEntry>, exceptions: seq<Fields>) {
    && (forall e :: e in exceptions ==>
          ExceptionKey(lib, e) in index && ExpiresOn(lib, e).Some?
          && index[ExceptionKey(lib, e)] == IndexEntry(ExceptionSeverity(lib, e), ExpiresOn(lib, e).value))
    && (forall k :: k in index ==> exists e :: e in exceptions && ExceptionKey(lib, e) == k)
  }

  method BuildIndex(lib: Library, exceptions: seq<Fields>) returns (index: map<Key, IndexEntry>, errors: seq<Problem>)
    ensures index == IndexOf(lib, exceptions) && errors == IndexErrors(lib, exceptions)
    ensures errors == [] <==> ExceptionsValid(lib, exceptions)
    ensures errors == [] ==> IndexMatches(lib, index, exceptions)
  {
    index, errors := map[], [];
    for i := 0 to |exceptions|
      invariant Indexed(lib, exceptions[..i], index, errors)
    {
      assert exceptions[..i+1] == exceptions[..i] + [exceptions[i]];
      index, errors := Enter(lib, exceptions[..i], exceptions[i], index, errors);
    }
    assert exceptions[..|exceptions|] == exceptions;
    NoErrorsIsValid(lib, exceptions);
  }

  predicate Indexed(lib: Library, exceptions: seq<Fields>, index: map<Key, IndexEntry>, errors: seq<Problem>) {
    index == IndexOf(lib, exceptions) && errors == IndexErrors(lib, exceptions)
  }

  /** The body of the loop over exceptions. */
  method Enter(lib: Library, ghost before: seq<Fields>, exc: Fields, index: map<Key, IndexEntry>, errors: seq<Problem>)
    returns (index': map<Key, IndexEntry>, errors': seq<Problem>)
    requires Indexed(lib, before, index, errors)
    ensures Indexed(lib, before + [exc], index', errors')
  {
    OneMoreException(lib, before, exc);
    index', errors' := index, errors;
    var problem := ProblemWith(lib, index, exc);
    if problem.Some? {
      errors' := errors + [problem.value];
    } else {
      index' := index[ExceptionKey(lib, exc) := EntryOf(lib, exc)];
    }
  }

  lemma OneMoreException(lib: Library, before: seq<Fields>, exc: Fields)
    ensures var problem := ProblemWith(lib, IndexOf(lib, before), exc);
            && IndexOf(lib, before + [exc]) ==
               (if problem == None then IndexOf(lib, before)[ExceptionKey(lib, exc) := EntryOf(lib, exc)] else IndexOf(lib, before))
            && IndexErrors(lib, before + [exc]) == IndexErrors(lib, before) + (if problem.Some? then [problem.value] else [])
  {
    assert (before + [exc])[..|before|] == before;
  }

  lemma {:induction false} NoErrorsIsValid(lib: Library, exceptions: seq<Fields>)
    ensures IndexErrors(lib, exceptions) == [] <==> ExceptionsValid(lib, exceptions)
    ensures IndexErrors(lib, exceptions) == [] ==> IndexMatches(lib, IndexOf(lib, exceptions), exceptions)
  {
    if exceptions != [] {
      var before, exc := exceptions[..|exceptions|-1], exceptions[|exceptions|-1];
      assert exceptions == before + [exc];
      NoErrorsIsValid(lib, before);
      OneMoreException(lib, before, exc);
      ValidExtend(lib, before, exc);
      if IndexErrors(lib, before) == [] {
        KeyIsIndexed(lib, IndexOf(lib, before), before, exc);
        if ProblemWith(lib, IndexOf(lib, before), exc) == None { IndexExtend(lib, IndexOf(lib, before), before, exc); }
      }
    }
  }

  /** What the loop over exceptions records against one of them. */
  function ProblemWith(lib: Library, index: map<Key, IndexEntry>, exc: Fields): (r: Option<Problem>)
    ensures r == None <==> Usable(lib, exc) && ExceptionKey(lib, exc) !in index
  {
    var key := ExceptionKey(lib, exc);
    if !Complete(exc) then Some(MissingFields)
    else if ExpiresOn(lib, exc).None? then Some(InvalidDate)
    else if key.0 == "" || key.1 == "" then Some(BlankKey)
    else if key in index then Some(Duplicate(key))
    else None
  }

  /** The index after the loop: an exception without a problem is entered. */
  function IndexOf(lib: Library, exceptions: seq<Fields>): map<Key, IndexEntry> {
    if exceptions == [] then map[]
    else
      var before, exc := IndexOf(lib, exceptions[..|exceptions|-1]), exceptions[|exceptions|-1];
      if ProblemWith(lib, before, exc) == None then before[ExceptionKey(lib, exc) := EntryOf(lib, exc)] else before
  }

  /** The errors after the loop. */
  function IndexErrors(lib: Library, exceptions: seq<Fields>): seq<Problem> {
    if exceptions == [] then []
    else
      var before, exc := exceptions[..|exceptions|-1], exceptions[|exceptions|-1];
      var problem := ProblemWith(lib, IndexOf(lib, before), exc);
      IndexErrors(lib, before) + if problem.Some? then [problem.value] else []
  }

  function EntryOf(lib: Library, exc: Fields): IndexEntry
    requires ExpiresOn(lib, exc).Some?
  {
    IndexEntry(ExceptionSeverity(lib, exc), ExpiresOn(lib, exc).value)
  }

  lemma KeyIsIndexed(lib: Library, index: map<Key, IndexEntry>, before: seq<Fields>, e: Fields)
    requires IndexMatches(lib, index, before)
    ensures KeyIsNew(lib, before, e) <==> ExceptionKey(lib, e) !in index
  {
    if ExceptionKey(lib, e) in index {
      var d :| d in before && ExceptionKey(lib, d) == ExceptionKey(lib, e);
      var i :| 0 <= i < |before| && before[i] == d;
    }
    forall i | 0 <= i < |before| ensures ExceptionKey(lib, before[i]) in index {
      assert before[i] in before;
    }
  }

  /** No earlier exception has the key of `e`. */
  ghost predicate KeyIsNew(lib: Library, before: seq<Fields>, e: Fields) {
    forall i :: 0 <= i < |before| ==> ExceptionKey(lib, before[i]) != ExceptionKey(lib, e)
  }

  lemma KeysExtend(lib: Library, before: seq<Fields>, e: Fields)
    ensures DistinctKeys(lib, before + [e]) <==> DistinctKeys(lib, before) && KeyIsNew(lib, before, e)
  {
    var all := before + [e];
    assert all[|before|] == e && forall i :: 0 <= i < |before| ==> all[i] == before[i];
  }

  lemma ValidExtend(lib: Library, before: seq<Fields>, e: Fields)
    ensures ExceptionsValid(lib, before + [e]) <==> ExceptionsValid(lib, before) && Usable(lib, e) && KeyIsNew(lib, before, e)
  {
    KeysExtend(lib, before, e);
    assert forall d :: d in before + [e] <==> d in before || d == e;
  }

  lemma IndexExtend(lib: Library, index: map<Key, IndexEntry>, before: seq<Fields>, e: Fields)
    requires ExpiresOn(lib, e).Some? && ExceptionKey(lib, e) !in index
    ensures IndexMatches(lib, index, before) ==>
              IndexMatches(lib, index[ExceptionKey(lib, e) := EntryOf(lib, e)], before + [e])
  {
    if IndexMatches(lib, index, before) {
      var all, index' := before + [e], index[ExceptionKey(lib, e) := EntryOf(lib, e)];
      forall k | k in index' ensures exists d :: d in all && ExceptionKey(lib, d) == k {
        if k in index {
          var d :| d in before && ExceptionKey(lib, d) == k;
          assert d in all;
        } else {
          assert e in all;
        }
      }
    }
  }

  /** What a finding contributes: it is covered, and if it is the first of its key its severity agrees. */
  ghost predicate FindingPasses(lib: Library, exceptions: seq<Fields>, findings: seq<Finding>, today: int, j: nat)
    requires j < |findings|
  {
    && Covered(lib, exceptions, today, findings[j])
    && (FirstOfKey(lib, findings, j) ==> SeverityAgrees(lib, exceptions, findings[j]))
  }

  lemma PassesByPosition(lib: Library, exceptions: seq<Fields>, findings: seq<Finding>, today: int)
    ensures AllCovered(lib, exceptions, findings, today) && FirstsAgree(lib, exceptions, findings) <==>
            forall j :: 0 <= j < |findings| ==> FindingPasses(lib, exceptions, findings, today, j)
  {
    if forall j :: 0 <= j < |findings| ==> FindingPasses(lib, exceptions, findings, today, j) {
      forall f | f in findings ensures Covered(lib, exceptions, today, f) {
        var j :| 0 <= j < |findings| && findings[j] == f;
        assert FindingPasses(lib, exceptions, findings, today, j);
      }
      forall i: nat | FirstOfKey(lib, findings, i) ensures SeverityAgrees(lib, exceptions, findings[i]) {
        assert FindingPasses(lib, exceptions, findings, today, i);
      }
    }
  }

  ghost predicate SeenBefore(lib: Library, findings: seq<Finding>, i: nat, k: Key)
    requires i <= |findings|
  {
    k.1 != "" && exists j :: 0 <= j < i && Relevant(lib, findings[j]) && FindingKey(lib, findings[j]) == k
  }

  /** A repeated key passes if its first occurrence did. */
  lemma RepeatPasses(lib: Library, exceptions: seq<Fields>, findings: seq<Finding>, today: int, i: nat)
    requires i < |findings| && SeenBefore(lib, findings, i, FindingKey(lib, findings[i]))
    requires forall j :: 0 <= j < i ==> FindingPasses(lib, exceptions, findings, today, j)
    ensures FindingPasses(lib, exceptions, findings, today, i)
  {
    var j :| 0 <= j < i && Relevant(lib, findings[j]) && FindingKey(lib, findings[j]) == FindingKey(lib, findings[i]);
    assert FindingPasses(lib, exceptions, findings, today, j);
    var e :| e in exceptions && ExceptionKey(lib, e) == FindingKey(lib, findings[j]) && ExpiresOn(lib, e).Some? && ExpiresOn(lib, e).value >= today;
    assert ExceptionKey(lib, e) == FindingKey(lib, findings[i]);
  }

  /** The index entry decides both questions about a finding. */
  lemma IndexDecides(lib: Library, exceptions: seq<Fields>, index: map<Key, IndexEntry>, today: int, f: Finding)
    requires IndexMatches(lib, index, exceptions)
    ensures var key := FindingKey(lib, f);
            && (Excused(lib, exceptions, today, f) <==> key in index && index[key].expiresOn >= today)
            && (key in index ==>
                  (SeverityAgrees(lib, exceptions, f) <==> index[key].severity == "" || index[key].severity == FindingSeverity(lib, f)))
  {
    var key := FindingKey(lib, f);
    if key in index {
      var e :| e in exceptions && ExceptionKey(lib, e) == key;
      assert index[key] == IndexEntry(ExceptionSeverity(lib, e), ExpiresOn(lib, e).value);
    }
  }

  /** No problem is recorded for a finding, given the index and the keys seen before. */
  predicate Clean(lib: Library, index: map<Key, IndexEntry>, seen: set<Key>, f: Finding, today: int) {
    var key := FindingKey(lib, f);
    !Relevant(lib, f) ||
    (key.1 != "" &&
     (key in seen ||
      (key in index && (index[key].severity == "" || index[key].severity == FindingSeverity(lib, f)) && index[key].expiresOn >= today)))
  }

  function NowSeen(lib: Library, seen: set<Key>, f: Finding): set<Key> {
    if Relevant(lib, f) && FindingKey(lib, f).1 != "" then seen + {FindingKey(lib, f)} else seen
  }

  /** The three lists of problems the loop over findings fills. */
  datatype Problems = Problems(errors: seq<Problem>, missing: seq<Problem>, expired: seq<Problem>) {
    predicate Empty() {
      errors == [] && missing == [] && expired == []
    }

    function With(more: Problems): (all: Problems)
      ensures all.Empty() <==> Empty() && more.Empty()
    {
      Problems(errors + more.errors, missing + more.missing, expired + more.expired)
    }
  }

  const NO_PROBLEMS := Problems([], [], [])

  /** What one finding adds to the three lists, given the index and the keys seen before. */
  function ProblemsOf(lib: Library, index: map<Key, IndexEntry>, seen: set<Key>, f: Finding, today: int): (r: Problems)
    ensures r.Empty() <==> Clean(lib, index, seen, f, today)
  {
    var key := FindingKey(lib, f);
    if !Relevant(lib, f) then NO_PROBLEMS
    else if key.1 == "" then Problems([NoAdvisory], [], [])
    else if key in seen then NO_PROBLEMS
    else if key !in index then Problems([], [NoException(key)], [])
    else
      Problems(if index[key].severity != "" && index[key].severity != FindingSeverity(lib, f) then [SeverityMismatch(key)] else [], [],
               if index[key].expiresOn < today then [Expired(key)] else [])
  }

  /** What each finding adds. */
  function ProblemsOfEach(lib: Library, index: map<Key, IndexEntry>, findings: seq<Finding>, today: int): (r: seq<Problems>)
    ensures |r| == |findings|
  {
    seq(|findings|, j requires 0 <= j < |findings| => ProblemsOf(lib, index, SeenIn(lib, findings, j), findings[j], today))
  }

  function Total(parts: seq<Problems>): Problems {
    if parts == [] then NO_PROBLEMS else Total(parts[..|parts|-1]).With(parts[|parts|-1])
  }

  lemma TotalExtend(parts: seq<Problems>, i: nat)
    requires i < |parts|
    ensures Total(parts[..i+1]) == Total(parts[..i]).With(parts[i])
  {
    assert parts[..i+1][..i] == parts[..i];
  }

  /** Everything the tool reports about an exception list and some findings. */
  function Reported(lib: Library, exceptions: seq<Fields>, findings: seq<Finding>, today: int): Problems {
    Problems(IndexErrors(lib, exceptions), [], []).With(Total(ProblemsOfEach(lib, IndexOf(lib, exceptions), findings, today)))
  }

  /** The body of the loop over findings. */
  method CheckFinding(lib: Library, index: map<Key, IndexEntry>, seen: set<Key>, f: Finding, today: int)
    returns (seen': set<Key>, found: Problems)
    ensures seen' == NowSeen(lib, seen, f)
    ensures found == ProblemsOf(lib, index, seen, f, today)
  {
    seen', found := seen, NO_PROBLEMS;
    if !Relevant(lib, f) {
      return;
    }
    var sev, key := FindingSeverity(lib, f), FindingKey(lib, f);
    if key.1 == "" {
      found := found.(errors := [NoAdvisory]);
      return;
    }
    if key in seen {
      return;
    }
    seen' := seen + {key};
    if key !in index {
      found := found.(missing := [NoException(key)]);
      return;
    }
    var exc := index[key];
    if exc.severity != "" && exc.severity != sev {
      found := found.(errors := [SeverityMismatch(key)]);
    }
    if exc.expiresOn < today {
      found := found.(expired := [Expired(key)]);
    }
  }

  lemma CleanMeansPasses(lib: Library, exceptions: seq<Fields>, index: map<Key, IndexEntry>, seen: set<Key>,
                         findings: seq<Finding>, i: nat, today: int)
    requires i < |findings| && IndexMatches(lib, index, exceptions)
    requires SeenIs(lib, findings, i, seen) && PrefixPasses(lib, exceptions, findings, today, i)
    ensures Clean(lib, index, seen, findings[i], today) <==> FindingPasses(lib, exceptions, findings, today, i)
  {
    var f := findings[i];
    IndexDecides(lib, exceptions, index, today, f);
    if Relevant(lib, f) && FindingKey(lib, f) in seen {
      RepeatPasses(lib, exceptions, findings, today, i);
    }
    SeenStep(lib, findings, i);
  }

  ghost predicate SeenIs(lib: Library, findings: seq<Finding>, i: nat, seen: set<Key>)
    requires i <= |findings|
  {
    forall k :: k in seen <==> SeenBefore(lib, findings, i, k)
  }

  ghost predicate PrefixPasses(lib: Library, exceptions: seq<Fields>, findings: seq<Finding>, today: int, i: nat)
    requires i <= |findings|
  {
    forall j :: 0 <= j < i ==> FindingPasses(lib, exceptions, findings, today, j)
  }

  lemma SeenGrows(lib: Library, findings: seq<Finding>, i: nat, seen: set<Key>)
    requires i < |findings| && SeenIs(lib, findings, i, seen)
    ensures SeenIs(lib, findings, i + 1, NowSeen(lib, seen, findings[i]))
  {
    SeenStep(lib, findings, i);
  }

  method CheckFindings(lib: Library, ghost exceptions: seq<Fields>, index: map<Key, IndexEntry>, findings: seq<Finding>, today: int)
    returns (raised: bool, problems: Problems)
    ensures raised <==> exists k :: 0 <= k < |findings| && BadSeverity(findings[k])
    ensures !raised ==> problems == Total(ProblemsOfEach(lib, index, findings, today))
    ensures !raised && IndexMatches(lib, index, exceptions) ==>
              (problems.Empty() <==> AllCovered(lib, exceptions, findings, today) && FirstsAgree(lib, exceptions, findings))
  {
    raised, problems := WalkFindings(lib, index, findings, today);
    if IndexMatches(lib, index, exceptions) {
      EmptyIsClean(lib, index, findings, today);
      AllCleanPass(lib, exceptions, index, findings, today);
      PassesByPosition(lib, exceptions, findings, today);
    }
  }

  /** The loop over findings. */
  method WalkFindings(lib: Library, index: map<Key, IndexEntry>, findings: seq<Finding>, today: int)
    returns (raised: bool, problems: Problems)
    ensures raised <==> exists k :: 0 <= k < |findings| && BadSeverity(findings[k])
    ensures !raised ==> problems == Total(ProblemsOfEach(lib, index, findings, today))
  {
    raised, problems := false, NO_PROBLEMS;
    var seen: set<Key> := {};
    NothingWalked(lib, index, findings, today);
    for i := 0 to |findings|
      invariant TextUpTo(findings, i)
      invariant WalkedTo(lib, index, findings, i, today, seen, problems)
    {
      if BadSeverity(findings[i]) {
        return true, problems;
      }
      TextExtend(findings, i);
      seen, problems := WalkOne(lib, index, findings, i, today, seen, problems);
    }
    WholeSeq(ProblemsOfEach(lib, index, findings, today));
  }

  /** The state of the loop after some findings. */
  predicate WalkedTo(lib: Library, index: map<Key, IndexEntry>, findings: seq<Finding>, i: nat, today: int, seen: set<Key>, problems: Problems)
    requires i <= |findings|
  {
    seen == SeenIn(lib, findings, i) && problems == Total(ProblemsOfEach(lib, index, findings, today)[..i])
  }

  predicate TextUpTo(findings: seq<Finding>, i: nat)
    requires i <= |findings|
  {
    forall k :: 0 <= k < i ==> !BadSeverity(findings[k])
  }

  lemma TextExtend(findings: seq<Finding>, i: nat)
    requires i < |findings| && TextUpTo(findings, i) && !BadSeverity(findings[i])
    ensures TextUpTo(findings, i + 1)
  {
  }

  lemma NothingWalked(lib: Library, index: map<Key, IndexEntry>, findings: seq<Finding>, today: int)
    ensures WalkedTo(lib, index, findings, 0, today, {}, NO_PROBLEMS)
  {
    assert ProblemsOfEach(lib, index, findings, today)[..0] == [];
  }

  method WalkOne(lib: Library, index: map<Key, IndexEntry>, findings: seq<Finding>, i: nat, today: int, seen: set<Key>, problems: Problems)
    returns (seen': set<Key>, problems': Problems)
    requires i < |findings| && WalkedTo(lib, index, findings, i, today, seen, problems)
    ensures WalkedTo(lib, index, findings, i + 1, today, seen', problems')
  {
    var found;
    seen', found := CheckFinding(lib, index, seen, findings[i], today);
    TotalExtend(ProblemsOfEach(lib, index, findings, today), i);
    problems' := problems.With(found);
  }

  lemma WholeSeq<T>(s: seq<T>)
    ensures s[..|s|] == s
  {
  }

  /** The keys marked as seen after some findings. */
  function SeenIn(lib: Library, findings: seq<Finding>, i: nat): set<Key>
    requires i <= |findings|
  {
    if i == 0 then {} else NowSeen(lib, SeenIn(lib, findings, i - 1), findings[i-1])
  }

  lemma {:induction false} SeenInIsSeen(lib: Library, findings: seq<Finding>, i: nat)
    requires i <= |findings|
    ensures SeenIs(lib, findings, i, SeenIn(lib, findings, i))
  {
    if i > 0 {
      var j := i - 1;
      assert SeenIs(lib, findings, j + 1, NowSeen(lib, SeenIn(lib, findings, j), findings[j])) by {
        SeenInIsSeen(lib, findings, j);
        SeenGrows(lib, findings, j, SeenIn(lib, findings, j));
      }
    }
  }

  /** Nothing is recorded for a finding, given the keys seen before it. */
  predicate CleanAt(lib: Library, index: map<Key, IndexEntry>, findings: seq<Finding>, today: int, j: nat)
    requires j < |findings|
  {
    Clean(lib, index, SeenIn(lib, findings, j), findings[j], today)
  }

  predicate AllClean(lib: Library, index: map<Key, IndexEntry>, findings: seq<Finding>, today: int, i: nat)
    requires i <= |findings|
  {
    forall j :: 0 <= j < i ==> CleanAt(lib, index, findings, today, j)
  }

  lemma CleanAtPasses(lib: Library, exceptions: seq<Fields>, index: map<Key, IndexEntry>, findings: seq<Finding>, j: nat, today: int)
    requires j < |findings| && IndexMatches(lib, index, exceptions) && PrefixPasses(lib, exceptions, findings, today, j)
    ensures CleanAt(lib, index, findings, today, j) <==> FindingPasses(lib, exceptions, findings, today, j)
  {
    SeenInIsSeen(lib, findings, j);
    CleanMeansPasses(lib, exceptions, index, SeenIn(lib, findings, j), findings, j, today);
  }

  /** Two lists of answers that agree wherever all answers of the second before are yes: both are all yes, or neither. */
  lemma {:induction false} Lockstep(p: seq<bool>, q: seq<bool>, n: nat)
    requires n <= |p| == |q| && forall j: nat :: j < |p| && (forall i :: 0 <= i < j ==> q[i]) ==> p[j] == q[j]
    ensures (forall j :: 0 <= j < n ==> p[j]) <==> (forall j :: 0 <= j < n ==> q[j])
  {
    if n > 0 { Lockstep(p, q, n - 1); }
  }

  lemma AllCleanPass(lib: Library, exceptions: seq<Fields>, index: map<Key, IndexEntry>, findings: seq<Finding>, today: int)
    requires IndexMatches(lib, index, exceptions)
    ensures AllClean(lib, index, findings, today, |findings|) <==> PrefixPasses(lib, exceptions, findings, today, |findings|)
  {
    var p := seq(|findings|, j requires 0 <= j < |findings| => CleanAt(lib, index, findings, today, j));
    var q := seq(|findings|, j requires 0 <= j < |findings| => FindingPasses(lib, exceptions, findings, today, j));
    forall j: nat | j < |p| && (forall i :: 0 <= i < j ==> q[i]) ensures p[j] == q[j] {
      assert PrefixPasses(lib, exceptions, findings, today, j) by {
        forall i | 0 <= i < j ensures FindingPasses(lib, exceptions, findings, today, i) { assert q[i]; }
      }
      CleanAtPasses(lib, exceptions, index, findings, j, today);
    }
    Lockstep(p, q, |findings|);
    assert forall j: nat :: j < |findings| ==> p[j] == CleanAt(lib, index, findings, today, j);
    assert forall j: nat :: j < |findings| ==> q[j] == FindingPasses(lib, exceptions, findings, today, j);
  }

  /** Nothing is reported in all exactly if no part reports anything. */
  lemma {:induction false} TotalIsEmpty(parts: seq<Problems>)
    ensures Total(parts).Empty() <==> forall j :: 0 <= j < |parts| ==> parts[j].Empty()
  {
    if parts != [] {
      TotalIsEmpty(parts[..|parts|-1]);
      assert forall j :: 0 <= j < |parts| - 1 ==> parts[..|parts|-1][j] == parts[j];
    }
  }

  lemma EmptyIsClean(lib: Library, index: map<Key, IndexEntry>, findings: seq<Finding>, today: int)
    ensures Total(ProblemsOfEach(lib, index, findings, today)).Empty() <==> AllClean(lib, index, findings, today, |findings|)
  {
    TotalIsEmpty(ProblemsOfEach(lib, index, findings, today));
    forall j: nat | j < |findings|
      ensures ProblemsOfEach(lib, index, findings, today)[j].Empty() <==> CleanAt(lib, index, findings, today, j)
    {
    }
  }

  lemma SeenStep(lib: Library, findings: seq<Finding>, i: nat)
    requires i < |findings|
    ensures forall k :: SeenBefore(lib, findings, i + 1, k) <==>
              SeenBefore(lib, findings, i, k) || (k.1 != "" && Relevant(lib, findings[i]) && k == FindingKey(lib, findings[i]))
    ensures var key := FindingKey(lib, findings[i]);
            key.1 != "" && Relevant(lib, findings[i]) && !SeenBefore(lib, findings, i, key) ==> FirstOfKey(lib, findings, i)
  {
  }

  datatype Verdict = Exit(code: int) | ParseRaised | ReportRaised

  /** Walking the report raises: in the generator, or on a severity that is no text. */
  ghost predicate WalkRaises(lib: Library, report: Json) {
    ReportRaises(lib, report) || exists k :: 0 <= k < |AllFindings(lib, report)| && BadSeverity(AllFindings(lib, report)[k])
  }

  /** The list parses, the report can be walked, and its findings pass. */
  ghost predicate Accepts(lib: Library, lines: seq<string>, report: Json, today: int) {
    && !ParsingFails(lines)
    && !WalkRaises(lib, report)
    && Passes(lib, Overlays(Structure(lines).records), AllFindings(lib, report), today)
  }

  /**
    The whole check.  It exits with 0 exactly if the exception list parses, the report can be walked, the
    exceptions are valid, and every high or critical named finding is excused by them.
   */
  method CheckAudit(lib: Library, lines: seq<string>, report: Json, today: int) returns (v: Verdict, reported: Problems)
    ensures v == Exit(0) || v == Exit(1) || v == ParseRaised || v == ReportRaised
    ensures v == ParseRaised <==> ParsingFails(lines)
    ensures v == ReportRaised <==> !ParsingFails(lines) && WalkRaises(lib, report)
    ensures v == Exit(0) <==> Accepts(lib, lines, report, today)
    ensures v.Exit? ==> (v == Exit(0) <==> reported.Empty())
    ensures v.Exit? ==> reported == Reported(lib, Overlays(Structure(lines).records), AllFindings(lib, report), today)
  {
    reported := NO_PROBLEMS;
    var parsed := ParseExceptions(lines);
    if parsed.Err? {
      return ParseRaised, reported;
    }
    var exceptions := parsed.value;
    var index, errors := BuildIndex(lib, exceptions);
    var findings := IterVulns(lib, report);
    if findings.Err? {
      return ReportRaised, reported;
    }
    var raised, problems := CheckFindings(lib, exceptions, index, findings.value, today);
    if raised {
      return ReportRaised, reported;
    }
    reported := Problems(errors, [], []).With(problems);
    v := if reported.Empty() then Exit(0) else Exit(1);
  }
}
