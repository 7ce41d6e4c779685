/** Writing an exception list, and reading back exactly what was written. */
module ExceptionFormat {
  import opened Prelude
  import opened PythonText
  import opened ExceptionParser

  datatype Quoting = Double | Single | Bare

  /** One field as it is written: its value quoted or bare, and any white space around the line. */
  datatype Field = Field(key: string, value: string, quoting: Quoting, indent: string, trailing: string)

  function Written(f: Field): string {
    match f.quoting
    case Double => "\"" + f.value + "\""
    case Single => "'" + f.value + "'"
    case Bare => f.value
  }

  function Core(f: Field): string {
    f.key + ": " + Written(f)
  }

  /** Any value can be quoted; a bare one must be visible text that does not itself look quoted. */
  predicate ValueFits(f: Field) {
    f.quoting == Bare ==> f.value != "" && Trimmed(f.value) && !Quoted(f.value)
  }

  predicate Admissible(f: Field) {
    ':' !in f.key && Trimmed(f.key) && ValueFits(f) && AllSpace(f.indent) && AllSpace(f.trailing)
  }

  /** On a line of its own a key must not be taken for a comment, a header line or a record start. */
  predicate AdmissibleAlone(f: Field) {
    && Admissible(f)
    && !StartsWith(f.key, "#") && !StartsWith(f.key, "- ")
    && f.key != "version" && f.key != "exceptions"
  }

  datatype Item = Filler(text: string) | First(f: Field) | Other(f: Field)

  function Text(item: Item): string {
    match item
    case Filler(text) => text
    case First(f) => f.indent + ("- " + Core(f)) + f.trailing
    case Other(f) => f.indent + Core(f) + f.trailing
  }

  /** Blank lines, comments, and the two header lines. */
  predicate IsFiller(text: string) {
    var line := Strip(text);
    line == "" || StartsWith(line, "#") || StartsWith(line, "version:") || StartsWith(line, "exceptions:")
  }

  predicate WellFormed(item: Item) {
    match item
    case Filler(text) => IsFiller(text)
    case First(f) => Admissible(f)
    case Other(f) => AdmissibleAlone(f)
  }

  function Lines(items: seq<Item>): seq<string> {
    if items == [] then [] else [Text(items[0])] + Lines(items[1..])
  }

  // ---------- One line ----------

  lemma {:induction false} FindColonAfter(key: string, rest: string)
    requires ':' !in key
    ensures FindColon(key + ":" + rest) == |key|
  {
    var s := key + ":" + rest;
    assert s[|key|] == ':';
    var i := FindColon(s);
    assert forall k :: 0 <= k < |key| ==> s[k] == key[k] && key[k] != ':';
    assert forall k :: 0 <= k < i ==> s[k] == s[..i][k] && s[k] != ':';
  }

  lemma WrittenIsRead(f: Field)
    requires ValueFits(f)
    ensures Unquote(Strip(" " + Written(f))) == f.value
    ensures Written(f) != "" && Trimmed(Written(f))
  {
    var w := Written(f);
    assert w != "" && Trimmed(w);
    StripPadded(" ", w, "");
    assert " " + w + "" == " " + w;
    assert f.quoting != Bare ==> w[1..|w|-1] == f.value;
  }

  lemma TrimmedIsStripped(s: string)
    requires Trimmed(s)
    ensures Strip(s) == s
  {
    if s != "" {
      StripPadded("", s, "");
      assert "" + s + "" == s;
    }
  }

  lemma SplitJoined(key: string, rest: string)
    requires ':' !in key
    ensures var line := key + ":" + rest;
            ':' in line && SplitKv(line) == (Strip(key), Unquote(Strip(rest)))
  {
    var line := key + ":" + rest;
    FindColonAfter(key, rest);
    assert line[|key|] == ':';
    assert line[..|key|] == key && line[|key|+1..] == rest;
  }

  lemma {:induction false} CoreSplits(f: Field)
    requires Admissible(f)
    ensures ':' in Core(f) && SplitKv(Core(f)) == (f.key, f.value)
  {
    assert Core(f) == f.key + ":" + (" " + Written(f));
    SplitJoined(f.key, " " + Written(f));
    WrittenIsRead(f);
    TrimmedIsStripped(f.key);
  }

  lemma CoreIsTrimmed(f: Field)
    requires Admissible(f)
    ensures Core(f) != "" && Trimmed(Core(f))
  {
    var core, w := Core(f), Written(f);
    WrittenIsRead(f);
    assert core[0] == if f.key == "" then ':' else f.key[0];
    assert core[|core|-1] == w[|w|-1];
  }

  lemma OtherInitial(line: string, prefix: string)
    requires line != "" && prefix != "" && line[0] != prefix[0]
    ensures !StartsWith(line, prefix)
  {
  }

  lemma FirstIsStart(f: Field)
    requires Admissible(f)
    ensures Classify(Text(First(f))) == Start(Core(f))
  {
    CoreIsTrimmed(f);
    var line := "- " + Core(f);
    assert line[|line|-1] == Core(f)[|Core(f)|-1] && line[0] == '-';
    StripPadded(f.indent, line, f.trailing);
    assert line[2..] == Core(f);
    TrimmedIsStripped(Core(f));
    OtherInitial(line, "#");
    OtherInitial(line, "version:");
    OtherInitial(line, "exceptions:");
  }

  lemma OtherIsEntry(f: Field)
    requires AdmissibleAlone(f)
    ensures Classify(Text(Other(f))) == Entry(f.key, f.value)
  {
    CoreSplits(f);
    CoreIsTrimmed(f);
    StripPadded(f.indent, Core(f), f.trailing);
    NoMark(f);
    NoHeaderLine(f);
    EntryLine(Core(f), f.key, f.value);
  }

  lemma EntryLine(line: string, key: string, value: string)
    requires ':' in line && SplitKv(line) == (key, value) && line != ""
    requires !StartsWith(line, "#") && !StartsWith(line, "- ")
    requires !StartsWith(line, "version:") && !StartsWith(line, "exceptions:")
    ensures ClassifyStripped(line) == Entry(key, value)
  {
  }

  lemma NoHeaderLine(f: Field)
    requires ':' !in f.key && f.key != "version" && f.key != "exceptions"
    ensures !StartsWith(Core(f), "version:") && !StartsWith(Core(f), "exceptions:")
  {
    NoHeader(f, "version");
    NoHeader(f, "exceptions");
    assert "version" + ":" == "version:" && "exceptions" + ":" == "exceptions:";
  }

  lemma NoHeader(f: Field, word: string)
    requires ':' !in f.key && ':' !in word && f.key != word
    ensures !StartsWith(Core(f), word + ":")
  {
    if StartsWith(Core(f), word + ":") {
      HeaderIsKey(f, word);
    }
  }

  lemma NoMark(f: Field)
    requires AdmissibleAlone(f)
    ensures !StartsWith(Core(f), "#") && !StartsWith(Core(f), "- ")
  {
    var core := Core(f);
    assert forall k :: 0 <= k < |f.key| ==> core[k] == f.key[k];
    assert core[|f.key|] == ':';
    if |f.key| >= 2 {
      assert f.key[0] == core[0] && f.key[1] == core[1];
    }
  }

  lemma HeaderIsKey(f: Field, word: string)
    requires ':' !in f.key && ':' !in word && StartsWith(Core(f), word + ":")
    ensures f.key == word
  {
    var core := Core(f);
    assert core == f.key + ":" + (" " + Written(f));
    FindColonAfter(f.key, " " + Written(f));
    assert core == word + ":" + core[|word|+1..];
    FindColonAfter(word, core[|word|+1..]);
    assert core[..|word|] == word && core[..|f.key|] == f.key;
  }

  // ---------- The whole file ----------

  function Pair(f: Field): (string, string) {
    (f.key, f.value)
  }

  function Pairs(fields: seq<Field>): seq<(string, string)> {
    if fields == [] then [] else [Pair(fields[0])] + Pairs(fields[1..])
  }

  /** The items that carry fields. */
  function Fields(items: seq<Item>): seq<Item> {
    if items == [] then []
    else if items[0].Filler? then Fields(items[1..])
    else [items[0]] + Fields(items[1..])
  }

  function Others(fields: seq<Field>): seq<Item> {
    if fields == [] then [] else [Other(fields[0])] + Others(fields[1..])
  }

  /** A record to write: it has at least one field. */
  datatype Record = Record(first: Field, rest: seq<Field>)

  /** The canonical sequence of items of some records: each starts with its first field. */
  function Canonical(records: seq<Record>): seq<Item> {
    if records == [] then []
    else [First(records[0].first)] + (Others(records[0].rest) + Canonical(records[1..]))
  }

  function EntriesOf(r: Record): seq<(string, string)> {
    [Pair(r.first)] + Pairs(r.rest)
  }

  function AllPairs(records: seq<Record>): seq<seq<(string, string)>> {
    if records == [] then [] else [EntriesOf(records[0])] + AllPairs(records[1..])
  }

  ghost predicate AllWellFormed(items: seq<Item>) {
    forall k :: 0 <= k < |items| ==> WellFormed(items[k])
  }

  function LineOf(item: Item): Line {
    match item
    case Filler(_) => Ignored
    case First(f) => Start(Core(f))
    case Other(f) => Entry(f.key, f.value)
  }

  function StructureOf(items: seq<Item>): Blocks {
    if items == [] then Blocks([], []) else Before(LineOf(items[0]), StructureOf(items[1..]))
  }

  lemma {:induction false} LinesHaveStructure(items: seq<Item>)
    requires AllWellFormed(items)
    ensures Structure(Lines(items)) == StructureOf(items)
    ensures |Lines(items)| == |items|
    ensures forall k :: 0 <= k < |items| ==> !BadStart(Lines(items)[k])
  {
    if items != [] {
      assert WellFormed(items[0]);
      match items[0] {
        case Filler(text) =>
        case First(f) => FirstIsStart(f); CoreSplits(f);
        case Other(f) => OtherIsEntry(f);
      }
      assert forall k :: 0 <= k < |items[1..]| ==> items[1..][k] == items[k+1];
      LinesHaveStructure(items[1..]);
      assert Lines(items)[1..] == Lines(items[1..]);
    }
  }

  lemma {:induction false} FillersDoNotMatter(items: seq<Item>)
    ensures StructureOf(items) == StructureOf(Fields(items))
  {
    if items != [] {
      FillersDoNotMatter(items[1..]);
      if !items[0].Filler? {
        assert Fields(items)[1..] == Fields(items[1..]);
      }
    }
  }

  lemma Associative<T>(x: T, s: seq<T>, t: seq<T>)
    ensures [x] + (s + t) == ([x] + s) + t
  {
  }

  lemma {:induction false} OthersAreOrphans(fields: seq<Field>, rest: seq<Item>)
    ensures StructureOf(Others(fields) + rest) ==
            Blocks(Pairs(fields) + StructureOf(rest).orphans, StructureOf(rest).records)
  {
    if fields == [] {
      assert Others(fields) + rest == rest;
      assert Pairs(fields) + StructureOf(rest).orphans == StructureOf(rest).orphans;
    } else {
      OthersAreOrphans(fields[1..], rest);
      assert Others(fields) + rest == [Other(fields[0])] + (Others(fields[1..]) + rest);
      OrphanStep(fields[0], Others(fields[1..]) + rest);
      Associative(Pair(fields[0]), Pairs(fields[1..]), StructureOf(rest).orphans);
    }
  }

  lemma OrphanStep(f: Field, items: seq<Item>)
    ensures StructureOf([Other(f)] + items) ==
            Blocks([Pair(f)] + StructureOf(items).orphans, StructureOf(items).records)
  {
    assert ([Other(f)] + items)[1..] == items;
  }

  lemma {:induction false} CanonicalStructure(records: seq<Record>)
    requires AllWellFormed(Canonical(records))
    ensures StructureOf(Canonical(records)) == Blocks([], AllPairs(records))
  {
    if records != [] {
      var record, later := records[0], records[1..];
      var items, rest := Canonical(records), Canonical(later);
      assert items[0] == First(record.first) && items[1..] == Others(record.rest) + rest;
      assert WellFormed(items[0]);
      SuffixIsWellFormed([items[0]] + Others(record.rest), rest, items);
      CanonicalStructure(later);
      OthersAreOrphans(record.rest, rest);
      CoreSplits(record.first);
      assert Pairs(record.rest) + [] == Pairs(record.rest);
    }
  }

  lemma SuffixIsWellFormed(before: seq<Item>, rest: seq<Item>, items: seq<Item>)
    requires items == before + rest && AllWellFormed(items)
    ensures AllWellFormed(rest)
  {
    assert forall k :: 0 <= k < |rest| ==> rest[k] == items[|before| + k];
  }

  /**
    Reading back what was written.  A file whose fields are the canonical sequence of some records, with
    blank lines, comments and header lines anywhere between them, any indentation, and any of the three
    ways of writing a value, parses without error into exactly those records, in order.
   */
  lemma WrittenListIsRead(items: seq<Item>, records: seq<Record>)
    requires AllWellFormed(items) && Fields(items) == Canonical(records)
    ensures forall k :: 0 <= k < |Lines(items)| ==> !BadStart(Lines(items)[k])
    ensures Structure(Lines(items)).records == AllPairs(records)
  {
    LinesHaveStructure(items);
    FillersDoNotMatter(items);
    FieldsAreWellFormed(items);
    CanonicalStructure(records);
  }

  lemma {:induction false} FieldsAreWellFormed(items: seq<Item>)
    requires AllWellFormed(items)
    ensures AllWellFormed(Fields(items))
  {
    if items != [] {
      assert WellFormed(items[0]);
      assert forall k :: 0 <= k < |items[1..]| ==> items[1..][k] == items[k+1];
      FieldsAreWellFormed(items[1..]);
    }
  }

  /** With distinct keys, a parsed record maps every key to the value written for it, and nothing else. */
  lemma {:induction false} DistinctKeysAreKept(fields: seq<Field>, key: string)
    requires forall i, j :: 0 <= i < j < |fields| ==> fields[i].key != fields[j].key
    ensures key in Overlay(map[], Pairs(fields)) <==> exists i :: 0 <= i < |fields| && fields[i].key == key
    ensures forall i :: 0 <= i < |fields| && fields[i].key == key ==> Overlay(map[], Pairs(fields))[key] == fields[i].value
  {
    PairsAt(fields);
    var entries := Pairs(fields);
    LastEntryWins(map[], entries, key);
    if i :| 0 <= i < |fields| && fields[i].key == key {
      forall j | i < j < |entries| ensures entries[j].0 != entries[i].0 { assert entries[j] == Pair(fields[j]); }
      LastOfIsLast(entries, i);
      assert entries[i] == Pair(fields[i]);
    } else {
      NoneIsLast(entries, key);
    }
  }

  lemma {:induction false} PairsAt(fields: seq<Field>)
    ensures |Pairs(fields)| == |fields| && forall i :: 0 <= i < |fields| ==> Pairs(fields)[i] == Pair(fields[i])
  {
    if fields != [] {
      PairsAt(fields[1..]);
    }
  }

  lemma {:induction false} NoneIsLast(entries: seq<(string, string)>, key: string)
    requires forall i :: 0 <= i < |entries| ==> entries[i].0 != key
    ensures LastOf(entries, key) == None
    decreases entries
  {
    if entries != [] {
      NoneIsLast(entries[..|entries|-1], key);
    }
  }
}
