/** `parse_exceptions`: the line parser of the exception list. */
module ExceptionParser {
  import opened Prelude
  import opened PythonText

  type Fields = map<string, string>

  /** Python raises ValueError when a line has no colon to split at. */
  datatype ParseError = NoColon(line: string)

  // ---------- One line ----------

  function FindColon(s: string): (i: nat)
    ensures i <= |s|
    ensures i < |s| <==> ':' in s
    ensures i < |s| ==> s[i] == ':'
    ensures ':' !in s[..i]
  {
    if s == "" || s[0] == ':' then 0
    else
      var i := FindColon(s[1..]);
      assert s[..i+1] == [s[0]] + s[1..][..i];
      i + 1
  }

  predicate Quoted(v: string) {
    v != "" && ((v[0] == '"' && v[|v|-1] == '"') || (v[0] == '\'' && v[|v|-1] == '\''))
  }

  /** A lone quote is its own first and last character, and `value[1:-1]` of it is empty. */
  function Unquote(v: string): string {
    if !Quoted(v) then v
    else if |v| < 2 then ""
    else v[1..|v|-1]
  }

  /** A value in a pair of equal quotes loses that pair and nothing else; any other value is kept. */
  lemma UnquoteRemovesOnePair(inner: string, v: string)
    ensures Unquote("\"" + inner + "\"") == inner && Unquote("'" + inner + "'") == inner
    ensures Unquote("\"") == "" && Unquote("'") == ""
    ensures v != "" && (v[0] != v[|v|-1] || (v[0] != '"' && v[0] != '\'')) ==> Unquote(v) == v
  {
  }

  function SplitKv(line: string): (string, string)
    requires ':' in line
  {
    var i := FindColon(line);
    (Strip(line[..i]), Unquote(Strip(line[i+1..])))
  }

  /** What a raw line is to the parser. */
  datatype Line = Ignored | Start(rest: string) | Entry(key: string, value: string)

  function ClassifyStripped(line: string): Line {
    if line == "" || StartsWith(line, "#") then Ignored
    else if StartsWith(line, "version:") || StartsWith(line, "exceptions:") then Ignored
    else if StartsWith(line, "- ") then Start(Strip(line[2..]))
    else if ':' in line then Entry(SplitKv(line).0, SplitKv(line).1)
    else Ignored
  }

  function Classify(raw: string): Line {
    ClassifyStripped(Strip(raw))
  }

  predicate BadStart(raw: string) {
    Classify(raw).Start? && ':' !in Classify(raw).rest
  }

  ghost predicate ParsingFails(lines: seq<string>) {
    exists i :: 0 <= i < |lines| && BadStart(lines[i])
  }

  lemma StartHasText(raw: string)
    ensures Classify(raw).Start? ==> Classify(raw).rest != ""
  {
    var line := Strip(raw);
    StripTrims(raw);
    if Classify(raw).Start? {
      assert line[1] == ' ' && !IsSpace(line[|line|-1]);
      assert line[2..][|line|-3] == line[|line|-1];
      StripTrims(line[2..]);
    }
  }

  /** A text with a colon is split at the first one. */
  lemma SplitsAtTheFirstColon(before: string, after: string)
    requires ':' !in before
    ensures SplitKv(before + ":" + after) == (Strip(before), Unquote(Strip(after)))
  {
    var line := before + ":" + after;
    var i := FindColon(line);
    assert line[|before|] == ':' && forall k :: 0 <= k < |before| ==> line[k] == before[k];
    forall k | 0 <= k < i ensures line[k] != ':' {
      assert line[k] == line[..i][k];
    }
    assert line[..i] == before && line[i+1..] == after;
  }

  /** A record starts with a dash and a blank; an entry has a colon and starts with no dash and blank, hash or header. */
  lemma LinesAreClassified(raw: string)
    ensures var t := Strip(raw);
            && (Classify(raw).Start? <==> |t| > 1 && t[0] == '-' && t[1] == ' ')
            && (Classify(raw).Start? ==> Classify(raw).rest == Strip(t[2..]))
            && (Classify(raw).Entry? <==>
                  ':' in t && t[0] != '#' && !StartsWith(t, "version:") && !StartsWith(t, "exceptions:") && !(t[0] == '-' && t[1] == ' '))
            && (Classify(raw).Entry? ==> (Classify(raw).key, Classify(raw).value) == SplitKv(t))
  {
    var t := Strip(raw);
    assert |t| > 1 && t[0] == '-' && t[1] == ' ' ==> t[..2] == "- ";
  }

  // ---------- The record structure of a file ----------

  /** The entries before the first record start, and the entries of each record. */
  datatype Blocks = Blocks(orphans: seq<(string, string)>, records: seq<seq<(string, string)>>)

  /** The structure of a file, from its first line and the structure of the rest. */
  function Before(line: Line, rest: Blocks): Blocks {
    match line
    case Ignored => rest
    case Entry(k, v) => Blocks([(k, v)] + rest.orphans, rest.records)
    case Start(text) =>
      var first := if ':' in text then [SplitKv(text)] else [];
      Blocks([], [first + rest.orphans] + rest.records)
  }

  function Structure(lines: seq<string>): Blocks {
    if lines == [] then Blocks([], [])
    else Before(Classify(lines[0]), Structure(lines[1..]))
  }

  /** A record's fields; a repeated key keeps its last value. */
  function Overlay(fields: Fields, entries: seq<(string, string)>): Fields
    decreases entries
  {
    if entries == [] then fields
    else
      var (key, value) := entries[|entries|-1];
      Overlay(fields, entries[..|entries|-1])[key := value]
  }

  lemma {:induction false} OverlayFirst(fields: Fields, key: string, value: string, entries: seq<(string, string)>)
    ensures Overlay(fields, [(key, value)] + entries) == Overlay(fields[key := value], entries)
    decreases entries
  {
    var all := [(key, value)] + entries;
    if entries == [] {
      assert all[..0] == [];
    } else {
      OverlayFirst(fields, key, value, entries[..|entries|-1]);
      assert all[..|all|-1] == [(key, value)] + entries[..|entries|-1];
    }
  }

  function Overlays(records: seq<seq<(string, string)>>): (r: seq<Fields>)
    ensures |r| == |records|
  {
    if records == [] then [] else [Overlay(map[], records[0])] + Overlays(records[1..])
  }

  /** What the parser still has to return, given the record being read and the lines to come. */
  function Completed(current: Option<Fields>, rest: Blocks): seq<Fields> {
    (if current.Some? then [Overlay(current.value, rest.orphans)] else []) + Overlays(rest.records)
  }

  /** One line moves its part of the structure from the lines to come into the parser's state. */
  lemma CompletedStep(exceptions: seq<Fields>, current: Option<Fields>, line: Line, rest: Blocks)
    requires line.Start? ==> ':' in line.rest
    ensures var whole := exceptions + Completed(current, Before(line, rest));
            match line
            case Ignored => whole == exceptions + Completed(current, rest)
            case Entry(key, value) =>
              whole == exceptions + Completed(if current.Some? then Some(current.value[key := value]) else None, rest)
            case Start(text) =>
              whole == exceptions + (if current.Some? then [current.value] else [])
                         + Completed(Some(map[SplitKv(text).0 := SplitKv(text).1]), rest)
  {
    match line
    case Ignored =>
    case Entry(key, value) =>
      if current.Some? { OverlayFirst(current.value, key, value, rest.orphans); }
    case Start(text) =>
      var (key, value) := SplitKv(text);
      OverlayFirst(map[], key, value, rest.orphans);
      assert Before(line, rest).records[1..] == rest.records;
  }

  /** The body of the loop: one raw line. */
  method Feed(exceptions: seq<Fields>, current: Option<Fields>, raw: string)
    returns (exceptions': seq<Fields>, current': Option<Fields>, error: Option<ParseError>)
    requires current.Some? ==> current.value != map[]
    ensures error.Some? <==> BadStart(raw)
    ensures current'.Some? && error.None? ==> current'.value != map[]
    ensures error.None? ==>
              match Classify(raw)
              case Ignored => exceptions' == exceptions && current' == current
              case Entry(key, value) =>
                exceptions' == exceptions && current' == if current.Some? then Some(current.value[key := value]) else None
              case Start(text) =>
                && exceptions' == exceptions + (if current.Some? then [current.value] else [])
                && current' == Some(map[SplitKv(text).0 := SplitKv(text).1])
  {
    exceptions', current', error := exceptions, current, None;
    StartHasText(raw);
    match Classify(raw)
    case Ignored =>
    case Entry(key, value) =>
      if current.Some? {
        current' := Some(current.value[key := value]);
        assert key in current'.value;
      }
    case Start(text) =>
      if current.Some? && current.value != map[] {
        exceptions' := exceptions + [current.value];
      }
      current' := Some(map[]);
      if text != "" {
        if ':' !in text {
          error := Some(NoColon(text));
          return;
        }
        var (key, value) := SplitKv(text);
        current' := Some(current'.value[key := value]);
        assert key in current'.value;
      }
  }

  method ParseExceptions(lines: seq<string>) returns (r: Result<seq<Fields>, ParseError>)
    ensures r.Err? <==> ParsingFails(lines)
    ensures r.Ok? ==> r.value == Overlays(Structure(lines).records)
  {
    var exceptions: seq<Fields>, current: Option<Fields> := [], None;
    for i := 0 to |lines|
      invariant forall k :: 0 <= k < i ==> !BadStart(lines[k])
      invariant current.Some? ==> current.value != map[]
      invariant Overlays(Structure(lines).records) == exceptions + Completed(current, Structure(lines[i..]))
    {
      assert lines[i..][1..] == lines[i+1..];
      if !BadStart(lines[i]) {
        CompletedStep(exceptions, current, Classify(lines[i]), Structure(lines[i+1..]));
      }
      var error: Option<ParseError>;
      exceptions, current, error := Feed(exceptions, current, lines[i]);
      if error.Some? {
        return Err(error.value);
      }
    }
    if current.Some? && current.value != map[] {
      exceptions := exceptions + [current.value];
    }
    r := Ok(exceptions);
  }

  // ---------- Consequences ----------

  ghost function StartLines(lines: seq<string>): nat {
    if lines == [] then 0 else (if Classify(lines[0]).Start? then 1 else 0) + StartLines(lines[1..])
  }

  /** There are as many records as lines that start one. */
  lemma {:induction false} OneRecordPerStart(lines: seq<string>)
    ensures |Overlays(Structure(lines).records)| == StartLines(lines)
  {
    if lines != [] {
      OneRecordPerStart(lines[1..]);
    }
  }

  /** The value of the last entry with a key. */
  ghost function LastOf(entries: seq<(string, string)>, key: string): Option<string>
    decreases entries
  {
    if entries == [] then None
    else if entries[|entries|-1].0 == key then Some(entries[|entries|-1].1)
    else LastOf(entries[..|entries|-1], key)
  }

  lemma {:induction false} LastOfIsLast(entries: seq<(string, string)>, i: nat)
    requires i < |entries| && forall j :: i < j < |entries| ==> entries[j].0 != entries[i].0
    ensures LastOf(entries, entries[i].0) == Some(entries[i].1)
    decreases entries
  {
    if i < |entries| - 1 {
      LastOfIsLast(entries[..|entries|-1], i);
    }
  }

  /** Every key keeps the value of its last entry; the other fields stay as they were. */
  lemma {:induction false} LastEntryWins(fields: Fields, entries: seq<(string, string)>, key: string)
    ensures key in Overlay(fields, entries) <==> key in fields || LastOf(entries, key).Some?
    ensures match LastOf(entries, key)
            case Some(value) => Overlay(fields, entries)[key] == value
            case None => key in fields ==> Overlay(fields, entries)[key] == fields[key]
    decreases entries
  {
    if entries != [] {
      LastEntryWins(fields, entries[..|entries|-1], key);
    }
  }
}
