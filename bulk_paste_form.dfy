/** components/BulkPasteForm.tsx: tab-separated text pasted by the user is
    parsed line by line into records and appended to the pending list. The
    simulated progress bar of the same component (timers and floating-point
    percentages) is not part of this model. */
module BulkPasteForm {
  import opened Wrappers
  import opened Types
  import opened JsString

  /** `typeof values[i] === 'string' ? values[i].trim() : ''`: a value past
      the end of the line is `undefined` and becomes ''. */
  function Cell(values: seq<string>, i: nat): string
  {
    if i < |values| then Trim(values[i]) else ""
  }

  /** The record a pasted line becomes: field `FieldOrder[i]` holds the
      trimmed `i`-th tab-separated value, or '' when the line has fewer. */
  function LineRecord(line: string): MedicalRecord
  {
    var values := Split(line, '\t');
    MedicalRecord(None, Cell(values, 0), Cell(values, 1), Cell(values, 2),
      Cell(values, 3), Cell(values, 4), Cell(values, 5), Cell(values, 6))
  }

  /** `lines.map(...)`: one record per line, in line order. */
  function ParseLines(lines: seq<string>): (rs: seq<MedicalRecord>)
    ensures |rs| == |lines|
    ensures forall k :: 0 <= k < |lines| ==> rs[k] == LineRecord(lines[k])
    decreases |lines|
  {
    if lines == [] then [] else [LineRecord(lines[0])] + ParseLines(lines[1..])
  }

  /** `bulkInput.trim().split('\n')`. */
  function Lines(input: string): seq<string>
  {
    Split(Trim(input), '\n')
  }

  /** The records parsed from the whole pasted text. */
  function ParseBulk(input: string): seq<MedicalRecord>
  {
    ParseLines(Lines(input))
  }

  /** The `forEach` over `fields` that fills one record of a line. */
  method ParseLine(line: string) returns (record: MedicalRecord)
    ensures record == LineRecord(line)
  {
    var values := Split(line, '\t');
    // `handleParse` starts from `{}`; every field is assigned below, so the
    // initial '' values never survive.
    record := MedicalRecord(None, "", "", "", "", "", "", "");
    FieldOrderIsPermutation();
    for i := 0 to |FieldOrder|
      invariant record.id == None
      invariant forall j :: 0 <= j < i ==> record.Get(FieldOrder[j]) == Cell(values, j)
    {
      record := record.With(FieldOrder[i], Cell(values, i));
    }
    forall f: Field ensures record.Get(f) == LineRecord(line).Get(f) {
      assert FieldOrder[Position(f)] == f;
    }
    RecordsEqual(record, LineRecord(line));
  }

  /** A list holding the record of each line, in order, is `ParseLines`. */
  lemma ParsedLines(parsed: seq<MedicalRecord>, lines: seq<string>)
    requires |parsed| == |lines|
    requires forall j :: 0 <= j < |lines| ==> parsed[j] == LineRecord(lines[j])
    ensures parsed == ParseLines(lines)
  {
  }

  /** The paste form's state: the text area and the pending record list it
      shares with its parent through `records`/`setRecords`. */
  class BulkPasteForm {
    var records: seq<MedicalRecord>
    var bulkInput: string

    constructor(records: seq<MedicalRecord>)
      ensures this.records == records && bulkInput == ""
    {
      this.records := records;
      bulkInput := "";
    }

    /** `handleChange`: the text area's new contents. */
    method HandleChange(value: string)
      modifies this
      ensures bulkInput == value && records == old(records)
    {
      bulkInput := value;
    }

    /** `handleParse`: the parsed records are appended after the existing
        ones, which stay as they were. */
    method HandleParse()
      modifies this
      ensures records == old(records) + ParseBulk(old(bulkInput))
      ensures bulkInput == old(bulkInput)
    {
      var lines := Lines(bulkInput);
      var parsed: seq<MedicalRecord> := [];
      for k := 0 to |lines|
        invariant bulkInput == old(bulkInput) && records == old(records)
        invariant |parsed| == k
        invariant forall j :: 0 <= j < k ==> parsed[j] == LineRecord(lines[j])
      {
        var record := ParseLine(lines[k]);
        parsed := parsed + [record];
      }
      ParsedLines(parsed, lines);
      records := records + parsed;
    }
  }

  /** There is one record per newline-separated line of the outer-trimmed
      text: one more than the newlines it contains. */
  lemma {:induction false} ParsedCount(input: string)
    ensures |ParseBulk(input)| == |Lines(input)| == multiset(Trim(input))['\n'] + 1
  {
    SplitCount(Trim(input), '\n');
  }

  /** Empty or whitespace-only text gives one record with all seven fields
      empty, not an empty list. */
  lemma BlankPasteGivesOneEmptyRecord(input: string)
    requires forall k :: 0 <= k < |input| ==> IsWhitespace(input[k])
    ensures ParseBulk(input) == [MedicalRecord(None, "", "", "", "", "", "", "")]
  {
    TrimEmpty(input);
    assert Lines(input) == [""];
    assert Split("", '\t') == [""];
    assert Trim("") == "";
  }

  /** Values past the seventh are ignored: two lines that agree on their
      first seven values give the same record. */
  lemma ExtraValuesIgnored(line1: string, line2: string)
    requires |Split(line1, '\t')| >= 7 && |Split(line2, '\t')| >= 7
    requires Split(line1, '\t')[..7] == Split(line2, '\t')[..7]
    ensures LineRecord(line1) == LineRecord(line2)
  {
    var v1, v2 := Split(line1, '\t'), Split(line2, '\t');
    assert forall i :: 0 <= i < 7 ==> v1[i] == v1[..7][i] && v2[i] == v2[..7][i];
  }

  /** Field `f` is the trimmed value in its column, or '' when the line has
      fewer values than that. */
  lemma LineFields(line: string, f: Field)
    ensures var values := Split(line, '\t');
            LineRecord(line).Get(f) == if Position(f) < |values| then Trim(values[Position(f)]) else ""
  {
  }

  /** A single line without surrounding whitespace parses to its own record. */
  lemma SingleLine(line: string)
    requires '\n' !in line
    requires line != [] ==> !IsWhitespace(line[0]) && !IsWhitespace(line[|line| - 1])
    ensures ParseBulk(line) == [LineRecord(line)]
  {
    TrimNoPadding(line);
    SplitNoSeparator(line, '\n');
  }

  /** A line of seven tab-separated values that need no trimming parses to
      one record holding them in column order. */
  lemma SevenValues(parts: seq<string>)
    requires |parts| == 7
    requires forall i :: 0 <= i < 7 ==> '\t' !in parts[i] && '\n' !in parts[i]
    requires forall i :: 0 <= i < 7 ==> Trim(parts[i]) == parts[i]
    requires parts[0] != [] && !IsWhitespace(parts[0][0])
    requires parts[6] != [] && !IsWhitespace(parts[6][|parts[6]| - 1])
    ensures ParseBulk(Join(parts, '\t'))
         == [MedicalRecord(None, parts[0], parts[1], parts[2], parts[3], parts[4], parts[5], parts[6])]
  {
    var line := Join(parts, '\t');
    SplitJoin(parts, '\t');
    JoinAvoids(parts, '\t', '\n');
    JoinEnds(parts, '\t');
    assert line[0] == line[..|parts[0]|][0] == parts[0][0];
    assert line[|line| - 1] == line[|line| - |parts[6]|..][|parts[6]| - 1];
    SingleLine(line);
  }

  /** The outer `trim` also strips a leading tab, so a first line whose
      first value is empty has its values shifted one field to the left:
      `"\tv"` fills `disease`, not `drug`, with `v`. */
  lemma LeadingTabShiftsFirstLine(v: string)
    requires v != [] && !IsWhitespace(v[0]) && !IsWhitespace(v[|v| - 1])
    requires '\t' !in v && '\n' !in v
    ensures ParseBulk("\t" + v) == [MedicalRecord(None, v, "", "", "", "", "", "")]
  {
    var s := "\t" + v;
    assert s[0] == '\t' && s[1..] == v;
    assert TrimStart(s) == TrimStart(v) == v;
    TrimNoPadding(v);
    assert Trim(s) == v;
    SplitNoSeparator(v, '\n');
    SplitNoSeparator(v, '\t');
  }
}
