/**
 * The sample export of the CSV parser's tests, parsed. It has seven lines: the
 * title, an empty line, the header, three slot rows and the comment row. The
 * text is written as its lines joined by newlines, each row as its fields
 * joined by commas, and `SampleParse` states that parsing it gives the
 * three-slot schedule the tests expect.
 */
module CsvSample {
  import opened Wrappers
  import opened Text
  import opened Seqs
  import opened CsvParser

  /** The participants of the sample export. */
  const SampleNames: seq<string> := ["Aさん", "Bさん"]

  /** A data row of the sample export: the slot label, then the two marks. */
  function SampleRow(date: string, time: string, a: string, b: string): string {
    Join([date + " " + time, a, b], ",")
  }

  /** The three fields of a sample row, split and trimmed. */
  lemma SampleRowCells(slot: string, a: string, b: string)
    requires ',' !in slot && ',' !in a && ',' !in b
    requires IsTrimmed(slot) && IsTrimmed(a) && IsTrimmed(b)
    ensures Split(Join([slot, a, b], ","), ',') == [slot, a, b]
    ensures Cells([slot, a, b]) == [slot, a, b]
  {
    var parts := [slot, a, b];
    assert forall i :: 0 <= i < |parts| ==> ',' !in parts[i] && IsTrimmed(parts[i]);
    SplitJoin(parts, ',');
    CellsOfTrimmed(parts);
  }

  /** The status record of a sample row: each participant's mark. */
  lemma SampleStatuses(cells: seq<string>, a: string, b: string)
    requires |cells| == 3 && cells[1] == a && cells[2] == b
    ensures StatusMap(cells, SampleNames, 2) == map["Aさん" := a, "Bさん" := b]
  {
    assert StatusMap(cells, SampleNames, 1) == map["Aさん" := a];
  }

  /** What a slot row's fields must be for the row to read back as a slot. */
  predicate SlotFields(date: string, time: string, a: string, b: string) {
    && date != [] && time != [] && NoWs(date) && NoWs(time) && date[0] != 'コ'
    && ',' !in date && ',' !in time && ',' !in a && ',' !in b
    && '\n' !in date && '\n' !in time && '\n' !in a && '\n' !in b
    && b != [] && IsTrimmed(a) && IsTrimmed(b)
  }

  /** The fields of the three slot rows meet `SlotFields`, one lemma per row. */
  lemma SampleSlotFields0()
    ensures SlotFields("7/14(月)", "19:00〜", "◯", "◯")
  {
  }

  lemma SampleSlotFields1()
    ensures SlotFields("7/15(火)", "19:00〜", "◯", "△")
  {
  }

  lemma SampleSlotFields2()
    ensures SlotFields("7/16(水)", "19:00〜", "◯", "×")
  {
  }

  /** A sample row gives the slot with its date and time labels and both marks. */
  lemma SampleRowEntry(date: string, time: string, a: string, b: string)
    requires SlotFields(date, time, a, b)
    ensures RowEntry(SampleRow(date, time, a, b), SampleNames)
         == Some(ScheduleEntry(date, time, map["Aさん" := a, "Bさん" := b]))
  {
    var slot := date + " " + time;
    var row := SampleRow(date, time, a, b);
    LabelOf(date, time);
    assert ',' !in slot;
    SampleRowCells(slot, a, b);
    var cells := Cells(Split(row, ','));
    JoinStartsWith([slot, a, b], ",");
    assert row[0] == slot[0] == date[0];
    FirstCharDiffers(row, CommentRowMarker);
    assert IsDataRow(row, |SampleNames|);
    SampleStatuses(cells, a, b);
  }

  /** A sample row is trimmed, holds no newline, and starts with its date. */
  lemma SampleRowShape(date: string, time: string, a: string, b: string)
    requires SlotFields(date, time, a, b)
    ensures var row := SampleRow(date, time, a, b);
      IsTrimmed(row) && '\n' !in row && row[0] == date[0]
  {
    var slot := date + " " + time;
    JoinStartsWith([slot, a, b], ",");
    JoinEndsWith([slot, a, b], ",");
    JoinLacks([slot, a, b], ",", '\n');
    assert slot[0] == date[0];
  }

  /** The header line of the sample export. */
  const SampleHeader: string := Join(["日程", "Aさん", "Bさん"], ",")

  /** The lines of the sample export, the test's `sampleCSV`. */
  function SampleLines(): seq<string> {
    [ "ゆる飲み",
      "",
      SampleHeader,
      SampleSlotRows[0],
      SampleSlotRows[1],
      SampleSlotRows[2],
      "コメント,," ]
  }

  /** The sample export as text: its lines joined by newlines. */
  function SampleCsv(): string {
    Join(SampleLines(), "\n")
  }

  /** The sample header is trimmed and holds no newline. */
  lemma SampleHeaderShape()
    ensures IsTrimmed(SampleHeader) && '\n' !in SampleHeader
  {
    var parts := ["日程", "Aさん", "Bさん"];
    var h := Join(parts, ",");
    JoinStartsWith(parts, ",");
    JoinEndsWith(parts, ",");
    JoinLacks(parts, ",", '\n');
    assert h[0] == (parts[0] + ",")[0] == '日';
    assert h[|h| - 1] == parts[2][2] == 'ん';
    assert IsTrimmed(h) && '\n' !in h;
  }

  /** Every sample line is trimmed and holds no newline. */
  lemma SampleLinesShape()
    ensures forall i :: 0 <= i < |SampleLines()| ==> IsTrimmed(SampleLines()[i]) && '\n' !in SampleLines()[i]
  {
    var lines := SampleLines();
    SampleSlotFields0();
    SampleSlotFields1();
    SampleSlotFields2();
    forall i | 0 <= i < |lines|
      ensures IsTrimmed(lines[i]) && '\n' !in lines[i]
    {
      if i == 2 {
        SampleHeaderShape();
      } else if i == 3 {
        SampleRowShape("7/14(月)", "19:00〜", "◯", "◯");
      } else if i == 4 {
        SampleRowShape("7/15(火)", "19:00〜", "◯", "△");
      } else if i == 5 {
        SampleRowShape("7/16(水)", "19:00〜", "◯", "×");
      }
    }
  }

  /** The sample text splits back into its lines, each already trimmed. */
  lemma SampleCsvLines()
    ensures Lines(SampleCsv()) == SampleLines()
  {
    var lines := SampleLines();
    SampleLinesShape();
    JoinTrimmed(lines, "\n");
    LinesOfJoin(lines);
  }

  /** Both sample names pass the name filter. */
  lemma SampleNameFields()
    ensures forall i :: 0 <= i < |SampleNames| ==> IsNameField(SampleNames[i])
  {
    TrimFixesTrimmed("Aさん");
    TrimFixesTrimmed("Bさん");
  }

  /** The name filter keeps both sample names. */
  lemma SampleNamesKept()
    ensures KeepNames(SampleNames) == SampleNames
  {
    SampleNameFields();
    KeepAll(SampleNames);
  }

  /** The sample header splits into the date column and the two names, and starts with `日程,`. */
  lemma SampleHeaderFields()
    ensures Split(SampleHeader, ',') == ["日程"] + SampleNames
    ensures StartsWith(SampleHeader, DateColumnMarker)
  {
    var fields := ["日程", "Aさん", "Bさん"];
    SplitJoin(fields, ',');
    JoinStartsWith(fields, ",");
    assert "日程" + "," == DateColumnMarker;
  }

  /** The sample header is a header line naming Aさん and Bさん. */
  lemma SampleHeaderNames()
    ensures IsHeaderLine(SampleHeader)
    ensures ParticipantNames(SampleHeader) == SampleNames
  {
    SampleHeaderFields();
    SampleNamesKept();
    assert (["日程"] + SampleNames)[1..] == SampleNames;
  }

  /** The comment row is skipped. */
  lemma CommentRowSkipped()
    ensures RowEntry("コメント,,", SampleNames) == None
  {
    assert StartsWith("コメント,,", CommentRowMarker);
  }

  /** The three slot rows of the sample export. */
  const SampleSlotRows: seq<string> := [
    SampleRow("7/14(月)", "19:00〜", "◯", "◯"),
    SampleRow("7/15(火)", "19:00〜", "◯", "△"),
    SampleRow("7/16(水)", "19:00〜", "◯", "×") ]

  /** Each slot row gives the entry of the same slot of the expected schedule. */
  lemma SampleSlot0()
    ensures RowEntry(SampleSlotRows[0], SampleNames) == Some(SampleSchedule().entries[0])
  {
    SampleSlotFields0();
    SampleRowEntry("7/14(月)", "19:00〜", "◯", "◯");
  }

  lemma SampleSlot1()
    ensures RowEntry(SampleSlotRows[1], SampleNames) == Some(SampleSchedule().entries[1])
  {
    SampleSlotFields1();
    SampleRowEntry("7/15(火)", "19:00〜", "◯", "△");
  }

  lemma SampleSlot2()
    ensures RowEntry(SampleSlotRows[2], SampleNames) == Some(SampleSchedule().entries[2])
  {
    SampleSlotFields2();
    SampleRowEntry("7/16(水)", "19:00〜", "◯", "×");
  }

  /** The rows after the sample header give the three slots; the comment row gives none. */
  lemma SampleEntries()
    ensures Entries(SampleLines()[3..], SampleNames) == SampleSchedule().entries
  {
    var rows := SampleSlotRows + ["コメント,,"];
    assert SampleLines()[3..] == rows;
    SampleSlot0();
    SampleSlot1();
    SampleSlot2();
    CommentRowSkipped();
    var es := SampleSchedule().entries;
    CollectFour(rows, line => RowEntry(line, SampleNames), es[0], es[1], es[2]);
    assert [es[0], es[1], es[2]] == es;
  }

  /** The sample lines read as the sample's names and entries. */
  lemma SampleLinesRead()
    ensures ReadsAs(SampleLines(), SampleNames, SampleSchedule().entries)
    ensures SampleLines()[0] == SampleSchedule().title
  {
    var lines, entries := SampleLines(), SampleSchedule().entries;
    assert lines[0] == "ゆる飲み" && lines[1] == "" && lines[2] == SampleHeader;
    NoMarkerChar("ゆる飲み");
    NoMarkerChar("");
    SampleHeaderNames();
    SampleEntries();
    assert ReadsAs(lines, SampleNames, entries);
  }

  /** Parsing the sample export gives the three-slot schedule of Aさん and Bさん. */
  lemma SampleParse()
    ensures Parse(SampleCsv()) == Ok(SampleSchedule())
  {
    SampleCsvLines();
    SampleLinesRead();
    ParseOfLines(SampleCsv(), SampleLines(), SampleNames, SampleSchedule().entries);
  }
}
