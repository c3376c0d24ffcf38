/**
 * The chouseisan (調整さん) CSV export parser: a title line, a header line
 * marked by `日程,` naming the participants, then one row per candidate slot
 * holding each participant's mark (◯ available, △ maybe, × unavailable).
 */
module CsvParser {

  import opened Wrappers
  import opened Text
  import opened Seqs

  /** One candidate slot: its date and time labels and each participant's mark. */
  datatype ScheduleEntry = ScheduleEntry(date: string, time: string, participants: map<string, string>)

  /** The parsed export: title, slots in row order, participant names in column order. */
  datatype ScheduleData = ScheduleData(title: string, entries: seq<ScheduleEntry>, participants: seq<string>)

  /** The four ways parsing fails, and the failed participant lookup. */
  datatype ScheduleError =
    | TooShort
    | NoHeader
    | NoParticipants
    | NoEntries
    | UnknownParticipant(name: string, available: seq<string>)

  const DateColumnMarker: string := "日程,"
  const CommentColumn: string := "コメント"
  const CommentRowMarker: string := "コメント,"
  const ConfirmedMark: string := "◯"

  /** The text of the error each failure throws. */
  function Message(e: ScheduleError): (m: string)
    ensures e.UnknownParticipant? ==> Contains(m, e.name)
    ensures e.UnknownParticipant? ==> forall p :: p in e.available ==> Contains(m, p)
  {
    match e
    case TooShort => "CSVデータが短すぎます。正しい調整さんのCSVフォーマットを確認してください。"
    case NoHeader => "CSVヘッダー（日程列）が見つかりません。正しい調整さんのCSVフォーマットを確認してください。"
    case NoParticipants => "参加者が見つかりません。CSVに参加者名が含まれていることを確認してください。"
    case NoEntries => "予定データが見つかりません。CSVに予定データが含まれていることを確認してください。"
    case UnknownParticipant(name, available) =>
      var head := "参加者「";
      var middle := "」が見つかりません。利用可能な参加者: ";
      var list := Join(available, ", ");
      assert OccursAt(head + name + middle + list, name, |head|);
      forall p | p in available
        ensures Contains(head + name + middle + list, p)
      {
        var i := JoinContains(available, ", ", p);
        assert (head + name + middle + list)[|head + name + middle| + i..|head + name + middle| + i + |p|]
            == list[i..i + |p|];
        assert OccursAt(head + name + middle + list, p, |head + name + middle| + i);
      }
      head + name + middle + list
  }

  /** Every joined item occurs in the joined text; `i` is where. */
  lemma {:induction false} JoinContains(items: seq<string>, sep: string, p: string) returns (i: nat)
    requires p in items
    ensures i + |p| <= |Join(items, sep)| && Join(items, sep)[i..i + |p|] == p
  {
    if items[0] == p {
      i := 0;
      assert Join(items, sep)[..|p|] == p;
    } else {
      var j := JoinContains(items[1..], sep, p);
      var prefix := items[0] + sep;
      assert Join(items, sep) == prefix + Join(items[1..], sep);
      i := |prefix| + j;
    }
  }

  // ---------------------------------------------------------------------------
  // Lines, title and header

  /** `csvText.trim().split('\n').map(line => line.trim())`. */
  function Lines(text: string): (lines: seq<string>)
    ensures |lines| == |Split(Trim(text), '\n')|
  {
    var raw := Split(Trim(text), '\n');
    seq(|raw|, i requires 0 <= i < |raw| => Trim(raw[i]))
  }

  predicate AllEmpty(lines: seq<string>) {
    forall i :: 0 <= i < |lines| ==> lines[i] == []
  }

  /** Dropping the first line shifts the empty prefixes by one. */
  lemma AllEmptyShift(lines: seq<string>)
    requires lines != []
    ensures forall i :: 0 < i < |lines| && AllEmpty(lines[..i]) ==> AllEmpty(lines[1..][..i - 1]) && lines[1..][i - 1] == lines[i]
  {
    forall i | 0 < i < |lines| && AllEmpty(lines[..i])
      ensures AllEmpty(lines[1..][..i - 1])
    {
      var tail, prefix := lines[1..][..i - 1], lines[..i];
      forall k | 0 <= k < |tail|
        ensures tail[k] == []
      {
        assert tail[k] == prefix[k + 1];
      }
    }
  }

  /** `lines.find(line => line.length > 0) || ''`. */
  function FirstNonEmpty(lines: seq<string>): (title: string)
    ensures title != [] ==> title in lines
    ensures title == [] ==> forall i :: 0 <= i < |lines| ==> lines[i] == []
    ensures forall i :: 0 <= i < |lines| && lines[i] != [] && AllEmpty(lines[..i]) ==> title == lines[i]
  {
    if lines == [] then []
    else if lines[0] != [] then lines[0]
    else
      AllEmptyShift(lines);
      FirstNonEmpty(lines[1..])
  }

  /** The header test: `line.includes('日程,') || line.startsWith('日程,')`. */
  predicate IsHeaderLine(line: string) {
    Contains(line, DateColumnMarker) || StartsWith(line, DateColumnMarker)
  }

  /** Index of the first header line at or after `from`. */
  function FindHeader(lines: seq<string>, from: nat): (r: Option<nat>)
    requires from <= |lines|
    ensures r.Some? ==> from <= r.value < |lines| && IsHeaderLine(lines[r.value])
    ensures r.Some? ==> forall i :: from <= i < r.value ==> !IsHeaderLine(lines[i])
    ensures r.None? ==> forall i :: from <= i < |lines| ==> !IsHeaderLine(lines[i])
    decreases |lines| - from
  {
    if from == |lines| then None
    else if IsHeaderLine(lines[from]) then Some(from)
    else FindHeader(lines, from + 1)
  }

  /** The filter on header fields: not blank, and not the comment column. */
  predicate IsNameField(field: string) {
    Trim(field) != [] && field != CommentColumn
  }

  /** `a` occurs in `b` in order, possibly with gaps. */
  predicate IsSubsequence<T(==)>(a: seq<T>, b: seq<T>)
    decreases |b|
  {
    a == [] || (b != [] && if a[0] == b[0] then IsSubsequence(a[1..], b[1..]) else IsSubsequence(a, b[1..]))
  }

  /** `fields.filter(name => name.trim() !== '' && name !== 'コメント')`. */
  function KeepNames(fields: seq<string>): (names: seq<string>)
    ensures IsSubsequence(names, fields)
    ensures forall i :: 0 <= i < |names| ==> IsNameField(names[i])
    ensures forall i :: 0 <= i < |fields| && IsNameField(fields[i]) ==> fields[i] in names
    ensures forall x :: multiset(names)[x] == if IsNameField(x) then multiset(fields)[x] else 0
  {
    if fields == [] then []
    else
      assert fields == [fields[0]] + fields[1..];
      if IsNameField(fields[0]) then [fields[0]] + KeepNames(fields[1..])
      else KeepNames(fields[1..])
  }

  /** The participant columns of a header line: every field after the first that passes the filter. */
  function ParticipantNames(header: string): seq<string> {
    KeepNames(Split(header, ',')[1..])
  }

  // ---------------------------------------------------------------------------
  // Data rows

  /** Rows the loop passes over with `continue` before splitting. */
  predicate IsSkippedLine(line: string, participantCount: nat) {
    line == [] || StartsWith(line, CommentRowMarker) || line == Repeat(',', participantCount)
  }

  /** Rows that become entries: not skipped, and with a non-blank first field. */
  predicate IsDataRow(line: string, participantCount: nat) {
    !IsSkippedLine(line, participantCount) && Trim(Split(line, ',')[0]) != []
  }

  /** Every field of a row, trimmed: the statuses the row offers, column by column. */
  function Cells(parts: seq<string>): (cells: seq<string>)
    ensures |cells| == |parts|
    ensures forall k :: 0 <= k < |parts| ==> cells[k] == Trim(parts[k])
  {
    MapSeq(Trim, parts)
  }

  /** `parts[k]?.trim() || ''` over the trimmed fields: the field, or empty when the row is too short. */
  function Field(cells: seq<string>, k: nat): string {
    if k < |cells| then cells[k] else []
  }

  /** The set of the first `k` names. */
  function NameSet(names: seq<string>): set<string> {
    set n | n in names
  }

  /** `participantData` after the inner loop has run for the first `k` participants. */
  function StatusMap(cells: seq<string>, names: seq<string>, k: nat): map<string, string>
    requires k <= |names|
  {
    if k == 0 then map[] else StatusMap(cells, names, k - 1)[names[k - 1] := Field(cells, k)]
  }

  /** The label regex `/^(.+?)\s+(.+)$/`: where the time group starts once the date group ends at `k`. */
  function WsRunEnd(s: string, i: nat): (j: nat)
    requires i <= |s|
    ensures i <= j <= |s|
    ensures forall k :: i <= k < j ==> IsWs(s[k])
    ensures j < |s| ==> !IsWs(s[j])
    decreases |s| - i
  {
    if i < |s| && IsWs(s[i]) then WsRunEnd(s, i + 1) else i
  }

  /**
   * Start of the time group when the lazy date group is `s[..k]`: the greedy
   * `\s+` takes the whole whitespace run, but gives back its last character
   * when the run reaches the end, because `(.+)` needs one.
   */
  function TimeStart(s: string, k: nat): nat
    requires k < |s|
  {
    var j := WsRunEnd(s, k);
    if j < |s| then j else |s| - 1
  }

  /** The regex matches with the date group `s[..k]` (`.` matches no line terminator). */
  predicate LabelMatchAt(s: string, k: nat) {
    && 1 <= k && k + 1 < |s|
    && NoLineTerminator(s[..k])
    && IsWs(s[k])
    && k < TimeStart(s, k)
    && NoLineTerminator(s[TimeStart(s, k)..])
  }

  /** Smallest date-group end at or after `k`: the lazy `(.+?)`. */
  function FirstLabelMatch(s: string, k: nat): (r: Option<nat>)
    ensures r.Some? ==> k <= r.value && LabelMatchAt(s, r.value)
    ensures r.Some? ==> forall i :: k <= i < r.value ==> !LabelMatchAt(s, i)
    ensures r.None? ==> forall i :: k <= i ==> !LabelMatchAt(s, i)
    decreases |s| - k
  {
    if k + 1 >= |s| then None
    else if LabelMatchAt(s, k) then Some(k)
    else FirstLabelMatch(s, k + 1)
  }

  /** `dateTime.match(/^(.+?)\s+(.+)$/)`: the two groups, or the whole label and '' when it fails. */
  function SplitLabel(dateTime: string): (dt: (string, string))
    ensures StartsWith(dateTime, dt.0)
    ensures dt.0 != [] <==> dateTime != []
  {
    match FirstLabelMatch(dateTime, 1)
    case Some(k) => (dateTime[..k], dateTime[TimeStart(dateTime, k)..])
    case None => (dateTime, [])
  }

  /** The entry a data row becomes. */
  function MakeEntry(line: string, names: seq<string>): ScheduleEntry
  {
    var parts := Split(line, ',');
    var dt := SplitLabel(Trim(parts[0]));
    ScheduleEntry(dt.0, dt.1, StatusMap(Cells(parts), names, |names|))
  }

  /** One pass of the row loop: the entry pushed, if any. */
  function RowEntry(line: string, names: seq<string>): Option<ScheduleEntry>
  {
    if IsDataRow(line, |names|) then Some(MakeEntry(line, names)) else None
  }

  /** `entries` after the row loop has consumed `rows`. */
  function Entries(rows: seq<string>, names: seq<string>): seq<ScheduleEntry>
  {
    Collect(rows, line => RowEntry(line, names))
  }

  // ---------------------------------------------------------------------------
  // The whole parse

  /** `parseChoseisanCSV` as a value: the schedule, or the first failure met. */
  function Parse(text: string): Result<ScheduleData, ScheduleError>
  {
    var lines := Lines(text);
    if |lines| < 3 then Err(TooShort)
    else
      var title := FirstNonEmpty(lines);
      match FindHeader(lines, 0)
      case None => Err(NoHeader)
      case Some(h) =>
        var names := ParticipantNames(lines[h]);
        if names == [] then Err(NoParticipants)
        else
          var entries := Entries(lines[h + 1..], names);
          if entries == [] then Err(NoEntries)
          else Ok(ScheduleData(title, entries, names))
  }

  /** The header search loop: the first header line and its participant names, or -1. */
  method FindHeaderLine(lines: seq<string>) returns (headerIndex: int, participants: seq<string>)
    ensures headerIndex == -1 <==> FindHeader(lines, 0).None?
    ensures headerIndex != -1 ==> FindHeader(lines, 0) == Some(headerIndex)
    ensures headerIndex != -1 ==> participants == ParticipantNames(lines[headerIndex])
  {
    headerIndex := -1;
    participants := [];
    var i := 0;
    while i < |lines|
      invariant 0 <= i <= |lines|
      invariant headerIndex == -1 && participants == []
      invariant FindHeader(lines, 0) == FindHeader(lines, i)
    {
      var line := lines[i];
      if Contains(line, DateColumnMarker) || StartsWith(line, DateColumnMarker) {
        headerIndex := i;
        var parts := Split(line, ',');
        participants := KeepNames(parts[1..]);
        break;
      }
      i := i + 1;
    }
  }

  /** One pass of the status loop sets one more name. */
  lemma StatusMapStep(cells: seq<string>, names: seq<string>, j: nat)
    requires j < |names|
    ensures StatusMap(cells, names, j + 1) == StatusMap(cells, names, j)[names[j] := Field(cells, j + 1)]
  {
  }

  /** The inner loop that fills `participantData` for one row. */
  method ParticipantStatuses(parts: seq<string>, participants: seq<string>)
    returns (participantData: map<string, string>)
    ensures participantData == StatusMap(Cells(parts), participants, |participants|)
  {
    participantData := map[];
    var j := 0;
    while j < |participants|
      invariant 0 <= j <= |participants|
      invariant participantData == StatusMap(Cells(parts), participants, j)
    {
      var status := Field(Cells(parts), j + 1);
      StatusMapStep(Cells(parts), participants, j);
      participantData := participantData[participants[j] := status];
      j := j + 1;
    }
  }

  /** The entry the row loop pushes for a data row is the one `RowEntry` gives. */
  lemma PushedEntry(line: string, names: seq<string>, participantData: map<string, string>)
    requires !IsSkippedLine(line, |names|) && Trim(Split(line, ',')[0]) != []
    requires participantData == StatusMap(Cells(Split(line, ',')), names, |names|)
    ensures var dt := SplitLabel(Trim(Split(line, ',')[0]));
      RowEntry(line, names) == Some(ScheduleEntry(dt.0, dt.1, participantData))
  {
  }

  /** One pass of the row loop: the skip tests, then the entry for a data row. */
  method ProcessRow(line: string, participants: seq<string>) returns (pushed: Option<ScheduleEntry>)
    ensures pushed == RowEntry(line, participants)
  {
    if line == [] || StartsWith(line, CommentRowMarker) || line == Repeat(',', |participants|) {
      return None;
    }
    var parts := Split(line, ',');
    var dateTime := Trim(parts[0]);
    if dateTime == [] {
      return None;
    }
    var (date, time) := SplitLabel(dateTime);
    var participantData := ParticipantStatuses(parts, participants);
    PushedEntry(line, participants, participantData);
    return Some(ScheduleEntry(date, time, participantData));
  }

  /** One pass of the row loop appends the row's entry, if it has one. */
  lemma EntriesStep(rows: seq<string>, k: nat, names: seq<string>, pushed: Option<ScheduleEntry>)
    requires k < |rows| && pushed == RowEntry(rows[k], names)
    ensures Entries(rows[..k + 1], names) == Entries(rows[..k], names) + (if pushed.Some? then [pushed.value] else [])
  {
    CollectStep(rows, k, line => RowEntry(line, names), pushed);
  }

  /** The row loop over the lines after the header, pushing one entry per data row. */
  method CollectEntries(lines: seq<string>, headerIndex: nat, participants: seq<string>)
    returns (entries: seq<ScheduleEntry>)
    requires headerIndex < |lines|
    ensures entries == Entries(lines[headerIndex + 1..], participants)
  {
    var rows := lines[headerIndex + 1..];
    entries := [];
    var k := 0;
    while k < |rows|
      invariant 0 <= k <= |rows|
      invariant entries == Entries(rows[..k], participants)
    {
      var pushed := ProcessRow(rows[k], participants);
      EntriesStep(rows, k, participants, pushed);
      if pushed.Some? {
        entries := entries + [pushed.value];
      }
      k := k + 1;
    }
    assert rows[..k] == rows;
  }

  /** `parseChoseisanCSV`: the length check, the header search, the row loop, the final check. */
  method ParseChoseisanCsv(csvText: string) returns (r: Result<ScheduleData, ScheduleError>)
    ensures r == Parse(csvText)
  {
    var lines := Lines(csvText);
    if |lines| < 3 {
      return Err(TooShort);
    }
    var headerIndex, participants := FindHeaderLine(lines);
    if headerIndex == -1 {
      return Err(NoHeader);
    }
    if |participants| == 0 {
      return Err(NoParticipants);
    }
    var entries := CollectEntries(lines, headerIndex, participants);
    if |entries| == 0 {
      return Err(NoEntries);
    }
    // The title search has no effect, so taking it last instead of first changes nothing.
    var title := FirstNonEmpty(lines);
    return Ok(ScheduleData(title, entries, participants));
  }

  // ---------------------------------------------------------------------------
  // What a parse promises

  /** There is one line per newline of the trimmed text, plus one. */
  lemma LinesCount(text: string)
    ensures |Lines(text)| == multiset(Trim(text))['\n'] + 1
  {
    SplitCount(Trim(text), '\n');
  }

  /** Parsing fails as too short exactly when the trimmed text has fewer than two newlines. */
  lemma ParseTooShortIff(text: string)
    ensures Parse(text) == Err(TooShort) <==> |Lines(text)| < 3
    ensures Parse(text) == Err(TooShort) <==> multiset(Trim(text))['\n'] < 2
  {
    LinesCount(text);
  }

  /** A text without a newline, such as '' or 'invalid csv data', is too short. */
  lemma ParseSingleLine(text: string)
    requires '\n' !in text
    ensures Parse(text) == Err(TooShort)
  {
    TrimKeepsAbsence(text, '\n');
    SplitWithoutSeparator(Trim(text), '\n');
  }

  lemma ParseEmpty()
    ensures Parse("") == Err(TooShort)
  {
    ParseSingleLine("");
  }

  lemma ParseMalformed()
    ensures Parse("invalid csv data") == Err(TooShort)
  {
    ParseSingleLine("invalid csv data");
  }

  /** The first piece of a split starts with the first character when that is no separator. */
  lemma SplitFirstPiece(s: string, sep: char)
    requires s != [] && s[0] != sep
    ensures Split(s, sep)[0] != [] && Split(s, sep)[0][0] == s[0]
  {
  }

  /** On success the title is the first line of the trimmed text, non-empty and trimmed. */
  lemma ParseTitle(text: string)
    requires Parse(text).Ok?
    ensures Parse(text).value.title == Lines(text)[0]
    ensures Parse(text).value.title == Trim(Split(Trim(text), '\n')[0])
    ensures Parse(text).value.title != [] && IsTrimmed(Parse(text).value.title)
  {
    var t := Trim(text);
    LinesCount(text);
    assert t != [];
    assert !IsWs(t[0]);
    SplitFirstPiece(t, '\n');
    var piece := Split(t, '\n')[0];
    assert !AllWs(piece) by { assert !IsWs(piece[0]); }
    TrimIsTrimmed(piece);
  }

  /** The header is the first line containing `日程,`; the `startsWith` test adds nothing. */
  lemma HeaderTestIsContains(line: string)
    ensures IsHeaderLine(line) <==> Contains(line, DateColumnMarker)
  {
    if StartsWith(line, DateColumnMarker) {
      StartsWithContains(line, DateColumnMarker);
    }
  }

  /** Which failure a text meets, and what a success is made of. */
  lemma ParseOutcome(text: string)
    ensures var lines := Lines(text);
      && (Parse(text) == Err(NoHeader) <==>
            |lines| >= 3 && forall i :: 0 <= i < |lines| ==> !Contains(lines[i], DateColumnMarker))
      && (Parse(text) == Err(NoParticipants) <==>
            |lines| >= 3 && FindHeader(lines, 0).Some? && ParticipantNames(lines[FindHeader(lines, 0).value]) == [])
  {
    var lines := Lines(text);
    forall i | 0 <= i < |lines| {
      HeaderTestIsContains(lines[i]);
    }
  }

  /** With a header that names someone, the parse fails only when no later row is a data row. */
  lemma ParseNoEntries(text: string)
    requires |Lines(text)| >= 3 && FindHeader(Lines(text), 0).Some?
    requires ParticipantNames(Lines(text)[FindHeader(Lines(text), 0).value]) != []
    ensures var lines := Lines(text); var h := FindHeader(lines, 0).value;
      Parse(text) == Err(NoEntries) <==> forall i :: h < i < |lines| ==> !IsDataRow(lines[i], |ParticipantNames(lines[h])|)
  {
    var lines := Lines(text);
    var h := FindHeader(lines, 0).value;
    var names := ParticipantNames(lines[h]);
    var rows := lines[h + 1..];
    EntriesAreDataRows(rows, names);
    DataRowsAreTheDataRows(rows, |names|);
    forall i | h < i < |lines|
      ensures lines[i] == rows[i - h - 1]
    {
    }
  }

  /** A successful parse: its header line, the names in it, and the rows after it. */
  lemma ParseSuccess(text: string) returns (h: nat)
    requires Parse(text).Ok?
    ensures var lines, data := Lines(text), Parse(text).value;
      && h < |lines|
      && Contains(lines[h], DateColumnMarker)
      && (forall i :: 0 <= i < h ==> !Contains(lines[i], DateColumnMarker))
      && data.participants == ParticipantNames(lines[h]) && data.participants != []
      && data.entries == Entries(lines[h + 1..], data.participants) && data.entries != []
      && forall e :: e in data.entries ==> e.participants.Keys == NameSet(data.participants)
  {
    var lines := Lines(text);
    h := FindHeader(lines, 0).value;
    HeaderTestIsContains(lines[h]);
    forall i | 0 <= i < h {
      HeaderTestIsContains(lines[i]);
    }
    var names := ParticipantNames(lines[h]);
    var entries := Entries(lines[h + 1..], names);
    assert Parse(text) == Ok(ScheduleData(FirstNonEmpty(lines), entries, names));
    EntriesKeys(lines[h + 1..], names);
  }

  /** Every entry's marks are keyed by exactly the participant names. */
  lemma {:induction false} EntriesKeys(rows: seq<string>, names: seq<string>)
    ensures forall e :: e in Entries(rows, names) ==> e.participants.Keys == NameSet(names)
  {
    if rows != [] {
      EntriesKeys(rows[..|rows| - 1], names);
      StatusMapKeys(Cells(Split(rows[|rows| - 1], ',')), names, |names|);
      assert names[..|names|] == names;
    }
  }

  lemma {:induction false} StatusMapKeys(cells: seq<string>, names: seq<string>, k: nat)
    requires k <= |names|
    ensures StatusMap(cells, names, k).Keys == NameSet(names[..k])
  {
    if k > 0 {
      StatusMapKeys(cells, names, k - 1);
      assert names[..k] == names[..k - 1] + [names[k - 1]];
    }
  }

  /** A name's mark is the field of its last column, or '' past the end of the row. */
  lemma {:induction false} StatusMapValue(cells: seq<string>, names: seq<string>, k: nat, j: nat)
    requires j < k <= |names|
    requires forall i :: j < i < k ==> names[i] != names[j]
    ensures names[j] in StatusMap(cells, names, k)
    ensures StatusMap(cells, names, k)[names[j]] == Field(cells, j + 1)
  {
    if j < k - 1 {
      StatusMapValue(cells, names, k - 1, j);
    }
  }

  /** Trimming a row field by field commutes with appending columns. */
  lemma CellsAppend(parts: seq<string>, extra: seq<string>)
    ensures Cells(parts + extra) == Cells(parts) + Cells(extra)
  {
    MapSeqAppend(Trim, parts, extra);
  }

  /** Columns past the first `k` names' do not change their marks. */
  lemma {:induction false} StatusMapOfLongerRow(cells: seq<string>, extra: seq<string>, names: seq<string>, k: nat)
    requires k <= |names| && k < |cells|
    ensures StatusMap(cells + extra, names, k) == StatusMap(cells, names, k)
  {
    if k > 0 {
      assert (cells + extra)[k] == cells[k];
      StatusMapOfLongerRow(cells, extra, names, k - 1);
    }
  }

  /** Columns past the participants' do not change any mark. */
  lemma StatusMapIgnoresExtraColumns(parts: seq<string>, extra: seq<string>, names: seq<string>)
    requires |names| < |parts|
    ensures StatusMap(Cells(parts + extra), names, |names|) == StatusMap(Cells(parts), names, |names|)
  {
    CellsAppend(parts, extra);
    StatusMapOfLongerRow(Cells(parts), Cells(extra), names, |names|);
  }

  /** The data rows among `rows`, in order: `rows.filter(IsDataRow)`. */
  function DataRows(rows: seq<string>, n: nat): seq<string> {
    if rows == [] then []
    else if IsDataRow(rows[0], n) then [rows[0]] + DataRows(rows[1..], n)
    else DataRows(rows[1..], n)
  }

  /** There are no data rows exactly when no row is one. */
  lemma {:induction false} DataRowsAreTheDataRows(rows: seq<string>, n: nat)
    ensures DataRows(rows, n) == [] <==> forall i :: 0 <= i < |rows| ==> !IsDataRow(rows[i], n)
  {
    if rows != [] {
      DataRowsAreTheDataRows(rows[1..], n);
      if DataRows(rows, n) == [] {
        forall i | 0 <= i < |rows|
          ensures !IsDataRow(rows[i], n)
        {
          if i > 0 {
            assert rows[i] == rows[1..][i - 1];
          }
        }
      }
    }
  }

  lemma {:induction false} DataRowsSnoc(rows: seq<string>, row: string, n: nat)
    ensures DataRows(rows + [row], n) == DataRows(rows, n) + (if IsDataRow(row, n) then [row] else [])
  {
    if rows == [] {
      assert [row][1..] == [];
    } else {
      assert (rows + [row])[1..] == rows[1..] + [row];
      DataRowsSnoc(rows[1..], row, n);
    }
  }

  /** The entries are the data rows after the header, one each, in source order. */
  lemma {:induction false} EntriesAreDataRows(rows: seq<string>, names: seq<string>)
    ensures |Entries(rows, names)| == |DataRows(rows, |names|)|
    ensures forall k :: 0 <= k < |Entries(rows, names)| ==>
      Entries(rows, names)[k] == MakeEntry(DataRows(rows, |names|)[k], names)
  {
    if rows != [] {
      var init, last := rows[..|rows| - 1], rows[|rows| - 1];
      EntriesAreDataRows(init, names);
      assert rows == init + [last];
      DataRowsSnoc(init, last, |names|);
    }
  }

  /** Blank rows, comment rows, all-comma rows and rows with a blank first field add no entry. */
  lemma SkippedRowAddsNothing(rows: seq<string>, line: string, names: seq<string>)
    requires line == [] || StartsWith(line, CommentRowMarker) || line == Repeat(',', |names|) || Trim(Split(line, ',')[0]) == []
    ensures Entries(rows + [line], names) == Entries(rows, names)
  {
    assert (rows + [line])[..|rows|] == rows;
  }

  /**
   * The entry of a data row: a non-empty date that starts its trimmed label,
   * a mark for exactly the participants, and for each name the trimmed field
   * of its last column.
   */
  lemma RowEntryShape(line: string, names: seq<string>)
    ensures var r, cells := RowEntry(line, names), Cells(Split(line, ','));
      r.Some? ==>
        && r.value.date != [] && StartsWith(Trim(Split(line, ',')[0]), r.value.date)
        && r.value.participants.Keys == NameSet(names)
        && forall j :: 0 <= j < |names| && (forall i :: j < i < |names| ==> names[i] != names[j])
             ==> r.value.participants[names[j]] == Field(cells, j + 1)
  {
    var r, cells := RowEntry(line, names), Cells(Split(line, ','));
    if r.Some? {
      StatusMapKeys(cells, names, |names|);
      assert names[..|names|] == names;
      forall j | 0 <= j < |names| && (forall i :: j < i < |names| ==> names[i] != names[j])
        ensures r.value.participants[names[j]] == Field(cells, j + 1)
      {
        StatusMapValue(cells, names, |names|, j);
      }
    }
  }

  /** The all-comma test is subsumed by the empty-label test. */
  lemma AllCommasHaveEmptyLabel(n: nat)
    requires n > 0
    ensures Trim(Split(Repeat(',', n), ',')[0]) == []
  {
    assert Repeat(',', n)[0] == ',';
  }

  /** A label without whitespace is all date and no time. */
  lemma LabelWithoutWhitespace(dateTime: string)
    requires forall i :: 0 <= i < |dateTime| ==> !IsWs(dateTime[i])
    ensures SplitLabel(dateTime) == (dateTime, [])
  {
  }

  /** Position of the first whitespace character at or after `i`. */
  function FirstWs(s: string, i: nat): (p: nat)
    requires i <= |s|
    ensures i <= p <= |s| && (p < |s| ==> IsWs(s[p]))
    ensures forall k :: i <= k < p ==> !IsWs(s[k])
    decreases |s| - i
  {
    if i == |s| || IsWs(s[i]) then i else FirstWs(s, i + 1)
  }

  lemma {:induction false} FirstLabelMatchSkips(s: string, k: nat, p: nat)
    requires k <= p && LabelMatchAt(s, p)
    requires forall i :: k <= i < p ==> !LabelMatchAt(s, i)
    ensures FirstLabelMatch(s, k) == Some(p)
    decreases p - k
  {
    if k < p {
      FirstLabelMatchSkips(s, k + 1, p);
    }
  }

  /**
   * A trimmed label without line terminators splits at its first whitespace:
   * the date is everything before it and holds no whitespace, the time is
   * everything after the whitespace run.
   */
  lemma LabelSplitsAtFirstWhitespace(dateTime: string)
    requires IsTrimmed(dateTime) && NoLineTerminator(dateTime)
    requires exists i :: 0 <= i < |dateTime| && IsWs(dateTime[i])
    ensures var p := FirstWs(dateTime, 0);
      && SplitLabel(dateTime) == (dateTime[..p], dateTime[WsRunEnd(dateTime, p)..])
      && 0 < p < WsRunEnd(dateTime, p) < |dateTime|
      && (forall i :: 0 <= i < p ==> !IsWs(dateTime[i]))
  {
    var s := dateTime;
    var p := FirstWs(s, 0);
    var w :| 0 <= w < |s| && IsWs(s[w]);
    assert p <= w;
    assert p > 0;
    assert p < |s| - 1;
    assert WsRunEnd(s, p) < |s|;
    assert LabelMatchAt(s, p);
    forall i | 1 <= i < p
      ensures !LabelMatchAt(s, i)
    {
    }
    FirstLabelMatchSkips(s, 1, p);
  }

  lemma SampleLabel()
    ensures SplitLabel("7/14(月) 19:00〜") == ("7/14(月)", "19:00〜")
  {
    var s := "7/14(月) 19:00〜";
    assert IsWs(s[7]);
    assert FirstWs(s, 0) == 7;
    assert WsRunEnd(s, 7) == 8;
    LabelSplitsAtFirstWhitespace(s);
    assert s[..7] == "7/14(月)";
    assert s[8..] == "19:00〜";
  }

  // ---------------------------------------------------------------------------
  // One participant's confirmed slots

  /** `entry.participants[name] === '◯'`. */
  predicate IsConfirmed(entry: ScheduleEntry, name: string) {
    name in entry.participants && entry.participants[name] == ConfirmedMark
  }

  /** `entries.filter(entry => entry.participants[name] === '◯')`. */
  function ConfirmedEntries(entries: seq<ScheduleEntry>, name: string): (r: seq<ScheduleEntry>)
    ensures IsSubsequence(r, entries)
    ensures forall i :: 0 <= i < |r| ==> IsConfirmed(r[i], name)
    ensures forall i :: 0 <= i < |entries| && IsConfirmed(entries[i], name) ==> entries[i] in r
  {
    if entries == [] then []
    else if IsConfirmed(entries[0], name) then [entries[0]] + ConfirmedEntries(entries[1..], name)
    else ConfirmedEntries(entries[1..], name)
  }

  /** How many entries carry a ◯ for `name`, counted from the end. */
  function CountConfirmed(entries: seq<ScheduleEntry>, name: string): nat {
    if entries == [] then 0
    else CountConfirmed(entries[..|entries| - 1], name) + (if IsConfirmed(entries[|entries| - 1], name) then 1 else 0)
  }

  lemma {:induction false} ConfirmedEntriesSnoc(entries: seq<ScheduleEntry>, e: ScheduleEntry, name: string)
    ensures ConfirmedEntries(entries + [e], name)
         == ConfirmedEntries(entries, name) + (if IsConfirmed(e, name) then [e] else [])
  {
    if entries == [] {
      assert [e][1..] == [];
    } else {
      assert (entries + [e])[1..] == entries[1..] + [e];
      ConfirmedEntriesSnoc(entries[1..], e, name);
    }
  }

  /** The filter keeps every ◯ entry: as many as there are. */
  lemma {:induction false} ConfirmedCount(entries: seq<ScheduleEntry>, name: string)
    ensures |ConfirmedEntries(entries, name)| == CountConfirmed(entries, name) <= |entries|
  {
    if entries != [] {
      var init, last := entries[..|entries| - 1], entries[|entries| - 1];
      ConfirmedCount(init, name);
      assert entries == init + [last];
      ConfirmedEntriesSnoc(init, last, name);
    }
  }

  /** Every entry the filter keeps is one of the entries, with a ◯ for `name`. */
  lemma {:induction false} ConfirmedEntriesFrom(entries: seq<ScheduleEntry>, name: string)
    ensures forall e :: e in ConfirmedEntries(entries, name) ==> e in entries && IsConfirmed(e, name)
  {
    if entries != [] {
      ConfirmedEntriesFrom(entries[1..], name);
    }
  }

  /** `getParticipantSchedule`: the trimmed name must be a participant; then its ◯ entries. */
  function GetParticipantSchedule(data: ScheduleData, participantName: string): (r: Result<seq<ScheduleEntry>, ScheduleError>)
    ensures r.Err? <==> Trim(participantName) !in data.participants
    ensures r.Err? ==> r.error == UnknownParticipant(Trim(participantName), data.participants)
    ensures r.Ok? ==> IsSubsequence(r.value, data.entries)
    ensures r.Ok? ==> forall i :: 0 <= i < |r.value| ==> IsConfirmed(r.value[i], Trim(participantName))
    ensures r.Ok? ==> forall i :: 0 <= i < |data.entries| && IsConfirmed(data.entries[i], Trim(participantName))
                        ==> data.entries[i] in r.value
  {
    var trimmedName := Trim(participantName);
    if trimmedName !in data.participants then Err(UnknownParticipant(trimmedName, data.participants))
    else Ok(ConfirmedEntries(data.entries, trimmedName))
  }

  /**
   * The requested name is trimmed before the lookup, but header names are kept
   * as written: a header name with surrounding whitespace can never be selected.
   */
  lemma UntrimmedNameUnreachable(data: ScheduleData, participant: string, participantName: string)
    requires participant in data.participants && !IsTrimmed(participant)
    ensures GetParticipantSchedule(data, participantName).Ok? ==> Trim(participantName) != participant
  {
    TrimIsTrimmed(participantName);
  }

  /** The schedule of the sample export (ゆる飲み, Aさん and Bさん, three evenings). */
  function SampleSchedule(): ScheduleData {
    ScheduleData("ゆる飲み",
      [ ScheduleEntry("7/14(月)", "19:00〜", map["Aさん" := "◯", "Bさん" := "◯"]),
        ScheduleEntry("7/15(火)", "19:00〜", map["Aさん" := "◯", "Bさん" := "△"]),
        ScheduleEntry("7/16(水)", "19:00〜", map["Aさん" := "◯", "Bさん" := "×"]) ],
      ["Aさん", "Bさん"])
  }

  lemma SampleFirstParticipant()
    ensures GetParticipantSchedule(SampleSchedule(), "Aさん") == Ok(SampleSchedule().entries)
  {
    TrimFixesTrimmed("Aさん");
    var es := SampleSchedule().entries;
    assert IsConfirmed(es[0], "Aさん") && IsConfirmed(es[1], "Aさん") && IsConfirmed(es[2], "Aさん");
    assert ConfirmedEntries(es[2..], "Aさん") == [es[2]];
    assert es[1..][1..] == es[2..];
    assert ConfirmedEntries(es[1..], "Aさん") == [es[1], es[2]];
    assert ConfirmedEntries(es, "Aさん") == [es[0], es[1], es[2]];
    assert [es[0], es[1], es[2]] == es;
  }

  lemma SampleSecondParticipant()
    ensures GetParticipantSchedule(SampleSchedule(), "Bさん") == Ok(SampleSchedule().entries[..1])
  {
    assert SampleSchedule().entries[..1] == [SampleSchedule().entries[0]];
    TrimFixesTrimmed("Bさん");
    var es := SampleSchedule().entries;
    assert IsConfirmed(es[0], "Bさん") && !IsConfirmed(es[1], "Bさん") && !IsConfirmed(es[2], "Bさん");
    assert ConfirmedEntries(es[2..], "Bさん") == [];
    assert es[1..][1..] == es[2..];
    assert ConfirmedEntries(es[1..], "Bさん") == [];
    assert ConfirmedEntries(es, "Bさん") == [es[0]];
  }

  lemma SampleTrimmedName()
    ensures Trim(" Cさん ") == "Cさん"
  {
  }

  lemma SampleUnknownParticipant()
    ensures GetParticipantSchedule(SampleSchedule(), " Cさん ") == Err(UnknownParticipant("Cさん", ["Aさん", "Bさん"]))
  {
    SampleTrimmedName();
  }

  // ---------------------------------------------------------------------------
  // Reading text back

  /** The characters of `{date} {time}`, position by position. */
  lemma LabelChars(date: string, time: string)
    requires date != [] && time != [] && NoWs(date) && NoWs(time)
    ensures var s, n := date + " " + time, |date|;
      && IsTrimmed(s) && NoLineTerminator(s)
      && NoWs(s[..n]) && IsWs(s[n]) && !IsWs(s[n + 1])
      && s[..n] == date && s[n + 1..] == time
  {
    var s, n := date + " " + time, |date|;
    assert s[0] == date[0] && s[|s| - 1] == time[|time| - 1];
    assert s[..n] == date;
    assert s[n + 1..] == time;
    forall i | 0 <= i < |s|
      ensures !IsLineTerminator(s[i])
    {
      if i < n {
        assert s[i] == s[..n][i];
      } else if n < i {
        assert s[i] == s[n + 1..][i - n - 1];
      }
    }
  }

  /** The first whitespace of `s` is at `n` when `n` is whitespace and nothing before it is. */
  lemma FirstWsIs(s: string, n: nat)
    requires n < |s| && NoWs(s[..n]) && IsWs(s[n])
    ensures FirstWs(s, 0) == n
  {
  }

  /** A slot label `{date} {time}` splits into its date and time, and is already trimmed. */
  lemma LabelOf(date: string, time: string)
    requires date != [] && time != [] && NoWs(date) && NoWs(time)
    ensures Trim(date + " " + time) == date + " " + time
    ensures SplitLabel(date + " " + time) == (date, time)
  {
    var s, n := date + " " + time, |date|;
    LabelChars(date, time);
    TrimFixesTrimmed(s);
    FirstWsIs(s, n);
    assert WsRunEnd(s, n + 1) == n + 1;
    LabelSplitsAtFirstWhitespace(s);
  }

  /** Fields that are already trimmed come out of `Cells` unchanged. */
  lemma CellsOfTrimmed(parts: seq<string>)
    requires forall i :: 0 <= i < |parts| ==> IsTrimmed(parts[i])
    ensures Cells(parts) == parts
  {
    forall i | 0 <= i < |parts|
      ensures Cells(parts)[i] == parts[i]
    {
      TrimFixesTrimmed(parts[i]);
    }
  }

  /** Lines joined by newlines split back into those lines, when each is trimmed and the whole is too. */
  lemma LinesOfJoin(lines: seq<string>)
    requires lines != []
    requires forall i :: 0 <= i < |lines| ==> IsTrimmed(lines[i]) && '\n' !in lines[i]
    requires IsTrimmed(Join(lines, "\n"))
    ensures Lines(Join(lines, "\n")) == lines
  {
    var text := Join(lines, "\n");
    TrimFixesTrimmed(text);
    SplitJoin(lines, '\n');
    assert Split(Trim(text), '\n') == lines;
    forall i | 0 <= i < |lines|
      ensures Lines(text)[i] == lines[i]
    {
      TrimFixesTrimmed(lines[i]);
    }
  }

  /** A line without `日` is no header line. */
  lemma NoMarkerChar(line: string)
    requires '日' !in line
    ensures !IsHeaderLine(line)
  {
    assert DateColumnMarker[0] == '日';
  }

  /** A header whose fields all pass the filter keeps them all. */
  lemma {:induction false} KeepAll(fields: seq<string>)
    requires forall i :: 0 <= i < |fields| ==> IsNameField(fields[i])
    ensures KeepNames(fields) == fields
    decreases |fields|
  {
    if fields != [] {
      KeepAll(fields[1..]);
      assert [fields[0]] + fields[1..] == fields;
    }
  }

  /** Lines whose third is the first header line, read as those names and entries. */
  predicate ReadsAs(lines: seq<string>, names: seq<string>, entries: seq<ScheduleEntry>) {
    && |lines| >= 3 && lines[0] != []
    && !IsHeaderLine(lines[0]) && !IsHeaderLine(lines[1]) && IsHeaderLine(lines[2])
    && ParticipantNames(lines[2]) == names && names != []
    && Entries(lines[3..], names) == entries && entries != []
  }

  /** A text whose lines read as names and entries parses to its first line, those names and entries. */
  lemma ParseOfLines(text: string, lines: seq<string>, names: seq<string>, entries: seq<ScheduleEntry>)
    requires Lines(text) == lines && ReadsAs(lines, names, entries)
    ensures Parse(text) == Ok(ScheduleData(lines[0], entries, names))
  {
    assert FirstNonEmpty(lines) == lines[0] by {
      assert AllEmpty(lines[..0]);
    }
    assert FindHeader(lines, 0) == Some(2) by {
      assert FindHeader(lines, 1) == Some(2);
    }
    assert lines[2 + 1..] == lines[3..];
    assert Entries(lines[2 + 1..], ParticipantNames(lines[2])) == entries;
  }
}
