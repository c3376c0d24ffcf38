# choseisan-ical core, modelled in Dafny

choseisan-ical turns a chouseisan (調整さん) scheduling poll into an iCalendar
file for one participant. It has three steps:

- **Parse the poll's CSV export.** The export has a title line and a header
  line marked by `日程,` that names the participants. After that comes one row
  per candidate slot, holding each participant's mark: ◯ available, △ maybe,
  × unavailable.
- **Select the participant's ◯ slots.** Each slot whose date and time labels
  parse becomes a two-hour event with a deterministic UID.
- **Name the file.** The name is the poll id taken from the URL, or the
  `schedule` fallback, followed by the base64 of the participant's name in
  UTF-8.

The input form also decides which mode the filled-in fields select, and
whether a URL is a poll URL.

The project has these modules:

- `Wrappers`: `Option` and `Result`.
- `Text`: the JavaScript string primitives the core uses. These are `trim()`,
  `split()` on one character, `join()`, `startsWith()`, `includes()`,
  `repeat()`, and `parseInt` of a digit run. Whitespace is the ECMAScript
  WhiteSpace and LineTerminator set.
- `Utf`: UTF-16 code units, which is what `charCodeAt` walks, and UTF-8 bytes
  as defined in section 3 of RFC 3629.
- `Base64`: padded base64 as defined in section 4 of RFC 4648, with its
  decoder and the round trip.
- `Hash`: the UID hash, which is a 32-bit `31 * h + unit` fold over UTF-16
  units, printed in base 36.
- `Seqs`: the loop shape that pushes at most one item per element, shared by
  the row loop of the parser and the event loop of the generator, and its
  properties.
- `CsvParser`: `parseChoseisanCSV` and `getParticipantSchedule`.
  - `Parse` is the parse written as a function.
  - `ParseChoseisanCsv` is the parse as the source runs it: a header loop, a
    row loop and a status loop, each proved equal to its function.
- `CsvSample`: the sample export of the parser's tests, with the proof that
  `Parse` reads it as the schedule the tests expect.
- `IcalGenerator`: the parts of the generator that produce the event list.
  - `extractChouseisanId` and `generateFilename`.
  - `parseJapaneseDate` and the event fields.
  - A `Calendar` class whose `CreateEvent` appends to its event list.
  - `GenerateICalForParticipant`, whose loop is proved to build the event list
    that `ICalEvents` specifies.
- `Validation`: `determineInputMode`, and the accept/reject decision of
  `validateChouseisanUrl`.

Some behaviours of the code are worth stating outright:

- **Too-short test.** It counts every line of the trimmed text after
  `split('\n')`, blank lines included, not only the non-blank ones.
- **Header test.** It is `includes('日程,')`, so the marker may appear anywhere
  in the line. The `startsWith('日程,')` half of the test adds nothing.
- **Label split.** In the regular expression `^(.+?)\s+(.+)$`, `.` does not
  match `\n`, `\r`, U+2028 or U+2029. A label therefore matches only at a split
  point where every line terminator lies in the whitespace run between the two
  groups. A label with no such split point is left whole as the date.
  - `LabelSplitsAtFirstWhitespace` states the first-whitespace split for
    labels without line terminators.
- **Header names.** They are not trimmed, while the requested name is.
  - A header field such as ` Aさん` becomes a participant that no request can
    select (`UntrimmedNameUnreachable`).

## Model

| member | source | states |
|---|---|---|
| `Text.Trim` | choseisan-ical/src/csvParser.ts:15 | `trim()` returns the slice that starts after the leading whitespace and is followed only by whitespace. The result is empty or starts and ends with non-whitespace. It is empty exactly when the input is all whitespace. |
| `Text.TrimIdempotent` | choseisan-ical/src/csvParser.ts:15 | `trim()` applied twice equals `trim()` applied once. |
| `Text.Split` | choseisan-ical/src/csvParser.ts:57 | `split()` on one character always yields at least one piece. The lemmas below pin the pieces down. |
| `Text.Join` | choseisan-ical/src/csvParser.ts:96 | No contract of its own. `JoinSplit` proves it inverts `split`, and `CsvParser.Message` that every joined name occurs in the text. |
| `Text.SplitJoin` | choseisan-ical/src/csvParser.ts:15 | Splitting parts joined by a one-character separator that none of them holds gives the parts back, the converse of `JoinSplit`. |
| `Text.SplitPiecesLackSeparator` | choseisan-ical/src/csvParser.ts:57 | No piece of `split(',')` contains a comma. |
| `Text.JoinSplit` | choseisan-ical/src/csvParser.ts:15 | Joining the pieces of a split with the separator gives back the text, so `split` loses nothing. |
| `Text.SplitCount` | choseisan-ical/src/csvParser.ts:15 | A split has exactly one more piece than the text has separators. |
| `Text.DigitRunEnd` | choseisan-ical/src/icalGenerator.ts:78 | The greedy `\d+` run ends at the first non-digit or at the end of the text. |
| `Text.DecimalRoundTrip` | choseisan-ical/src/icalGenerator.ts:81-82 | `parseInt(…, 10)` of a number's shortest decimal spelling gives the number back. |
| `Utf.Utf16Char` | choseisan-ical/src/icalGenerator.ts:104-105 | `charCodeAt` sees one unit below U+10000 and a high/low surrogate pair above it, and the units decode back to the code point. |
| `Utf.Utf16` | choseisan-ical/src/icalGenerator.ts:104-105 | The units `charCodeAt` walks: at least one per character, each below 0x10000. |
| `Utf.Utf8Char` | choseisan-ical/src/icalGenerator.ts:35-36 | `TextEncoder` writes 1 to 4 bytes per code point: lead byte in the RFC 3629 range, continuation bytes after it, decoding back to the code point. |
| `Utf.Utf8` | choseisan-ical/src/icalGenerator.ts:35-36 | `TextEncoder` output has between one and four bytes per character. |
| `Utf.Utf8Append` | choseisan-ical/src/icalGenerator.ts:35-36 | The UTF-8 of a concatenation is the concatenation of the UTF-8 encodings. |
| `Utf.Utf8Ascii` | choseisan-ical/src/icalGenerator.ts:35-36 | ASCII text encodes to one byte per character, equal to its code. |
| `Base64.SymbolValueOfSymbol` | choseisan-ical/src/icalGenerator.ts:38 | Each of the 64 alphabet symbols reads back as its own index. |
| `Base64.Encode` | choseisan-ical/src/icalGenerator.ts:37-38 | `btoa` output has 4 characters per started group of 3 bytes. |
| `Base64.EncodeAlphabet` | choseisan-ical/src/icalGenerator.ts:37-38 | The output is alphabet symbols, then exactly as many `=` as the last group needs (0, 2 or 1). |
| `Base64.DecodeEncode` | choseisan-ical/src/icalGenerator.ts:33-39 | Decoding the encoding of any byte string gives the byte string back. |
| `Hash.ToInt32` | choseisan-ical/src/icalGenerator.ts:107 | `hash & hash` yields the 32-bit two's-complement value congruent to the sum modulo 2^32. |
| `Hash.Step` | choseisan-ical/src/icalGenerator.ts:106-107 | One loop pass keeps the accumulator a 32-bit signed value. |
| `Hash.StepIsTimes31` | choseisan-ical/src/icalGenerator.ts:106-107 | `(hash << 5) - hash + char`, wrapped, equals `31 * hash + char` modulo 2^32. |
| `Hash.FoldIsPolynomial` | choseisan-ical/src/icalGenerator.ts:103-108 | The accumulator after the loop is the base-31 polynomial of the code units, reduced to 32 bits. |
| `Hash.Base36RoundTrip` | choseisan-ical/src/icalGenerator.ts:109 | `toString(36)` reads back as the number, so distinct absolute values print differently. |
| `Hash.HashOf` | choseisan-ical/src/icalGenerator.ts:102-110 | No contract of its own. `HashCode` proves the loop computes it, and `HashShape`, `FoldIsPolynomial` and `Base36RoundTrip` state what it is. |
| `Hash.HashCode` | choseisan-ical/src/icalGenerator.ts:102-110 | The loop over `charCodeAt(i)` returns the base-36 absolute value of the 32-bit fold, `HashOf(s)`. |
| `Hash.HashShape` | choseisan-ical/src/icalGenerator.ts:109 | A hash is a non-empty lower-case base-36 numeral of a value at most 2^31. |
| `Hash.HashOfEmpty` | choseisan-ical/src/icalGenerator.ts:102-110 | The empty string hashes to `0`. |
| `Seqs.CollectAppend` | choseisan-ical/src/icalGenerator.ts:56-69 | A loop that pushes at most one item per element pushes, over two runs, the items of the first run and then those of the second. |
| `Seqs.CollectLength` | choseisan-ical/src/csvParser.ts:49-79 | Such a loop pushes at most one item per element, and exactly one each when every element yields one. |
| `Seqs.CollectFrom` | choseisan-ical/src/csvParser.ts:49-79 | Every pushed item is the item of one of the elements. |
| `CsvParser.Message` | choseisan-ical/src/csvParser.ts:92-97 | The unknown-participant error text contains the requested name and every available name. |
| `CsvParser.Lines` | choseisan-ical/src/csvParser.ts:15 | There is one line per piece of `split('\n')` of the trimmed text. |
| `CsvParser.LinesCount` | choseisan-ical/src/csvParser.ts:15 | There is one line more than the trimmed text has `\n` characters. |
| `CsvParser.LinesOfJoin` | choseisan-ical/src/csvParser.ts:15 | Trimmed lines without `\n`, joined by `\n` into a trimmed text, read back as exactly those lines. |
| `CsvParser.FirstNonEmpty` | choseisan-ical/src/csvParser.ts:22 | The title is the first non-empty line: a non-empty line preceded only by empty lines is the title. A non-empty title is one of the lines, and an empty one means every line is empty. |
| `CsvParser.IsHeaderLine` | choseisan-ical/src/csvParser.ts:30 | No contract of its own. `HeaderTestIsContains` states that it is the `includes('日程,')` test alone, and `FindHeader` that the loop stops at the first line passing it. |
| `CsvParser.FindHeader` | choseisan-ical/src/csvParser.ts:28-36 | Finds the first header line at or after the start index, with no header line before it, or reports that there is none. |
| `CsvParser.HeaderTestIsContains` | choseisan-ical/src/csvParser.ts:30 | The `startsWith('日程,')` half of the header test adds nothing to `includes('日程,')`. |
| `CsvParser.KeepNames` | choseisan-ical/src/csvParser.ts:33 | The participant filter keeps the header fields, in order, that are non-blank and not `コメント`. Each kept name occurs as often as in the header, so duplicates are kept. |
| `CsvParser.ParticipantNames` | choseisan-ical/src/csvParser.ts:32-33 | No contract of its own. It is `KeepNames` of the header fields after the first, so `KeepNames` states which names it keeps. `ParseSuccess` states that a successful parse carries them. |
| `CsvParser.NoMarkerChar` | choseisan-ical/src/csvParser.ts:30 | A line without `日` is not a header line. |
| `CsvParser.KeepAll` | choseisan-ical/src/csvParser.ts:33 | When every field passes the name filter, the filter keeps them all, in order. |
| `CsvParser.FirstLabelMatch` | choseisan-ical/src/csvParser.ts:63 | The lazy `(.+?)` takes the smallest date-group end at which the rest of the pattern matches. |
| `CsvParser.SplitLabel` | choseisan-ical/src/csvParser.ts:63-65 | The date is a prefix of the label, and it is non-empty exactly when the label is. |
| `CsvParser.LabelOf` | choseisan-ical/src/csvParser.ts:57-65 | A label `{date} {time}`, whose date and time are non-empty and free of whitespace, is already trimmed and splits back into that date and time. |
| `CsvParser.IsDataRow` | choseisan-ical/src/csvParser.ts:53-60 | No contract of its own. It is the condition under which a row is not skipped: not blank, not a `コメント,` row, not all commas, and with a non-blank first field. |
| `CsvParser.StatusMap` | choseisan-ical/src/csvParser.ts:67-72 | No contract of its own. `StatusMapKeys`, `StatusMapValue` and `StatusMapIgnoresExtraColumns` state what it holds. |
| `CsvParser.MakeEntry` | choseisan-ical/src/csvParser.ts:57-78 | No contract of its own. `RowEntryShape` states the entry it builds. |
| `CsvParser.RowEntry` | choseisan-ical/src/csvParser.ts:53-78 | No contract of its own. `RowEntryShape` states the entry a data row gives, `SkippedRowAddsNothing` that the four skip cases give none, and `ProcessRow` that one pass of the loop pushes it. |
| `CsvParser.RowEntryShape` | choseisan-ical/src/csvParser.ts:57-78 | A row's entry has a non-empty date that starts its trimmed label. Its marks are keyed by exactly the participants. Each name's mark is the trimmed field of its last column, or `''` past the end of the row. |
| `CsvParser.Entries` | choseisan-ical/src/csvParser.ts:46-79 | No contract of its own. `EntriesAreDataRows`, `EntriesKeys` and `SkippedRowAddsNothing` state what the row loop pushes. |
| `CsvParser.Parse` | choseisan-ical/src/csvParser.ts:14-90 | No contract of its own. `ParseTooShortIff`, `ParseOutcome`, `ParseNoEntries`, `ParseTitle` and `ParseSuccess` state each outcome. |
| `CsvParser.ParseOfLines` | choseisan-ical/src/csvParser.ts:14-90 | When the third line is the first header line, the names in it are non-empty and the rows after it give entries, the parse succeeds. The title is the first line, and the names and entries are those. |
| `CsvParser.FindHeaderLine` | choseisan-ical/src/csvParser.ts:25-36 | The header loop returns -1 exactly when there is no header line. Otherwise it returns the first one and the participants named in it. |
| `CsvParser.ParticipantStatuses` | choseisan-ical/src/csvParser.ts:67-72 | The status loop builds the map `StatusMap` of each participant's trimmed field. |
| `CsvParser.ProcessRow` | choseisan-ical/src/csvParser.ts:50-78 | One pass of the row loop pushes exactly the entry `RowEntry` gives for that line, or nothing for a skipped row. |
| `CsvParser.CollectEntries` | choseisan-ical/src/csvParser.ts:46-79 | The row loop pushes exactly the entries `Entries` of the rows after the header. |
| `CsvParser.ParseChoseisanCsv` | choseisan-ical/src/csvParser.ts:14-90 | The parse returns `Parse(csvText)`, the schedule or the first failure met, characterised by the lemmas below. |
| `CsvParser.ParseTooShortIff` | choseisan-ical/src/csvParser.ts:15-19 | The parse fails as too short exactly when there are fewer than 3 lines, that is, fewer than two `\n` in the trimmed text. |
| `CsvParser.ParseSingleLine` | choseisan-ical/src/csvParser.ts:17-19 | A text without a newline is always too short. |
| `CsvParser.ParseEmpty` | choseisan-ical/tests/csvParser.test.ts:47-51 | `''` fails as too short. |
| `CsvParser.ParseMalformed` | choseisan-ical/tests/csvParser.test.ts:53-57 | `'invalid csv data'` fails as too short. |
| `CsvParser.ParseTitle` | choseisan-ical/src/csvParser.ts:22 | On success the title is the first line, which is non-empty and trimmed. |
| `CsvParser.ParseOutcome` | choseisan-ical/src/csvParser.ts:28-44 | The parse fails with no header exactly when no line contains `日程,`. It fails with no participants exactly when the first header line names nobody. |
| `CsvParser.ParseNoEntries` | choseisan-ical/src/csvParser.ts:49-83 | Once the header names someone, the parse fails with no entries exactly when no later line is a data row. |
| `CsvParser.ParseSuccess` | choseisan-ical/src/csvParser.ts:28-89 | A success has a first header line `h` and the participants named in it, which are non-empty. Its entries are those of the rows after `h`, also non-empty. Every entry's marks have exactly the participants as keys. |
| `CsvParser.DataRowsAreTheDataRows` | choseisan-ical/src/csvParser.ts:49-79 | The filtered data rows are empty exactly when no row is a data row. |
| `CsvParser.EntriesKeys` | choseisan-ical/src/csvParser.ts:67-72 | Every entry's status map has exactly the participant names as keys. |
| `CsvParser.StatusMapKeys` | choseisan-ical/src/csvParser.ts:69-72 | After `k` passes of the status loop, the map's keys are the first `k` names. |
| `CsvParser.StatusMapValue` | choseisan-ical/src/csvParser.ts:69-72 | A name's status is its trimmed column (`''` when the row is short). For a name repeated in the header, the last column wins. |
| `CsvParser.StatusMapIgnoresExtraColumns` | choseisan-ical/src/csvParser.ts:69-72 | Columns beyond the participants never change the statuses. |
| `CsvParser.EntriesAreDataRows` | choseisan-ical/src/csvParser.ts:49-79 | There is exactly one entry per data row after the header, in source order, built from that row. |
| `CsvParser.SkippedRowAddsNothing` | choseisan-ical/src/csvParser.ts:53-60 | A blank row, a `コメント,` row, an all-comma row or a row with a blank first field leaves the pushed entries unchanged. |
| `CsvParser.AllCommasHaveEmptyLabel` | choseisan-ical/src/csvParser.ts:53 | An all-comma row already has a blank first field, so its separate skip test never decides alone. |
| `CsvParser.LabelWithoutWhitespace` | choseisan-ical/src/csvParser.ts:63-65 | A label without whitespace is all date, and its time is empty. |
| `CsvParser.LabelSplitsAtFirstWhitespace` | choseisan-ical/src/csvParser.ts:63-65 | A trimmed label with whitespace and no line terminator splits at its first whitespace. The date is the part before it, and the time is the part after that whole whitespace run. |
| `CsvParser.SampleLabel` | choseisan-ical/tests/csvParser.test.ts:20-21 | `7/14(月) 19:00〜` splits into `7/14(月)` and `19:00〜`. |
| `CsvParser.IsConfirmed` | choseisan-ical/src/csvParser.ts:100-101 | No contract of its own. `ConfirmedEntries` and `GetParticipantSchedule` state that the filter keeps exactly the entries for which it holds. |
| `CsvParser.ConfirmedEntries` | choseisan-ical/src/csvParser.ts:99-102 | The filter keeps, in order, exactly the entries marked ◯ for the name. |
| `CsvParser.ConfirmedEntriesFrom` | choseisan-ical/src/csvParser.ts:99-102 | Every kept entry is one of the entries and is marked ◯. |
| `CsvParser.ConfirmedCount` | choseisan-ical/src/csvParser.ts:99-102 | The filter keeps as many entries as carry a ◯, and at most all of them. |
| `CsvParser.GetParticipantSchedule` | choseisan-ical/src/csvParser.ts:92-103 | It fails, with the trimmed name and the participant list, exactly when the trimmed name is not a participant. Otherwise it returns that name's ◯ entries in order. |
| `CsvParser.UntrimmedNameUnreachable` | choseisan-ical/src/csvParser.ts:93-95 | A header name with surrounding whitespace, which the filter at line 33 keeps untrimmed, is never the name that a successful lookup selects. |
| `CsvParser.SampleFirstParticipant` | choseisan-ical/tests/csvParser.test.ts:26-32 | In the sample poll, Aさん gets all three slots. |
| `CsvParser.SampleSecondParticipant` | choseisan-ical/tests/csvParser.test.ts:34-36 | In the sample poll, Bさん gets only the 7/14 slot. |
| `CsvParser.SampleUnknownParticipant` | choseisan-ical/tests/csvParser.test.ts:39-45 | ` Cさん ` fails as the unknown participant `Cさん`, listing Aさん and Bさん. |
| `CsvSample.SampleRowEntry` | choseisan-ical/src/csvParser.ts:53-78 | A sample row `{date} {time},{a},{b}` gives the entry with that date and time, Aさん's mark `a` and Bさん's mark `b`. |
| `CsvSample.SampleHeaderNames` | choseisan-ical/tests/csvParser.test.ts:7 | The sample header `日程,Aさん,Bさん` is a header line naming Aさん and Bさん. |
| `CsvSample.SampleEntries` | choseisan-ical/tests/csvParser.test.ts:8-11 | The rows after the sample header give the three slots, in order. The comment row gives none. |
| `CsvSample.SampleCsvLines` | choseisan-ical/tests/csvParser.test.ts:5-11 | The sample text reads back as its seven lines. |
| `CsvSample.SampleParse` | choseisan-ical/tests/csvParser.test.ts:5-24 | Parsing the sample export gives the title ゆる飲み, the participants Aさん and Bさん, and the three 19:00〜 slots of 7/14, 7/15 and 7/16 with their marks. This is the schedule the participant samples above look up. |
| `IcalGenerator.FindIdFrom` | choseisan-ical/src/icalGenerator.ts:13 | Finds the first position at or after the start index where `h=` is followed by a hex digit. |
| `IcalGenerator.ExtractChouseisanId` | choseisan-ical/src/icalGenerator.ts:12-15 | The result is `null` exactly when `h=[a-f0-9]` occurs nowhere. Otherwise the id is a non-empty lower-case hex string. |
| `IcalGenerator.ExtractLeftmost` | choseisan-ical/src/icalGenerator.ts:13-14 | The id is the whole hex run after the leftmost match. |
| `IcalGenerator.ExtractAfterPrefix` | choseisan-ical/src/icalGenerator.ts:12-15 | After a prefix without `=`, `h=` followed by hex to the end extracts exactly that hex. |
| `IcalGenerator.ExtractWithoutEquals` | choseisan-ical/src/icalGenerator.ts:12-15 | A URL without `=` has no id. |
| `IcalGenerator.SampleId` | choseisan-ical/tests/icalGenerator.test.ts:87 | `https://chouseisan.com/s?h=abc123` gives `abc123`. |
| `IcalGenerator.SampleNoIds` | choseisan-ical/tests/icalGenerator.test.ts:88-89 | `https://other-site.com` and `invalid-url` give no id. |
| `IcalGenerator.Base64Name` | choseisan-ical/src/icalGenerator.ts:33-39 | `base64Encode` has the padded length and alphabet, and decodes back to the name's UTF-8 bytes. |
| `IcalGenerator.GenerateFilename` | choseisan-ical/src/icalGenerator.ts:18-30 | No contract of its own. `FilenameParts` states its shape under the truthiness rule, `AcceptedUrlId` that an accepted poll URL gives its whole id, and the sample lemmas the test vectors. |
| `IcalGenerator.FilenameParts` | choseisan-ical/src/icalGenerator.ts:18-30 | The file name is `{prefix}-{base64 of the name}.ics`. The prefix is the extracted id when the URL is truthy and has one. Otherwise it is `schedule`, which is not hex, so the two cases never collide. |
| `IcalGenerator.SampleBase64NameB` | choseisan-ical/tests/icalGenerator.test.ts:92-104 | Bさん encodes as `QuOBleOCkw==`. |
| `IcalGenerator.SampleBase64NameA` | choseisan-ical/tests/icalGenerator.test.ts:106-111 | Aさん encodes as `QeOBleOCkw==`. |
| `IcalGenerator.SampleFilenameWithId` | choseisan-ical/src/icalGenerator.ts:19-23 | A poll URL with id `abc123` gives `abc123-QuOBleOCkw==.ics` for Bさん. |
| `IcalGenerator.SampleFilenameWithoutUrl` | choseisan-ical/tests/icalGenerator.test.ts:100-105 | Without a URL, Bさん gets `schedule-QuOBleOCkw==.ics`. |
| `IcalGenerator.SampleFilenameWithoutId` | choseisan-ical/tests/icalGenerator.test.ts:107-112 | `invalid-url` falls back to `schedule-QeOBleOCkw==.ics` for Aさん. |
| `IcalGenerator.FindTimeFrom` | choseisan-ical/src/icalGenerator.ts:85 | Finds the first position at or after the start index where `\d+:\d` matches. |
| `IcalGenerator.HourMinute` | choseisan-ical/src/icalGenerator.ts:85-89 | The time match fails exactly when `(\d+):(\d+)` occurs nowhere in the time label. |
| `IcalGenerator.ParseJapaneseDate` | choseisan-ical/src/icalGenerator.ts:75-99 | A date exists exactly when the date label starts with `\d+/\d+` and the time label holds `\d+:\d+`. It carries the given year. |
| `IcalGenerator.MonthDay` | choseisan-ical/src/icalGenerator.ts:78-82 | No contract of its own. `MonthDayAt` and `MonthDayOf` state what it reads. |
| `IcalGenerator.MonthDayAt` | choseisan-ical/src/icalGenerator.ts:78-82 | Digits, `/` and digits at the start read as month and day. |
| `IcalGenerator.MonthDayOf` | choseisan-ical/src/icalGenerator.ts:78-82 | `m/d…` reads as `(parseInt(m), parseInt(d))` when what follows `d` is not a digit. |
| `IcalGenerator.HourMinuteAt` | choseisan-ical/src/icalGenerator.ts:85-89 | The first digit run followed by `:` and digits reads as hour and minute, both runs taken greedily. |
| `IcalGenerator.HourMinuteOf` | choseisan-ical/src/icalGenerator.ts:85-89 | `…h:mm…` with no digit before `h` reads as `(parseInt(h), parseInt(mm))`. |
| `IcalGenerator.ParseJapaneseDateOf` | choseisan-ical/src/icalGenerator.ts:75-94 | Such date and time labels give the local date-time of those numbers in the given year. |
| `IcalGenerator.ParseJapaneseDateRoundTrip` | choseisan-ical/src/icalGenerator.ts:75-94 | Printing any month, day, hour and minute into the label shapes and parsing them gives the same numbers back. |
| `IcalGenerator.DateWithoutMonthDay` | choseisan-ical/src/icalGenerator.ts:78-79 | A date label that does not start with a digit gives no date. |
| `IcalGenerator.SampleTime` | choseisan-ical/tests/icalGenerator.test.ts:9 | `19:00〜` reads as 19:00. |
| `IcalGenerator.SampleMonthDay` | choseisan-ical/tests/icalGenerator.test.ts:9-11 | `7/dd(…)` reads as July `dd`. |
| `IcalGenerator.SampleDates` | choseisan-ical/tests/icalGenerator.test.ts:9-11 | The three sample slots parse to 7/14, 7/15 and 7/16 at 19:00. |
| `IcalGenerator.Description` | choseisan-ical/src/icalGenerator.ts:64 | The description starts with `調整さんURL: {url}` when the URL is truthy, and with `調整さん: {title}` otherwise. It always ends with the line `参加者: {name}`. |
| `IcalGenerator.HashHasNoDash` | choseisan-ical/src/icalGenerator.ts:109 | A hash never contains `-`. |
| `IcalGenerator.Uid` | choseisan-ical/src/icalGenerator.ts:67 | No contract of its own. `UidDeterminesHashes` states that its three hashes can be read back apart, and `EventUid` that the three `hashCode` calls build it. |
| `IcalGenerator.UidDeterminesHashes` | choseisan-ical/src/icalGenerator.ts:67 | Equal UIDs have equal source, slot and name hashes, so the three parts of a UID never run into each other. |
| `IcalGenerator.EventFor` | choseisan-ical/src/icalGenerator.ts:57-67 | An entry yields an event exactly when its labels parse. |
| `IcalGenerator.ICalEvents` | choseisan-ical/src/icalGenerator.ts:41-69 | The event list fails, with the unknown-participant error, exactly when the trimmed name is not a participant. |
| `IcalGenerator.Events` | choseisan-ical/src/icalGenerator.ts:56-69 | No contract of its own. `EventsAppend`, `EventsCount` and `EventFields` state what the `forEach` adds. |
| `IcalGenerator.EventsAppend` | choseisan-ical/src/icalGenerator.ts:56-69 | The events of two runs of entries are the events of the first, then of the second, so order is kept. |
| `IcalGenerator.EventsCount` | choseisan-ical/src/icalGenerator.ts:56-69 | There is at most one event per entry, and exactly one per entry when all labels parse. |
| `IcalGenerator.EventForFields` | choseisan-ical/src/icalGenerator.ts:59-67 | An entry's event starts at its parsed labels and ends two hours later. Its summary is the title, its location is empty, and it carries the description and the entry's UID. |
| `IcalGenerator.EventFields` | choseisan-ical/src/icalGenerator.ts:56-67 | Every event comes from one of the entries and has the fields above. |
| `IcalGenerator.EventForNone` | choseisan-ical/src/icalGenerator.ts:57-59 | An entry whose labels do not parse gives no event. |
| `IcalGenerator.EventOfStart` | choseisan-ical/src/icalGenerator.ts:57-67 | An entry whose labels parse to `start` gives the event that starts at `start`, ends two hours after its local time, and carries the title, the description, an empty location and the entry's UID. |
| `IcalGenerator.ICalEventsCount` | choseisan-ical/src/icalGenerator.ts:45-69 | A known participant gets at most one event per ◯ entry, and exactly one per ◯ entry when all of those labels parse. |
| `IcalGenerator.Calendar.constructor` | choseisan-ical/src/icalGenerator.ts:48-53 | A new calendar has no events. |
| `IcalGenerator.Calendar.CreateEvent` | choseisan-ical/src/icalGenerator.ts:60-66 | `createEvent` appends the event, leaving the earlier ones as they were. |
| `IcalGenerator.CreateEventFor` | choseisan-ical/src/icalGenerator.ts:57-67 | One pass of the `forEach`, with three `hashCode` calls, builds exactly `EventFor`. |
| `IcalGenerator.BuildEvent` | choseisan-ical/src/icalGenerator.ts:60-67 | For an entry whose labels parse, the event built with the three `hashCode` calls is exactly the one `EventFor` gives. |
| `IcalGenerator.EventUid` | choseisan-ical/src/icalGenerator.ts:67 | The UID is built from the hashes of the URL or title, of the date and time labels, and of the name, between the fixed prefix and domain. |
| `IcalGenerator.GenerateICalForParticipant` | choseisan-ical/src/icalGenerator.ts:41-72 | It returns the calendar's events, which are `ICalEvents`: the lookup error, or one event per parsable ◯ entry, in order. |
| `IcalGenerator.AddEventFor` | choseisan-ical/src/icalGenerator.ts:56-68 | One pass of the `forEach`: the calendar's events go from those of the first i confirmed entries to those of the first i + 1, so the entry's event is appended when its labels parse. |
| `IcalGenerator.SampleEventsWithUrl` | choseisan-ical/tests/icalGenerator.test.ts:14-31 | With a URL, Bさん gets one event. |
| `IcalGenerator.SampleEventsWithoutUrl` | choseisan-ical/tests/icalGenerator.test.ts:33-48 | Without a URL, Aさん gets three events. |
| `IcalGenerator.SampleEventsNoConfirmed` | choseisan-ical/tests/icalGenerator.test.ts:50-71 | In the second sample poll, Bさん has no ◯ entry and gets a calendar with no events. |
| `IcalGenerator.SampleEventsUnknown` | choseisan-ical/tests/icalGenerator.test.ts:73-83 | Cさん gets an error instead of a calendar. |
| `Validation.DetermineInputMode` | choseisan-ical/src/validation.ts:80-95 | The mode is CSV exactly when the CSV text is not blank. It is URL exactly when the CSV text is blank and both URL and name are not. It is invalid otherwise. |
| `Validation.ModeDependsOnlyOnBlankness` | choseisan-ical/src/validation.ts:81-83 | Only whether each field is blank after `trim()` decides the mode. |
| `Validation.SampleModes` | choseisan-ical/src/validation.ts:80-95 | Pasted CSV wins, a URL with a name is URL mode, and a URL with a full-width-space name is invalid. |
| `Validation.ValidateChouseisanUrl` | choseisan-ical/src/validation.ts:52-67 | An accepted URL contains `chouseisan.com`. |
| `Validation.PatternImpliesDomain` | choseisan-ical/src/validation.ts:54-64 | Every URL the pattern matches contains the domain, so the domain test never rejects on its own. |
| `Validation.MatchesPollPattern` | choseisan-ical/src/validation.ts:60-61 | No contract of its own. `PollUrlMatches` states which poll URLs it matches. `ValidateIsPattern` and `AcceptedIsPollUrl` together state that it matches nothing else. |
| `Validation.ValidateIsPattern` | choseisan-ical/src/validation.ts:52-67 | A URL is accepted exactly when it matches `^https?://chouseisan\.com/s\?h=[a-f0-9]+$`. |
| `Validation.PollUrlMatches` | choseisan-ical/src/validation.ts:60 | A poll URL matches the pattern exactly when its id is non-empty lower-case hex. |
| `Validation.PollUrlAccepted` | choseisan-ical/src/validation.ts:60-66 | Every http or https poll URL with a non-empty hex id is accepted. |
| `Validation.AcceptedIsPollUrl` | choseisan-ical/src/validation.ts:60-66 | Every accepted URL is such a poll URL. |
| `Validation.TrailingTextRejected` | choseisan-ical/src/validation.ts:60-64 | A poll URL followed by anything that is not hex is rejected. |
| `Validation.AcceptedUrlId` | choseisan-ical/src/validation.ts:60-66 | For an accepted URL, `extractChouseisanId` returns its whole hex id, and the file name starts with that id. |
| `Validation.SampleUrls` | choseisan-ical/src/validation.ts:52-67 | Poll URLs with ids `abc123` and `02d742…be62` are accepted. A trailing `&x=1` and an upper-case id are rejected. |
| `Validation.SampleLongIdFilename` | choseisan-ical/tests/icalGenerator.test.ts:92-98 | The https poll URL with the 32-digit id gives `{id}-QuOBleOCkw==.ics` for Bさん. |

## Left out

- iCalendar serialisation: `calendar.toString()`, the product id, the calendar
  name, the calendar description and the `Asia/Tokyo` time zone belong to the
  `ical-generator` library. They are not part of this model.
  - `GenerateICalForParticipant` returns the event list the calendar holds,
    not its text.
- The library's own event UID is not modelled. Each event carries the UID that
  `event.uid(…)` sets.
- Clock and time zone:
  - `new Date().getFullYear()` is the `year` parameter.
  - `Date#getTime()` of a local date-time is the `localTime` function
    parameter.
  - `Date`'s normalisation of out-of-range months, days, hours and minutes
    (such as 2/30 or 25:00) happens inside that function and is not modelled.
  - An Invalid Date is not modelled. `localTime` returns an integer, so it has
    no value for fields so far out of range (a month of 99999999, say) that
    `new Date(…)` gives an Invalid Date. That object is still truthy at
    icalGenerator.ts:59, and its `getTime()` is NaN. `EventForFields`'s
    `endTime == startTime + EventDurationMs` presumes a finite start time.
- `ParseJapaneseDate`: the `try`/`catch` around the body is not modelled,
  because nothing in the modelled body throws.
- `parseInt` precision: digit runs are read as unbounded integers. Values above
  2^53, which JavaScript would round, are not modelled.
- Lone surrogates: strings are sequences of Unicode scalar values, so text with
  an unpaired UTF-16 surrogate is not modelled.
  - For such text, `charCodeAt` and `TextEncoder` would disagree with `Utf16`
    and `Utf8`.
- JavaScript object keys: the status record is a Dafny `map`. Special keys
  such as `__proto__` are not modelled.
- The functions whose rows say "No contract of its own" have their properties
  stated by the lemmas those rows name.
- The sample export is not written as one string literal. It is its lines
  joined by `\n`, each slot row its fields joined by `,`. `SampleCsvLines`
  states that this text reads back as the seven lines of the test file.
- Sample results are written as concatenations of their parts.
- The form code around `validateChouseisanUrl` is not modelled. This covers the
  error display (`showCustomError`), the DOM, the `fetch` calls, the renderer,
  the server routes and the console logging.
