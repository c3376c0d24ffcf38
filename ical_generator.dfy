/**
 * Projection of one participant's confirmed slots onto calendar events,
 * together with the naming helpers: the poll id taken from a chouseisan URL,
 * the download file name, the base64 spelling of a participant's name and the
 * event UIDs.
 *
 * A calendar is modelled by its list of event records; the iCalendar text the
 * library prints from it is not part of this model.
 */
module IcalGenerator {

  import opened Wrappers
  import opened Text
  import opened Utf
  import Base64
  import Hash
  import opened CsvParser
  import opened Seqs

  // ---------------------------------------------------------------------------
  // Poll id: `url.match(/h=([a-f0-9]+)/)`

  /** The regular-expression class `[a-f0-9]`. */
  predicate IsHex(c: char) {
    ('0' <= c <= '9') || ('a' <= c <= 'f')
  }

  predicate AllHex(s: string) {
    forall i :: 0 <= i < |s| ==> IsHex(s[i])
  }

  /** End of the run of hex digits that starts at `i` (greedy `[a-f0-9]+`). */
  function HexRunEnd(s: string, i: nat): (j: nat)
    requires i <= |s|
    ensures i <= j <= |s|
    ensures AllHex(s[i..j])
    ensures j < |s| ==> !IsHex(s[j])
    decreases |s| - i
  {
    if i < |s| && IsHex(s[i]) then HexRunEnd(s, i + 1) else i
  }

  /** The pattern `h=[a-f0-9]+` can match starting at `i`. */
  predicate IdMatchAt(url: string, i: nat) {
    i + 2 < |url| && url[i] == 'h' && url[i + 1] == '=' && IsHex(url[i + 2])
  }

  /** The leftmost position at or after `i` where the pattern matches. */
  function FindIdFrom(url: string, i: nat): (r: Option<nat>)
    requires i <= |url|
    ensures r.Some? ==> i <= r.value < |url| && IdMatchAt(url, r.value)
    ensures r.Some? ==> forall k :: i <= k < r.value ==> !IdMatchAt(url, k)
    ensures r.None? ==> forall k :: i <= k < |url| ==> !IdMatchAt(url, k)
    decreases |url| - i
  {
    if i == |url| then None
    else if IdMatchAt(url, i) then Some(i)
    else FindIdFrom(url, i + 1)
  }

  /** `extractChouseisanId`: the captured hex run of the leftmost match, or none. */
  function ExtractChouseisanId(url: string): (r: Option<string>)
    ensures r.None? <==> forall k :: 0 <= k < |url| ==> !IdMatchAt(url, k)
    ensures r.Some? ==> r.value != [] && AllHex(r.value)
  {
    match FindIdFrom(url, 0)
    case None => None
    case Some(i) => Some(url[i + 2..HexRunEnd(url, i + 2)])
  }

  lemma {:induction false} FindIdSkips(url: string, from: nat, i: nat)
    requires from <= i && IdMatchAt(url, i)
    requires forall k :: from <= k < i ==> !IdMatchAt(url, k)
    ensures FindIdFrom(url, from) == Some(i)
    decreases i - from
  {
    if from < i {
      FindIdSkips(url, from + 1, i);
    }
  }

  /** The id is the whole hex run after the first `h=` that is followed by a hex digit. */
  lemma ExtractLeftmost(url: string, i: nat)
    requires IdMatchAt(url, i)
    requires forall k :: 0 <= k < i ==> !IdMatchAt(url, k)
    ensures ExtractChouseisanId(url) == Some(url[i + 2..HexRunEnd(url, i + 2)])
  {
    FindIdSkips(url, 0, i);
  }

  /** Where the hex run reaches the end of the URL, the id is the whole suffix. */
  lemma {:induction false} HexRunToEnd(s: string, i: nat)
    requires i <= |s|
    requires forall k :: i <= k < |s| ==> IsHex(s[k])
    ensures HexRunEnd(s, i) == |s|
    decreases |s| - i
  {
    if i < |s| {
      HexRunToEnd(s, i + 1);
    }
  }

  /** Behind a prefix without `=`, the pattern first matches at the `h=` that follows it. */
  lemma ExtractAfterPrefix(prefix: string, hex: string)
    requires '=' !in prefix
    requires hex != [] && AllHex(hex)
    ensures ExtractChouseisanId(prefix + "h=" + hex) == Some(hex)
  {
    var url := prefix + "h=" + hex;
    var i := |prefix|;
    assert IdMatchAt(url, i);
    forall k | 0 <= k < i
      ensures !IdMatchAt(url, k)
    {
      if k + 1 < i {
        assert url[k + 1] == prefix[k + 1];
      }
    }
    ExtractLeftmost(url, i);
    forall k | i + 2 <= k < |url|
      ensures IsHex(url[k])
    {
      assert url[k] == hex[k - i - 2];
    }
    HexRunToEnd(url, i + 2);
    assert url[i + 2..HexRunEnd(url, i + 2)] == url[i + 2..|url|] == hex;
  }

  /** Without an `=` there is no id. */
  lemma ExtractWithoutEquals(url: string)
    requires '=' !in url
    ensures ExtractChouseisanId(url) == None
  {
    forall k | 0 <= k < |url|
      ensures !IdMatchAt(url, k)
    {
      if k + 1 < |url| {
        assert url[k + 1] in url;
      }
    }
  }

  lemma SampleId()
    ensures ExtractChouseisanId("https://chouseisan.com/s?h=abc123") == Some("abc123")
  {
    ExtractAfterPrefix("https://chouseisan.com/s?", "abc123");
    assert "https://chouseisan.com/s?" + "h=" + "abc123" == "https://chouseisan.com/s?h=abc123";
  }

  lemma SampleNoIds()
    ensures ExtractChouseisanId("https://other-site.com") == None
    ensures ExtractChouseisanId("invalid-url") == None
  {
    ExtractWithoutEquals("https://other-site.com");
    ExtractWithoutEquals("invalid-url");
  }

  // ---------------------------------------------------------------------------
  // File name

  /** JavaScript truthiness of an optional string: present and non-empty. */
  predicate IsTruthy(s: Option<string>) {
    s.Some? && s.value != []
  }

  /** `base64Encode`: `btoa` over the UTF-8 bytes of the text. */
  function Base64Name(name: string): (r: string)
    ensures |r| == 4 * ((|Utf8(name)| + 2) / 3)
    ensures Base64.PaddedWith(r, Base64.Padding(|Utf8(name)|))
    ensures Base64.Decode(r) == Some(Utf8(name))
  {
    Base64.EncodeAlphabet(Utf8(name));
    Base64.DecodeEncode(Utf8(name));
    Base64.Encode(Utf8(name))
  }

  const FallbackPrefix: string := "schedule"
  const FileExtension: string := ".ics"

  /** `generateFilename`: `{id}-{base64}.ics` for a URL with a poll id, else `schedule-{base64}.ics`. */
  function GenerateFilename(url: Option<string>, participantName: string): (r: string)
  {
    if IsTruthy(url) && ExtractChouseisanId(url.value).Some? then
      ExtractChouseisanId(url.value).value + "-" + Base64Name(participantName) + FileExtension
    else
      FallbackPrefix + "-" + Base64Name(participantName) + FileExtension
  }

  /**
   * A file name is a prefix, a dash, the base64 of the name's UTF-8 bytes and
   * `.ics`; the prefix is the poll id exactly when the URL carries one, and it is
   * then all hex, which `schedule` is not, so the two kinds never collide.
   */
  lemma FilenameParts(url: Option<string>, participantName: string)
    ensures var r, b := GenerateFilename(url, participantName), Base64Name(participantName);
      var p := |r| - |b| - 5;
      && 0 < p
      && r == r[..p] + "-" + b + ".ics"
      && Base64.Decode(b) == Some(Utf8(participantName))
      && (if IsTruthy(url) && ExtractChouseisanId(url.value).Some?
          then r[..p] == ExtractChouseisanId(url.value).value && AllHex(r[..p])
          else r[..p] == FallbackPrefix && !AllHex(r[..p]))
  {
    var r, b := GenerateFilename(url, participantName), Base64Name(participantName);
    var id := if IsTruthy(url) && ExtractChouseisanId(url.value).Some? then ExtractChouseisanId(url.value).value else FallbackPrefix;
    assert r == id + "-" + b + ".ics";
    var p := |r| - |b| - 5;
    assert p == |id|;
    assert r[..p] == id;
    assert !IsHex(FallbackPrefix[0]);
  }

  /** 'Bさん' is B, U+3055, U+3093: seven UTF-8 bytes. */
  lemma SampleUtf8B()
    ensures Utf8("Bさん") == [0x42, 0xE3, 0x81, 0x95, 0xE3, 0x82, 0x93]
  {
    assert "Bさん"[..2] == "Bさ" && "Bさ"[..1] == "B";
  }

  lemma SampleUtf8A()
    ensures Utf8("Aさん") == [0x41, 0xE3, 0x81, 0x95, 0xE3, 0x82, 0x93]
  {
    assert "Aさん"[..2] == "Aさ" && "Aさ"[..1] == "A";
  }

  /** The base64 of the bytes of `{c}さん`, for c = B (0x42) or A (0x41). */
  lemma SampleEncoding(lead: Utf.Byte, symbol: char)
    requires (lead == 0x42 && symbol == 'u') || (lead == 0x41 && symbol == 'e')
    ensures Base64.Encode([lead, 0xE3, 0x81, 0x95, 0xE3, 0x82, 0x93]) == ['Q', symbol] + "OBleOCkw=="
  {
    var b: seq<Utf.Byte> := [lead, 0xE3, 0x81, 0x95, 0xE3, 0x82, 0x93];
    Base64.EncodeFirstGroup(b);
    Base64.EncodeFirstGroup(b[3..]);
    assert b[3..][3..] == [0x93];
    assert Base64.EncodeGroup(lead, 0xE3, 0x81) == ['Q', symbol, 'O', 'B'];
    assert Base64.EncodeGroup(0x95, 0xE3, 0x82) == "leOC";
    assert Base64.Encode([0x93]) == "kw==";
  }

  lemma SampleBase64NameB()
    ensures Base64Name("Bさん") == "QuOBleOCkw=="
  {
    SampleUtf8B();
    SampleEncoding(0x42, 'u');
  }

  lemma SampleBase64NameA()
    ensures Base64Name("Aさん") == "QeOBleOCkw=="
  {
    SampleUtf8A();
    SampleEncoding(0x41, 'e');
  }

  lemma SampleFilenameWithId()
    ensures GenerateFilename(Some("https://chouseisan.com/s?h=abc123"), "Bさん") == "abc123" + "-" + "QuOBleOCkw==" + ".ics"
  {
    SampleId();
    SampleBase64NameB();
  }

  lemma SampleFilenameWithoutUrl()
    ensures GenerateFilename(None, "Bさん") == "schedule" + "-" + "QuOBleOCkw==" + ".ics"
  {
    SampleBase64NameB();
  }

  lemma SampleFilenameWithoutId()
    ensures GenerateFilename(Some("invalid-url"), "Aさん") == "schedule" + "-" + "QeOBleOCkw==" + ".ics"
  {
    SampleNoIds();
    SampleBase64NameA();
  }

  // ---------------------------------------------------------------------------
  // Dates: `parseJapaneseDate`

  /**
   * The wall-clock fields handed to `new Date(year, month - 1, day, hour, minute)`,
   * as parsed and before any overflow normalisation; `month` counts from 1.
   */
  datatype LocalDateTime = LocalDateTime(year: int, month: nat, day: nat, hour: nat, minute: nat)

  /** `^(\d+)\/(\d+)`: month and day at the very start of the date label. */
  function MonthDay(dateStr: string): (r: Option<(nat, nat)>)
  {
    var j := DigitRunEnd(dateStr, 0);
    if 0 < j && j + 1 < |dateStr| && dateStr[j] == '/' && IsDigit(dateStr[j + 1]) then
      Some((DecimalValue(dateStr[..j]), DecimalValue(dateStr[j + 1..DigitRunEnd(dateStr, j + 1)])))
    else None
  }

  /** The pattern `(\d+):(\d+)` can match starting at `i`. */
  predicate TimeMatchAt(s: string, i: nat) {
    i < |s| && IsDigit(s[i]) &&
    var j := DigitRunEnd(s, i);
    j + 1 < |s| && s[j] == ':' && IsDigit(s[j + 1])
  }

  /** The leftmost position at or after `i` where the time pattern matches. */
  function FindTimeFrom(s: string, i: nat): (r: Option<nat>)
    requires i <= |s|
    ensures r.Some? ==> i <= r.value < |s| && TimeMatchAt(s, r.value)
    ensures r.Some? ==> forall k :: i <= k < r.value ==> !TimeMatchAt(s, k)
    ensures r.None? ==> forall k :: i <= k < |s| ==> !TimeMatchAt(s, k)
    decreases |s| - i
  {
    if i == |s| then None
    else if TimeMatchAt(s, i) then Some(i)
    else FindTimeFrom(s, i + 1)
  }

  /** `timeStr.match(/(\d+):(\d+)/)`: hour and minute of the leftmost match. */
  function HourMinute(timeStr: string): (r: Option<(nat, nat)>)
    ensures r.None? <==> forall k :: 0 <= k < |timeStr| ==> !TimeMatchAt(timeStr, k)
  {
    match FindTimeFrom(timeStr, 0)
    case None => None
    case Some(i) =>
      var j := DigitRunEnd(timeStr, i);
      Some((DecimalValue(timeStr[i..j]), DecimalValue(timeStr[j + 1..DigitRunEnd(timeStr, j + 1)])))
  }

  /** `parseJapaneseDate`, with the current year passed in. */
  function ParseJapaneseDate(year: int, dateStr: string, timeStr: string): (r: Option<LocalDateTime>)
    ensures r.Some? <==> MonthDay(dateStr).Some? && HourMinute(timeStr).Some?
    ensures r.Some? ==> r.value.year == year
  {
    match (MonthDay(dateStr), HourMinute(timeStr))
    case (Some((month, day)), Some((hour, minute))) => Some(LocalDateTime(year, month, day, hour, minute))
    case _ => None
  }

  /** The digit run that starts at `i` ends where the digits stop. */
  lemma {:induction false} DigitRunEndAt(s: string, i: nat, j: nat)
    requires i <= j <= |s|
    requires forall k :: i <= k < j ==> IsDigit(s[k])
    requires j == |s| || !IsDigit(s[j])
    ensures DigitRunEnd(s, i) == j
    decreases j - i
  {
    if i < j {
      DigitRunEndAt(s, i + 1, j);
    }
  }

  /** The date match, located by positions: digits `s[..j]`, a slash, digits `s[j+1..k]`. */
  lemma MonthDayAt(s: string, j: nat, k: nat)
    requires 0 < j && j + 1 < k <= |s|
    requires forall p :: 0 <= p < j ==> IsDigit(s[p])
    requires s[j] == '/'
    requires forall p :: j + 1 <= p < k ==> IsDigit(s[p])
    requires k == |s| || !IsDigit(s[k])
    ensures MonthDay(s) == Some((DecimalValue(s[..j]), DecimalValue(s[j + 1..k])))
  {
    DigitRunEndAt(s, 0, j);
    DigitRunEndAt(s, j + 1, k);
  }

  /** A date label `{m}/{d}` followed by anything that does not start with a digit. */
  lemma MonthDayOf(m: string, d: string, rest: string)
    requires m != [] && AllDigits(m) && d != [] && AllDigits(d)
    requires rest == [] || !IsDigit(rest[0])
    ensures MonthDay(m + "/" + d + rest) == Some((DecimalValue(m), DecimalValue(d)))
  {
    var s := m + "/" + d + rest;
    var j, k := |m|, |m| + 1 + |d|;
    assert s[..j] == m;
    assert s[j + 1..k] == d;
    assert forall p :: 0 <= p < j ==> s[p] == m[p];
    assert forall p :: j + 1 <= p < k ==> s[p] == d[p - j - 1];
    assert k < |s| ==> s[k] == rest[0];
    MonthDayAt(s, j, k);
  }

  lemma {:induction false} FindTimeSkips(s: string, from: nat, i: nat)
    requires from <= i && TimeMatchAt(s, i)
    requires forall k :: from <= k < i ==> !TimeMatchAt(s, k)
    ensures FindTimeFrom(s, from) == Some(i)
    decreases i - from
  {
    if from < i {
      FindTimeSkips(s, from + 1, i);
    }
  }

  /** The leftmost time match, located by positions: digits `s[i..j]`, a colon, digits `s[j+1..k]`. */
  lemma HourMinuteAt(s: string, i: nat, j: nat, k: nat)
    requires i < j && j + 1 < k <= |s|
    requires forall p :: 0 <= p < i ==> !IsDigit(s[p])
    requires forall p :: i <= p < j ==> IsDigit(s[p])
    requires s[j] == ':'
    requires forall p :: j + 1 <= p < k ==> IsDigit(s[p])
    requires k == |s| || !IsDigit(s[k])
    ensures HourMinute(s) == Some((DecimalValue(s[i..j]), DecimalValue(s[j + 1..k])))
  {
    DigitRunEndAt(s, i, j);
    DigitRunEndAt(s, j + 1, k);
    assert TimeMatchAt(s, i);
    FindTimeSkips(s, 0, i);
  }

  /** A time label `{h}:{mm}` behind digit-free text and before text not starting with a digit. */
  lemma HourMinuteOf(pre: string, h: string, mm: string, post: string)
    requires forall k :: 0 <= k < |pre| ==> !IsDigit(pre[k])
    requires h != [] && AllDigits(h) && mm != [] && AllDigits(mm)
    requires post == [] || !IsDigit(post[0])
    ensures HourMinute(pre + h + ":" + mm + post) == Some((DecimalValue(h), DecimalValue(mm)))
  {
    var s := pre + h + ":" + mm + post;
    var i := |pre|;
    var j := i + |h|;
    var k := j + 1 + |mm|;
    assert s[i..j] == h;
    assert s[j + 1..k] == mm;
    assert forall p :: 0 <= p < i ==> s[p] == pre[p];
    assert forall p :: i <= p < j ==> s[p] == h[p - i];
    assert forall p :: j + 1 <= p < k ==> s[p] == mm[p - j - 1];
    assert k < |s| ==> s[k] == post[0];
    HourMinuteAt(s, i, j, k);
  }

  /**
   * Labels written as `{m}/{d}…` and `…{h}:{mm}…` parse to exactly those numbers;
   * the weekday, the `〜` and any other trailing text are ignored.
   */
  lemma ParseJapaneseDateOf(year: int, m: string, d: string, rest: string,
                            pre: string, h: string, mm: string, post: string)
    requires m != [] && AllDigits(m) && d != [] && AllDigits(d)
    requires rest == [] || !IsDigit(rest[0])
    requires forall k :: 0 <= k < |pre| ==> !IsDigit(pre[k])
    requires h != [] && AllDigits(h) && mm != [] && AllDigits(mm)
    requires post == [] || !IsDigit(post[0])
    ensures ParseJapaneseDate(year, m + "/" + d + rest, pre + h + ":" + mm + post)
         == Some(LocalDateTime(year, DecimalValue(m), DecimalValue(d), DecimalValue(h), DecimalValue(mm)))
  {
    MonthDayOf(m, d, rest);
    HourMinuteOf(pre, h, mm, post);
  }

  /** Printing numbers in decimal and parsing them back gives the numbers. */
  lemma ParseJapaneseDateRoundTrip(year: int, month: nat, day: nat, hour: nat, minute: nat, rest: string, post: string)
    requires rest == [] || !IsDigit(rest[0])
    requires post == [] || !IsDigit(post[0])
    ensures ParseJapaneseDate(year, DecimalString(month) + "/" + DecimalString(day) + rest,
                              DecimalString(hour) + ":" + DecimalString(minute) + post)
         == Some(LocalDateTime(year, month, day, hour, minute))
  {
    ParseJapaneseDateOf(year, DecimalString(month), DecimalString(day), rest,
                        [], DecimalString(hour), DecimalString(minute), post);
    assert [] + DecimalString(hour) == DecimalString(hour);
    DecimalRoundTrip(month);
    DecimalRoundTrip(day);
    DecimalRoundTrip(hour);
    DecimalRoundTrip(minute);
  }

  /** A date label that does not start with digits and a slash gives no date. */
  lemma DateWithoutMonthDay(year: int, dateStr: string, timeStr: string)
    requires dateStr == [] || !IsDigit(dateStr[0])
    ensures ParseJapaneseDate(year, dateStr, timeStr) == None
  {
  }

  /** `19:00〜` is seven o'clock in the evening. */
  lemma SampleTime()
    ensures HourMinute("19:00〜") == Some((19, 0))
  {
    var t := "19:00〜";
    HourMinuteAt(t, 0, 2, 5);
    assert t[0..2] == "19" && t[3..5] == "00";
    assert DecimalValue("19") == 19 && DecimalValue("00") == 0;
  }

  /** `7/{dd}(…)`, as in the sample export. */
  lemma SampleMonthDay(d: string)
    requires |d| >= 5 && d[0] == '7' && d[1] == '/' && IsDigit(d[2]) && IsDigit(d[3]) && d[4] == '('
    ensures MonthDay(d) == Some((7, DecimalValue(d[2..4])))
  {
    MonthDayAt(d, 1, 4);
    assert d[..1] == "7";
    assert DecimalValue("7") == 7;
  }

  lemma SampleDates(year: int)
    ensures ParseJapaneseDate(year, "7/14(月)", "19:00〜") == Some(LocalDateTime(year, 7, 14, 19, 0))
    ensures ParseJapaneseDate(year, "7/15(火)", "19:00〜") == Some(LocalDateTime(year, 7, 15, 19, 0))
    ensures ParseJapaneseDate(year, "7/16(水)", "19:00〜") == Some(LocalDateTime(year, 7, 16, 19, 0))
  {
    SampleTime();
    SampleMonthDay("7/14(月)");
    SampleMonthDay("7/15(火)");
    SampleMonthDay("7/16(水)");
    assert "7/14(月)"[2..4] == "14" && "7/15(火)"[2..4] == "15" && "7/16(水)"[2..4] == "16";
    assert DecimalValue("14") == 14 && DecimalValue("15") == 15 && DecimalValue("16") == 16;
  }

  // ---------------------------------------------------------------------------
  // Events

  /** Every event lasts two hours, in milliseconds. */
  const EventDurationMs: int := 2 * 60 * 60 * 1000

  /**
   * One calendar event. `startTime` and `endTime` are the `getTime()` values of
   * its start and end; `start` holds the fields the start was built from.
   */
  datatype Event = Event(start: LocalDateTime, startTime: int, endTime: int,
                         summary: string, description: string, location: string, uid: string)

  /** The event description: the URL when one is given, else the title; then the participant line. */
  function Description(url: Option<string>, title: string, participantName: string): (r: string)
    ensures IsTruthy(url) ==> StartsWith(r, "調整さんURL: " + url.value)
    ensures !IsTruthy(url) ==> StartsWith(r, "調整さん: " + title)
    ensures EndsWith(r, "\n参加者: " + participantName)
    ensures |r| == |if IsTruthy(url) then "調整さんURL: " + url.value else "調整さん: " + title| + |"\n参加者: " + participantName|
  {
    if IsTruthy(url) then "調整さんURL: " + url.value + "\n参加者: " + participantName
    else "調整さん: " + title + "\n参加者: " + participantName
  }

  const UidPrefix: string := "choseisan-"
  const UidDomain: string := "@choseisan-ical.local"

  /** `choseisan-{hash(url || title)}-{hash(date + time)}-{hash(name)}@choseisan-ical.local`. */
  function Uid(url: Option<string>, title: string, entry: ScheduleEntry, participantName: string): string {
    UidPrefix + Hash.HashOf(if IsTruthy(url) then url.value else title) + "-"
      + Hash.HashOf(entry.date + entry.time) + "-" + Hash.HashOf(participantName) + UidDomain
  }

  /** Base-36 numerals hold no dash. */
  lemma HashHasNoDash(s: string)
    ensures '-' !in Hash.HashOf(s)
  {
    Hash.HashShape(s);
  }

  /** Position of the first dash, or the length when there is none. */
  function FirstDash(s: string): (n: nat)
    ensures n <= |s|
  {
    if s == [] || s[0] == '-' then 0 else 1 + FirstDash(s[1..])
  }

  lemma {:induction false} DashAfter(a: string, b: string)
    requires '-' !in a
    ensures FirstDash(a + "-" + b) == |a|
  {
    if a != [] {
      assert (a + "-" + b)[1..] == a[1..] + "-" + b;
      assert a[0] in a;
      DashAfter(a[1..], b);
    }
  }

  /** A dash-free head in front of a dash is fixed by the whole. */
  lemma DashSplit(a: string, b: string, c: string, d: string)
    requires '-' !in a && '-' !in c
    requires a + "-" + b == c + "-" + d
    ensures a == c && b == d
  {
    var s := a + "-" + b;
    DashAfter(a, b);
    DashAfter(c, d);
    assert a == s[..|a|] == c;
    assert b == s[|a| + 1..] == d;
  }

  lemma DropPrefix(p: string, s: string, t: string)
    requires p + s == p + t
    ensures s == t
  {
    assert s == (p + s)[|p|..];
    assert t == (p + t)[|p|..];
  }

  lemma DropSuffix(s: string, t: string, d: string)
    requires s + d == t + d
    ensures s == t
  {
    assert s == (s + d)[..|s|];
    assert t == (t + d)[..|t|];
  }

  /** Between a fixed head and tail, three dash-separated dash-free parts are fixed by the whole. */
  lemma UidParts(p: string, d: string, h1: string, h2: string, h3: string, g1: string, g2: string, g3: string)
    requires '-' !in h1 && '-' !in h2 && '-' !in g1 && '-' !in g2
    requires p + h1 + "-" + h2 + "-" + h3 + d == p + g1 + "-" + g2 + "-" + g3 + d
    ensures h1 == g1 && h2 == g2 && h3 == g3
  {
    var t, t' := h2 + "-" + (h3 + d), g2 + "-" + (g3 + d);
    assert p + h1 + "-" + h2 + "-" + h3 + d == p + (h1 + "-" + t);
    assert p + g1 + "-" + g2 + "-" + g3 + d == p + (g1 + "-" + t');
    DropPrefix(p, h1 + "-" + t, g1 + "-" + t');
    DashSplit(h1, t, g1, t');
    DashSplit(h2, h3 + d, g2, g3 + d);
    DropSuffix(h3, g3, d);
  }

  /**
   * Two UIDs are equal only if their three hashes are: the source hash
   * (URL or title), the slot hash (date and time) and the participant hash.
   */
  lemma UidDeterminesHashes(url: Option<string>, title: string, entry: ScheduleEntry, participantName: string,
                            url': Option<string>, title': string, entry': ScheduleEntry, participantName': string)
    requires Uid(url, title, entry, participantName) == Uid(url', title', entry', participantName')
    ensures Hash.HashOf(if IsTruthy(url) then url.value else title) == Hash.HashOf(if IsTruthy(url') then url'.value else title')
    ensures Hash.HashOf(entry.date + entry.time) == Hash.HashOf(entry'.date + entry'.time)
    ensures Hash.HashOf(participantName) == Hash.HashOf(participantName')
  {
    var source, source' := if IsTruthy(url) then url.value else title, if IsTruthy(url') then url'.value else title';
    HashHasNoDash(source);
    HashHasNoDash(source');
    HashHasNoDash(entry.date + entry.time);
    HashHasNoDash(entry'.date + entry'.time);
    UidParts(UidPrefix, UidDomain, Hash.HashOf(source), Hash.HashOf(entry.date + entry.time), Hash.HashOf(participantName),
             Hash.HashOf(source'), Hash.HashOf(entry'.date + entry'.time), Hash.HashOf(participantName'));
  }

  /** The event a confirmed entry yields, if its labels parse. */
  function EventFor(url: Option<string>, title: string, participantName: string, entry: ScheduleEntry,
                    year: int, localTime: LocalDateTime -> int): (r: Option<Event>)
    ensures r.Some? <==> ParseJapaneseDate(year, entry.date, entry.time).Some?
  {
    match ParseJapaneseDate(year, entry.date, entry.time)
    case None => None
    case Some(start) =>
      var startTime := localTime(start);
      Some(Event(start, startTime, startTime + EventDurationMs, title,
                 Description(url, title, participantName), "", Uid(url, title, entry, participantName)))
  }

  /** The events of a run of entries: one per entry whose labels parse, in order. */
  function Events(entries: seq<ScheduleEntry>, url: Option<string>, title: string, participantName: string,
                  year: int, localTime: LocalDateTime -> int): seq<Event>
  {
    Collect(entries, entry => EventFor(url, title, participantName, entry, year, localTime))
  }

  /** One pass of the `forEach` adds the entry's event, if its labels parse. */
  lemma EventsStep(entries: seq<ScheduleEntry>, k: nat, url: Option<string>, title: string, participantName: string,
                   year: int, localTime: LocalDateTime -> int, event: Option<Event>)
    requires k < |entries| && event == EventFor(url, title, participantName, entries[k], year, localTime)
    ensures Events(entries[..k + 1], url, title, participantName, year, localTime)
         == Events(entries[..k], url, title, participantName, year, localTime) + (if event.Some? then [event.value] else [])
  {
    CollectStep(entries, k, entry => EventFor(url, title, participantName, entry, year, localTime), event);
  }

  /** The event list of `generateICalForParticipant`; an unknown participant is an error. */
  function ICalEvents(url: Option<string>, title: string, participantName: string, data: ScheduleData,
                      year: int, localTime: LocalDateTime -> int): (r: Result<seq<Event>, ScheduleError>)
    ensures r.Err? <==> Trim(participantName) !in data.participants
    ensures r.Err? ==> r.error == UnknownParticipant(Trim(participantName), data.participants)
  {
    match GetParticipantSchedule(data, participantName)
    case Err(e) => Err(e)
    case Ok(schedules) => Ok(Events(schedules, url, title, participantName, year, localTime))
  }

  /** Entries are handled one after the other, so events keep the entries' order. */
  lemma EventsAppend(a: seq<ScheduleEntry>, b: seq<ScheduleEntry>, url: Option<string>, title: string,
                     participantName: string, year: int, localTime: LocalDateTime -> int)
    ensures Events(a + b, url, title, participantName, year, localTime)
         == Events(a, url, title, participantName, year, localTime) + Events(b, url, title, participantName, year, localTime)
  {
    CollectAppend(a, b, entry => EventFor(url, title, participantName, entry, year, localTime));
  }

  /** At most one event per entry, and exactly one each when every entry's labels parse. */
  lemma EventsCount(entries: seq<ScheduleEntry>, url: Option<string>, title: string,
                    participantName: string, year: int, localTime: LocalDateTime -> int)
    ensures |Events(entries, url, title, participantName, year, localTime)| <= |entries|
    ensures (forall i :: 0 <= i < |entries| ==> ParseJapaneseDate(year, entries[i].date, entries[i].time).Some?)
        ==> |Events(entries, url, title, participantName, year, localTime)| == |entries|
  {
    var f := entry => EventFor(url, title, participantName, entry, year, localTime);
    CollectLength(entries, f);
    if forall i :: 0 <= i < |entries| ==> ParseJapaneseDate(year, entries[i].date, entries[i].time).Some? {
      forall i | 0 <= i < |entries| ensures f(entries[i]).Some? {
        assert EventFor(url, title, participantName, entries[i], year, localTime).Some?;
      }
    }
  }

  /** `e` starts at the parsed labels of `entry` and carries its UID. */
  predicate IsEventOf(e: Event, entry: ScheduleEntry, url: Option<string>, title: string, participantName: string, year: int) {
    ParseJapaneseDate(year, entry.date, entry.time) == Some(e.start) && e.uid == Uid(url, title, entry, participantName)
  }

  /** What every event of a participant's calendar holds, whatever its entry. */
  predicate HasEventFields(e: Event, url: Option<string>, title: string, participantName: string,
                           localTime: LocalDateTime -> int) {
    && e.startTime == localTime(e.start)
    && e.endTime == e.startTime + EventDurationMs
    && e.summary == title
    && e.location == []
    && e.description == Description(url, title, participantName)
  }

  lemma EventForFields(url: Option<string>, title: string, participantName: string, entry: ScheduleEntry,
                       year: int, localTime: LocalDateTime -> int)
    requires EventFor(url, title, participantName, entry, year, localTime).Some?
    ensures var e := EventFor(url, title, participantName, entry, year, localTime).value;
      HasEventFields(e, url, title, participantName, localTime) && IsEventOf(e, entry, url, title, participantName, year)
  {
  }

  /**
   * Every event comes from one of the entries: it starts at that entry's
   * parsed labels, ends two hours later, carries the title as summary, the
   * description, an empty location and the entry's UID.
   */
  lemma EventFields(entries: seq<ScheduleEntry>, url: Option<string>, title: string,
                    participantName: string, year: int, localTime: LocalDateTime -> int)
    ensures forall e :: e in Events(entries, url, title, participantName, year, localTime) ==>
      && HasEventFields(e, url, title, participantName, localTime)
      && exists entry :: entry in entries && IsEventOf(e, entry, url, title, participantName, year)
  {
    var f := entry => EventFor(url, title, participantName, entry, year, localTime);
    CollectFrom(entries, f);
    forall e | e in Events(entries, url, title, participantName, year, localTime)
      ensures HasEventFields(e, url, title, participantName, localTime)
      ensures exists entry :: entry in entries && IsEventOf(e, entry, url, title, participantName, year)
    {
      var entry :| entry in entries && f(entry) == Some(e);
      EventForFields(url, title, participantName, entry, year, localTime);
    }
  }

  /**
   * A participant gets at most one event per ◯ entry, and exactly one per ◯
   * entry when every one of them has labels that parse.
   */
  lemma ICalEventsCount(url: Option<string>, title: string, participantName: string, data: ScheduleData,
                        year: int, localTime: LocalDateTime -> int)
    requires Trim(participantName) in data.participants
    ensures var r := ICalEvents(url, title, participantName, data, year, localTime);
      r.Ok? && |r.value| <= CountConfirmed(data.entries, Trim(participantName))
    ensures (forall e :: e in data.entries && IsConfirmed(e, Trim(participantName))
               ==> ParseJapaneseDate(year, e.date, e.time).Some?)
        ==> |ICalEvents(url, title, participantName, data, year, localTime).value| == CountConfirmed(data.entries, Trim(participantName))
  {
    var name := Trim(participantName);
    var confirmed := ConfirmedEntries(data.entries, name);
    ConfirmedCount(data.entries, name);
    ConfirmedEntriesFrom(data.entries, name);
    if forall e :: e in data.entries && IsConfirmed(e, name) ==> ParseJapaneseDate(year, e.date, e.time).Some? {
      forall i | 0 <= i < |confirmed|
        ensures ParseJapaneseDate(year, confirmed[i].date, confirmed[i].time).Some?
      {
        assert confirmed[i] in confirmed;
      }
    }
    EventsCount(confirmed, url, title, participantName, year, localTime);
  }

  /** The calendar the events are added to. */
  class Calendar {
    var events: seq<Event>

    constructor ()
      ensures events == []
    {
      events := [];
    }

    /** `calendar.createEvent(...)`: the event joins the calendar after the others. */
    method CreateEvent(e: Event)
      modifies this
      ensures events == old(events) + [e]
    {
      events := events + [e];
    }
  }

  lemma UidFromHashes(url: Option<string>, title: string, entry: ScheduleEntry, participantName: string,
                      sourceHash: string, slotHash: string, nameHash: string)
    requires sourceHash == Hash.HashOf(if IsTruthy(url) then url.value else title)
    requires slotHash == Hash.HashOf(entry.date + entry.time)
    requires nameHash == Hash.HashOf(participantName)
    ensures UidPrefix + sourceHash + "-" + slotHash + "-" + nameHash + UidDomain == Uid(url, title, entry, participantName)
  {
  }

  /** The UID of an event: the three `hashCode` calls and the concatenation. */
  method EventUid(url: Option<string>, title: string, entry: ScheduleEntry, participantName: string)
    returns (uid: string)
    ensures uid == Uid(url, title, entry, participantName)
  {
    var source := if IsTruthy(url) then url.value else title;
    var sourceHash := Hash.HashCode(source);
    var slotHash := Hash.HashCode(entry.date + entry.time);
    var nameHash := Hash.HashCode(participantName);
    uid := UidPrefix + sourceHash + "-" + slotHash + "-" + nameHash + UidDomain;
    UidFromHashes(url, title, entry, participantName, sourceHash, slotHash, nameHash);
  }

  /** An entry whose labels do not parse gives no event. */
  lemma EventForNone(url: Option<string>, title: string, participantName: string, entry: ScheduleEntry,
                     year: int, localTime: LocalDateTime -> int)
    requires ParseJapaneseDate(year, entry.date, entry.time).None?
    ensures EventFor(url, title, participantName, entry, year, localTime).None?
  {
  }

  /** An entry whose labels parse to `start` gives the event built from `start`, its local time and its UID. */
  lemma EventOfStart(url: Option<string>, title: string, participantName: string, entry: ScheduleEntry,
                     year: int, localTime: LocalDateTime -> int, start: LocalDateTime, startTime: int, uid: string)
    requires ParseJapaneseDate(year, entry.date, entry.time) == Some(start)
    requires startTime == localTime(start) && uid == Uid(url, title, entry, participantName)
    ensures EventFor(url, title, participantName, entry, year, localTime)
         == Some(Event(start, startTime, startTime + EventDurationMs, title, Description(url, title, participantName), "", uid))
  {
    var e := EventFor(url, title, participantName, entry, year, localTime).value;
    assert e == Event(e.start, e.startTime, e.endTime, e.summary, e.description, e.location, e.uid);
    assert e.start == start;
    assert e.startTime == startTime;
    assert e.endTime == startTime + EventDurationMs;
    assert e.summary == title;
    assert e.description == Description(url, title, participantName);
    assert e.location == "";
    assert e.uid == uid;
  }

  /** The event of an entry whose labels parse to `start`: the times, the description and the UID. */
  method BuildEvent(url: Option<string>, title: string, participantName: string, entry: ScheduleEntry,
                    currentYear: int, localTime: LocalDateTime -> int, start: LocalDateTime)
    returns (event: Event)
    requires ParseJapaneseDate(currentYear, entry.date, entry.time) == Some(start)
    ensures EventFor(url, title, participantName, entry, currentYear, localTime) == Some(event)
  {
    var uid := EventUid(url, title, entry, participantName);
    var startTime := localTime(start);
    event := Event(start, startTime, startTime + EventDurationMs, title, Description(url, title, participantName), "", uid);
    EventOfStart(url, title, participantName, entry, currentYear, localTime, start, startTime, uid);
  }

  /** The body of the `forEach`: parse the labels and, if they parse, build the event and its UID. */
  method CreateEventFor(url: Option<string>, title: string, participantName: string, entry: ScheduleEntry,
                        currentYear: int, localTime: LocalDateTime -> int)
    returns (r: Option<Event>)
    ensures r == EventFor(url, title, participantName, entry, currentYear, localTime)
  {
    var eventDate := ParseJapaneseDate(currentYear, entry.date, entry.time);
    if eventDate.None? {
      EventForNone(url, title, participantName, entry, currentYear, localTime);
      return None;
    }
    var event := BuildEvent(url, title, participantName, entry, currentYear, localTime, eventDate.value);
    return Some(event);
  }

  /** `generateICalForParticipant` up to the printing of the calendar: the events it holds. */
  method GenerateICalForParticipant(url: Option<string>, title: string, participantName: string, scheduleData: ScheduleData,
                                    currentYear: int, localTime: LocalDateTime -> int)
    returns (r: Result<seq<Event>, ScheduleError>)
    ensures r == ICalEvents(url, title, participantName, scheduleData, currentYear, localTime)
  {
    var participantSchedules := GetParticipantSchedule(scheduleData, participantName);
    if participantSchedules.Err? {
      return Err(participantSchedules.error);
    }
    var schedules := participantSchedules.value;
    var calendar := new Calendar();
    var i := 0;
    while i < |schedules|
      invariant 0 <= i <= |schedules|
      invariant calendar.events == Events(schedules[..i], url, title, participantName, currentYear, localTime)
    {
      AddEventFor(calendar, schedules, i, url, title, participantName, currentYear, localTime);
      i := i + 1;
    }
    assert schedules[..i] == schedules;
    return Ok(calendar.events);
  }

  /** One pass of the `forEach`: the entry's event, if its labels parse, joins the calendar. */
  method AddEventFor(calendar: Calendar, schedules: seq<ScheduleEntry>, i: nat, url: Option<string>, title: string,
                     participantName: string, currentYear: int, localTime: LocalDateTime -> int)
    requires i < |schedules|
    requires calendar.events == Events(schedules[..i], url, title, participantName, currentYear, localTime)
    modifies calendar
    ensures calendar.events == Events(schedules[..i + 1], url, title, participantName, currentYear, localTime)
  {
    var event := CreateEventFor(url, title, participantName, schedules[i], currentYear, localTime);
    EventsStep(schedules, i, url, title, participantName, currentYear, localTime, event);
    if event.Some? {
      calendar.CreateEvent(event.value);
    }
  }

  /** With the sample schedule, Bさん gets one event. */
  lemma SampleEventsWithUrl(year: int, localTime: LocalDateTime -> int)
    ensures var r := ICalEvents(Some("https://chouseisan.com/s?h=abc123"), "ゆる飲み", "Bさん", SampleSchedule(), year, localTime);
      r.Ok? && |r.value| == 1
  {
    SampleSecondParticipant();
    SampleDates(year);
    var es := SampleSchedule().entries;
    EventsCount(es[..1], Some("https://chouseisan.com/s?h=abc123"), "ゆる飲み", "Bさん", year, localTime);
  }

  /** Without a URL, Aさん gets three events. */
  lemma SampleEventsWithoutUrl(year: int, localTime: LocalDateTime -> int)
    ensures var r := ICalEvents(None, "ゆる飲み", "Aさん", SampleSchedule(), year, localTime);
      r.Ok? && |r.value| == 3
  {
    SampleFirstParticipant();
    var es := SampleSchedule().entries;
    SampleEntriesParse(year);
    EventsCount(es, None, "ゆる飲み", "Aさん", year, localTime);
  }

  /** The labels of every sample entry parse. */
  lemma SampleEntriesParse(year: int)
    ensures var es := SampleSchedule().entries;
      forall i :: 0 <= i < |es| ==> ParseJapaneseDate(year, es[i].date, es[i].time).Some?
  {
    SampleDates(year);
    var es := SampleSchedule().entries;
    forall i | 0 <= i < |es| ensures ParseJapaneseDate(year, es[i].date, es[i].time).Some? {
      if i == 0 {
        assert es[0].date == "7/14(月)" && es[0].time == "19:00〜";
      } else if i == 1 {
        assert es[1].date == "7/15(火)" && es[1].time == "19:00〜";
      } else {
        assert es[2].date == "7/16(水)" && es[2].time == "19:00〜";
      }
    }
  }

  /** The schedule of the second sample export (テスト, two evenings, where Bさん never marks ◯). */
  function NoConfirmedSchedule(): ScheduleData {
    ScheduleData("テスト",
      [ ScheduleEntry("7/14(月)", "19:00〜", map["Aさん" := "◯", "Bさん" := "×"]),
        ScheduleEntry("7/15(火)", "19:00〜", map["Aさん" := "◯", "Bさん" := "△"]) ],
      ["Aさん", "Bさん"])
  }

  /** Bさん has no ◯ entry, so the calendar holds no event. */
  lemma SampleEventsNoConfirmed(year: int, localTime: LocalDateTime -> int)
    ensures ICalEvents(None, "テスト", "Bさん", NoConfirmedSchedule(), year, localTime) == Ok([])
  {
    TrimFixesTrimmed("Bさん");
    var es := NoConfirmedSchedule().entries;
    assert !IsConfirmed(es[0], "Bさん") && !IsConfirmed(es[1], "Bさん");
    assert es[1..][1..] == [];
    assert ConfirmedEntries(es, "Bさん") == [];
  }

  /** Cさん is not a participant, so there is no calendar. */
  lemma SampleEventsUnknown(year: int, localTime: LocalDateTime -> int)
    ensures ICalEvents(None, "ゆる飲み", "Cさん", SampleSchedule(), year, localTime).Err?
  {
    TrimFixesTrimmed("Cさん");
  }
}
