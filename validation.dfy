/**
 * The two decisions the input form makes before anything is generated: which
 * input mode the filled-in fields select, and whether a URL is a chouseisan
 * poll URL. The error display that goes with a rejection is not modelled.
 */
module Validation {

  import opened Wrappers
  import opened Text
  import opened IcalGenerator

  // ---------------------------------------------------------------------------
  // Input mode: `determineInputMode`

  datatype InputMode = UrlMode | CsvMode | Invalid

  /** `determineInputMode`: CSV text wins; otherwise URL and name are both needed. */
  function DetermineInputMode(url: string, name: string, csvData: string): (mode: InputMode)
    ensures mode == CsvMode <==> !AllWs(csvData)
    ensures mode == UrlMode <==> AllWs(csvData) && !AllWs(url) && !AllWs(name)
    ensures mode == Invalid <==> AllWs(csvData) && (AllWs(url) || AllWs(name))
  {
    var hasUrl := Trim(url) != [];
    var hasName := Trim(name) != [];
    var hasCsv := Trim(csvData) != [];
    if hasCsv then CsvMode
    else if hasUrl && hasName then UrlMode
    else Invalid
  }

  /** Only the blankness of each field matters: whitespace-only text counts as empty. */
  lemma ModeDependsOnlyOnBlankness(url: string, name: string, csvData: string,
                                   url': string, name': string, csvData': string)
    requires AllWs(url) == AllWs(url') && AllWs(name) == AllWs(name') && AllWs(csvData) == AllWs(csvData')
    ensures DetermineInputMode(url, name, csvData) == DetermineInputMode(url', name', csvData')
  {
  }

  /** Some inputs: pasted CSV, a URL with a name, a URL with a blank name, nothing at all. */
  lemma SampleModes()
    ensures DetermineInputMode("", "", "ゆる飲み\n日程,Aさん") == CsvMode
    ensures DetermineInputMode("https://chouseisan.com/s?h=abc123", "Aさん", " \n　") == UrlMode
    ensures DetermineInputMode("https://chouseisan.com/s?h=abc123", "　", "") == Invalid
    ensures DetermineInputMode("", "", "") == Invalid
  {
    assert !IsWs("ゆる飲み\n日程,Aさん"[0]);
    assert !IsWs("https://chouseisan.com/s?h=abc123"[0]);
    assert !IsWs("Aさん"[0]);
    assert AllWs(" \n　") by {
      assert forall i :: 0 <= i < 3 ==> " \n　"[i] in {' ', '\n', '　'};
    }
    assert AllWs("　") by {
      assert "　"[0] == '　';
    }
  }

  // ---------------------------------------------------------------------------
  // Poll URLs: `validateChouseisanUrl`

  const Domain: string := "chouseisan.com"
  const PollPath: string := "chouseisan.com/s?h="

  /** After the scheme: `chouseisan\.com\/s\?h=[a-f0-9]+$`. */
  predicate MatchesAfterScheme(rest: string) {
    StartsWith(rest, PollPath) && |rest| > |PollPath| && AllHex(rest[|PollPath|..])
  }

  /** `/^https?:\/\/chouseisan\.com\/s\?h=[a-f0-9]+$/.test(url)`. */
  predicate MatchesPollPattern(url: string) {
    || (StartsWith(url, "http://") && MatchesAfterScheme(url[7..]))
    || (StartsWith(url, "https://") && MatchesAfterScheme(url[8..]))
  }

  /** `validateChouseisanUrl` without its error display: the domain test, then the pattern. */
  function ValidateChouseisanUrl(url: string): (ok: bool)
    ensures ok ==> Contains(url, Domain)
  {
    if !Contains(url, Domain) then false
    else if !MatchesPollPattern(url) then false
    else true
  }

  /** The poll URL with the given scheme and id. */
  function PollUrl(secure: bool, id: string): (url: string)
    ensures |url| > |id|
  {
    (if secure then "https" else "http") + "://" + PollPath + id
  }

  lemma PollUrlPieces(secure: bool, id: string)
    ensures var scheme := if secure then "https://" else "http://";
      && StartsWith(PollUrl(secure, id), scheme)
      && PollUrl(secure, id)[|scheme|..] == PollPath + id
      && !StartsWith(PollUrl(secure, id), if secure then "http://" else "https://")
  {
    var url := PollUrl(secure, id);
    var scheme := if secure then "https://" else "http://";
    assert url == scheme + (PollPath + id);
    assert url[4] == (if secure then 's' else ':');
  }

  lemma PollPathThen(id: string)
    ensures MatchesAfterScheme(PollPath + id) <==> id != [] && AllHex(id)
  {
    var rest := PollPath + id;
    assert rest[..|PollPath|] == PollPath;
    assert rest[|PollPath|..] == id;
  }

  /** The pattern holds exactly for the poll URLs with a non-empty hex id. */
  lemma PollUrlMatches(secure: bool, id: string)
    ensures MatchesPollPattern(PollUrl(secure, id)) <==> id != [] && AllHex(id)
  {
    PollUrlPieces(secure, id);
    PollPathThen(id);
  }

  /** Whatever the pattern accepts contains the domain, so the first test never decides alone. */
  lemma PatternImpliesDomain(url: string)
    requires MatchesPollPattern(url)
    ensures Contains(url, Domain)
  {
    if StartsWith(url, "http://") && MatchesAfterScheme(url[7..]) {
      DomainAfterScheme(url, 7);
    } else {
      DomainAfterScheme(url, 8);
    }
  }

  lemma DomainAfterScheme(url: string, k: nat)
    requires k <= |url| && MatchesAfterScheme(url[k..])
    ensures Contains(url, Domain)
  {
    assert url[k..][..|PollPath|] == PollPath;
    assert PollPath[..|Domain|] == Domain;
    assert url[k..k + |Domain|] == url[k..][..|PollPath|][..|Domain|];
    assert OccursAt(url, Domain, k);
  }

  /** `validateChouseisanUrl` accepts exactly the URLs the pattern matches. */
  lemma ValidateIsPattern(url: string)
    ensures ValidateChouseisanUrl(url) <==> MatchesPollPattern(url)
  {
    if MatchesPollPattern(url) {
      PatternImpliesDomain(url);
    }
  }

  /** Every poll URL with a non-empty lower-case hex id is accepted. */
  lemma PollUrlAccepted(secure: bool, id: string)
    requires id != [] && AllHex(id)
    ensures ValidateChouseisanUrl(PollUrl(secure, id))
  {
    PollUrlMatches(secure, id);
    ValidateIsPattern(PollUrl(secure, id));
  }

  /** Every accepted URL is such a poll URL. */
  lemma AcceptedIsPollUrl(url: string) returns (secure: bool, id: string)
    requires ValidateChouseisanUrl(url)
    ensures id != [] && AllHex(id)
    ensures url == PollUrl(secure, id)
  {
    ValidateIsPattern(url);
    secure := !(StartsWith(url, "http://") && MatchesAfterScheme(url[7..]));
    var k := if secure then 8 else 7;
    var scheme := if secure then "https://" else "http://";
    assert StartsWith(url, scheme) && MatchesAfterScheme(url[k..]);
    var rest := url[k..];
    id := rest[|PollPath|..];
    assert rest[..|PollPath|] == PollPath;
    assert rest == rest[..|PollPath|] + id;
    assert url == url[..k] + rest;
    assert url[..k] == scheme == (if secure then "https" else "http") + "://";
  }

  /** Text after the id that is not hex, such as a query or a path, is rejected. */
  lemma TrailingTextRejected(secure: bool, id: string, tail: string)
    requires !AllHex(tail)
    ensures !ValidateChouseisanUrl(PollUrl(secure, id) + tail)
  {
    assert PollUrl(secure, id) + tail == PollUrl(secure, id + tail);
    PollUrlMatches(secure, id + tail);
    ValidateIsPattern(PollUrl(secure, id + tail));
    var k :| 0 <= k < |tail| && !IsHex(tail[k]);
    assert (id + tail)[|id| + k] == tail[k];
  }

  /** Neither scheme prefix of a poll URL holds an `=` before `h=`. */
  lemma NoEqualsBeforeId(secure: bool)
    ensures '=' !in (if secure then "https" else "http") + "://" + "chouseisan.com/s?"
  {
  }

  /**
   * For an accepted URL the poll id is the whole hex suffix after `h=`, so the
   * file name is built from it rather than from the fallback prefix.
   */
  lemma AcceptedUrlId(url: string, participantName: string) returns (id: string)
    requires ValidateChouseisanUrl(url)
    ensures url == PollUrl(url[4] == 's', id)
    ensures ExtractChouseisanId(url) == Some(id)
    ensures GenerateFilename(Some(url), participantName) == id + "-" + Base64Name(participantName) + FileExtension
  {
    var secure;
    secure, id := AcceptedIsPollUrl(url);
    PollUrlPieces(secure, id);
    var prefix := (if secure then "https" else "http") + "://" + "chouseisan.com/s?";
    assert url == prefix + "h=" + id;
    NoEqualsBeforeId(secure);
    ExtractAfterPrefix(prefix, id);
  }

  /** The https poll URL with the 32-digit id gives that id and Bさん's base64 as the file name. */
  lemma SampleLongIdFilename()
    ensures GenerateFilename(Some(PollUrl(true, "02d742a89fd040959ebbf75e1514be62")), "Bさん")
         == "02d742a89fd040959ebbf75e1514be62" + "-" + "QuOBleOCkw==" + ".ics"
  {
    var id := "02d742a89fd040959ebbf75e1514be62";
    PollUrlAccepted(true, id);
    var found := AcceptedUrlId(PollUrl(true, id), "Bさん");
    PollUrlPieces(true, id);
    PollUrlPieces(true, found);
    assert PollPath + found == PollPath + id;
    assert found == (PollPath + found)[|PollPath|..];
    SampleBase64NameB();
  }

  lemma SampleUrls()
    ensures ValidateChouseisanUrl(PollUrl(true, "abc123"))
    ensures ValidateChouseisanUrl(PollUrl(false, "02d742a89fd040959ebbf75e1514be62"))
    ensures !ValidateChouseisanUrl(PollUrl(true, "abc123") + "&x=1")
    ensures !ValidateChouseisanUrl(PollUrl(true, "ABC123"))
  {
    PollUrlAccepted(true, "abc123");
    PollUrlAccepted(false, "02d742a89fd040959ebbf75e1514be62");
    assert !IsHex("&x=1"[0]);
    TrailingTextRejected(true, "abc123", "&x=1");
    PollUrlMatches(true, "ABC123");
    assert !IsHex("ABC123"[0]);
    ValidateIsPattern(PollUrl(true, "ABC123"));
  }
}
