/**
 * MainBase: shortening paths for messages, the text progress bar, and the
 * decision logic of fetching the latest template archive, which retries once
 * when the server does not report the archive's size.
 */
module MainBase {
  import opened Wrappers
  import opened Text
  import opened Files
  import opened UiEvents

  const ARCHIVE_ROOT := "/polar-dashboard-master"
  const LATEST_DIR := "PolarLatest"
  const LATEST_ZIP := "PolarLatest.zip"

  /** Where the archive is extracted: CURRENT_DIR/PolarLatest. */
  function ExtractionDir(currentDir: Path): Path {
    Child(currentDir, LATEST_DIR)
  }

  /** The template's root inside the extracted archive. */
  function LatestRoot(currentDir: Path): Path {
    Under(ExtractionDir(currentDir), ARCHIVE_ROOT)
  }

  /**
   * `cleanupPath(from)`: drops the project directory prefix, or else the
   * extracted template root prefix. When the first test fails and no archive was
   * extracted yet (EXTRACTED_ZIP_ROOT null) Java throws a NullPointerException,
   * modelled as None.
   */
  function CleanupPath(from: string, currentDir: Path, extractedRoot: Option<Path>): (r: Option<string>)
    ensures r.None? <==> !StartsWith(from, currentDir) && extractedRoot.None?
    ensures r.Some? ==> EndsWith(from, r.value) && |r.value| <= |from|
    ensures StartsWith(from, currentDir) ==> r.Some? && currentDir + r.value == from
    ensures !StartsWith(from, currentDir) && extractedRoot.Some? ==>
      r.Some? && (if StartsWith(from, extractedRoot.value) then extractedRoot.value + r.value == from else r.value == from)
  {
    if StartsWith(from, currentDir) then
      assert from[..|currentDir|] + from[|currentDir|..] == from;
      Some(from[|currentDir|..])
    else if extractedRoot.None? then None
    else if StartsWith(from, extractedRoot.value) then
      assert from[..|extractedRoot.value|] + from[|extractedRoot.value|..] == from;
      Some(from[|extractedRoot.value|..])
    else Some(from)
  }

  /** Java's `/` on int: the quotient rounded toward zero. */
  function JavaDiv(a: int, b: int): int
    requires b > 0
  {
    if a >= 0 then a / b else -((-a) / b)
  }

  /** The number of times a `for (int i = 0; i < n; i++)` loop runs. */
  function Times(n: int): nat {
    if n > 0 then n else 0
  }

  /** What PROGRESS appends before the bar: a carriage return, the caption and two spaces if any, '['. */
  function ProgressHead(caption: Option<string>): string {
    "\r" + (if caption.Some? then caption.value + "  " else "") + "["
  }

  /**
   * The start of the line PROGRESS prints, up to the bar's closing bracket:
   * percent/10 '=' characters then 10 - percent/10 spaces. With a percentage
   * from 0 to 100 the bar is exactly ten characters wide.
   */
  method Progress(caption: Option<string>, percent: int) returns (text: string)
    ensures var head := ProgressHead(caption);
      var filled := Times(JavaDiv(percent, 10));
      && StartsWith(text, head)
      && |text| == |head| + filled + Times(10 - JavaDiv(percent, 10)) + 1
      && text[|text| - 1] == ']'
      && forall i :: |head| <= i < |text| - 1 ==> text[i] == (if i < |head| + filled then '=' else ' ')
    ensures 0 <= percent <= 100 ==>
      |text| == |ProgressHead(caption)| + 11
      && forall i :: |ProgressHead(caption)| <= i < |ProgressHead(caption)| + 10 ==>
           text[i] == (if i - |ProgressHead(caption)| < percent / 10 then '=' else ' ')
  {
    var sb := "\r";
    if caption.Some? {
      sb := sb + caption.value;
      sb := sb + "  ";
    }
    sb := sb + "[";
    ghost var head := sb;
    assert head == ProgressHead(caption);
    var numOfEqual := JavaDiv(percent, 10);
    var numOfSpace := 10 - numOfEqual;
    var i := 0;
    while i < numOfEqual
      invariant 0 <= i <= Times(numOfEqual)
      invariant |sb| == |head| + i && sb[..|head|] == head
      invariant forall j :: |head| <= j < |sb| ==> sb[j] == '='
    {
      sb := sb + "=";
      i := i + 1;
    }
    var filled := |sb|;
    i := 0;
    while i < numOfSpace
      invariant 0 <= i <= Times(numOfSpace)
      invariant |sb| == filled + i && sb[..|head|] == head
      invariant forall j :: |head| <= j < filled ==> sb[j] == '='
      invariant forall j :: filled <= j < |sb| ==> sb[j] == ' '
    {
      sb := sb + " ";
      i := i + 1;
    }
    assert (sb + "]")[..|head|] == sb[..|head|];
    sb := sb + "]";
    text := sb;
  }

  /**
   * How the transfer of a reachable archive ends: PolarLatest.zip cannot be
   * created, the download breaks off, the extraction fails, or all completes.
   */
  datatype Transfer = Completed | ZipNotCreated | DownloadBroken | ExtractionBroken

  /** What one connection to the archive URL yields: its Content-Length header (if any) and the transfer. */
  datatype Response = Unreachable | Connected(contentLength: Option<string>, transfer: Transfer)

  /** The response to the next connection; none left means the connection fails. */
  function NextResponse(pending: seq<Response>): Response {
    if pending == [] then Unreachable else pending[0]
  }

  function RestResponses(pending: seq<Response>): seq<Response> {
    if pending == [] then [] else pending[1..]
  }

  predicate IsDigit(c: char) {
    '0' <= c <= '9'
  }

  function DigitValue(c: char): nat
    requires IsDigit(c)
  {
    c as int - '0' as int
  }

  function DigitsValue(s: string): nat
    requires forall i :: 0 <= i < |s| ==> IsDigit(s[i])
  {
    if s == [] then 0 else 10 * DigitsValue(s[..|s| - 1]) + DigitValue(s[|s| - 1])
  }

  /** `Long.parseLong(s)` succeeds: an optional sign, ASCII digits, within 64-bit range. */
  predicate ParsesAsLong(s: string) {
    var negative := |s| > 0 && s[0] == '-';
    var digits := if |s| > 0 && (s[0] == '-' || s[0] == '+') then s[1..] else s;
    && |digits| > 0
    && (forall i :: 0 <= i < |digits| ==> IsDigit(digits[i]))
    && (if negative then DigitsValue(digits) <= 0x8000_0000_0000_0000 else DigitsValue(digits) < 0x8000_0000_0000_0000)
  }

  /** The Content-Length header is missing or blank (`null` or `trim().isEmpty()`). */
  predicate NoLength(header: Option<string>) {
    header.None? || IsBlank(header.value)
  }

  /** Everything `downloadArchive` changes: its verdict, TRIES, EXTRACTED_ZIP_ROOT, the events, and the connections used. */
  datatype Fetch = Fetch(ok: bool, tries: nat, extractedRoot: Option<Path>, events: seq<Event>, pending: seq<Response>)

  /** What receiving the archive changes: its verdict, EXTRACTED_ZIP_ROOT and the events. */
  datatype Received = Received(ok: bool, extractedRoot: Option<Path>, events: seq<Event>)

  /**
   * The download and extraction once the length is known: a zip that cannot
   * be created fails before the download is announced; a broken download
   * leaves EXTRACTED_ZIP_ROOT alone; after the download it is
   * CURRENT_DIR/PolarLatest, and it moves to the template root inside it once
   * the archive is extracted.
   */
  function Receive(transfer: Transfer, currentDir: Path, extractedRoot: Option<Path>): Received {
    var zip := Child(currentDir, LATEST_ZIP);
    var dir := ExtractionDir(currentDir);
    var extracting := [ArchiveDownloadStarted, ArchiveDownloadSuccess, StatusUpdate(Extracting(zip, dir))];
    match transfer
    case ZipNotCreated => Received(false, extractedRoot, [ErrorOccurred(DownloadOrExtractionFailed)])
    case DownloadBroken => Received(false, extractedRoot, [ArchiveDownloadStarted, ErrorOccurred(DownloadOrExtractionFailed)])
    case ExtractionBroken => Received(false, Some(dir), extracting + [ErrorOccurred(DownloadOrExtractionFailed)])
    case Completed => Received(true, Some(LatestRoot(currentDir)), extracting + [StatusUpdate(ExtractionComplete)])
  }

  /**
   * `downloadArchive()`. A missing or blank Content-Length is retried once, only
   * while TRIES is 0, and TRIES is never reset; a length that does not parse
   * fails the fetch; otherwise the archive is received.
   */
  function Download(tries: nat, pending: seq<Response>, currentDir: Path, extractedRoot: Option<Path>): Fetch
    decreases if tries == 0 then 1 else 0
  {
    var contacting := if tries == 0 then [StatusUpdate(ContactingGitHub)] else [];
    var rest := RestResponses(pending);
    match NextResponse(pending)
    case Unreachable =>
      Fetch(false, tries, extractedRoot, contacting + [ErrorOccurred(DownloadOrExtractionFailed)], rest)
    case Connected(header, transfer) =>
      if NoLength(header) then
        if tries > 0 then Fetch(false, tries, extractedRoot, contacting + [ErrorOccurred(NoContentLength)], rest)
        else
          var retry := Download(tries + 1, rest, currentDir, extractedRoot);
          retry.(events := contacting + retry.events)
      else if !ParsesAsLong(header.value) then
        Fetch(false, tries, extractedRoot, contacting + [ArchiveDownloadFailed], rest)
      else
        var r := Receive(transfer, currentDir, extractedRoot);
        Fetch(r.ok, tries, r.extractedRoot, contacting + r.events, rest)
  }

  /**
   * At most two connections: a second one only when TRIES was 0 and the first
   * response had no usable length; TRIES becomes 1 exactly then and otherwise
   * stays as it was.
   */
  lemma DownloadRetriesOnce(tries: nat, pending: seq<Response>, currentDir: Path, extractedRoot: Option<Path>)
    ensures var f := Download(tries, pending, currentDir, extractedRoot);
      var retried := tries == 0 && NextResponse(pending).Connected? && NoLength(NextResponse(pending).contentLength);
      && f.tries == (if retried then 1 else tries)
      && f.pending == (if retried then RestResponses(RestResponses(pending)) else RestResponses(pending))
  {
  }

  /** Once TRIES is above 0, a missing length fails at once, with the error event and no retry. */
  lemma NoSecondRetry(tries: nat, pending: seq<Response>, currentDir: Path, extractedRoot: Option<Path>)
    requires tries > 0
    requires NextResponse(pending).Connected? && NoLength(NextResponse(pending).contentLength)
    ensures var f := Download(tries, pending, currentDir, extractedRoot);
      !f.ok && f.tries == tries && f.events == [ErrorOccurred(NoContentLength)]
  {
  }

  /** "Contacting GitHub" is reported once per call made with TRIES at 0, and never otherwise. */
  lemma ContactingOnlyFirst(tries: nat, pending: seq<Response>, currentDir: Path, extractedRoot: Option<Path>)
    ensures var f := Download(tries, pending, currentDir, extractedRoot);
      && (tries == 0 ==> |f.events| > 0 && f.events[0] == StatusUpdate(ContactingGitHub)
                         && StatusUpdate(ContactingGitHub) !in f.events[1..])
      && (tries > 0 ==> StatusUpdate(ContactingGitHub) !in f.events)
  {
    var f := Download(tries, pending, currentDir, extractedRoot);
    if tries > 0 {
      NoContactingOnRetry(tries, pending, currentDir, extractedRoot);
    } else {
      match NextResponse(pending)
      case Unreachable =>
      case Connected(header, transfer) =>
        if NoLength(header) {
          var retry := Download(1, RestResponses(pending), currentDir, extractedRoot);
          NoContactingOnRetry(1, RestResponses(pending), currentDir, extractedRoot);
          assert f.events == [StatusUpdate(ContactingGitHub)] + retry.events;
          assert f.events[1..] == retry.events;
        } else if ParsesAsLong(header.value) {
          var r := Receive(transfer, currentDir, extractedRoot);
          assert f.events == [StatusUpdate(ContactingGitHub)] + r.events;
          assert f.events[1..] == r.events;
        }
    }
  }

  /** With TRIES above 0 the "Contacting GitHub" status is not reported. */
  lemma NoContactingOnRetry(tries: nat, pending: seq<Response>, currentDir: Path, extractedRoot: Option<Path>)
    requires tries > 0
    ensures StatusUpdate(ContactingGitHub) !in Download(tries, pending, currentDir, extractedRoot).events
  {
  }

  /**
   * The fetch succeeds exactly when a connection with a parsable length
   * completes, on the first attempt or on the single retry, and then the
   * template root is CURRENT_DIR/PolarLatest/polar-dashboard-master.
   */
  lemma DownloadSucceeds(tries: nat, pending: seq<Response>, currentDir: Path, extractedRoot: Option<Path>)
    ensures var f := Download(tries, pending, currentDir, extractedRoot);
      var first := NextResponse(pending);
      var second := NextResponse(RestResponses(pending));
      && (f.ok <==> Usable(first) || (tries == 0 && first.Connected? && NoLength(first.contentLength) && Usable(second)))
      && (f.ok ==> f.extractedRoot == Some(currentDir + "/" + LATEST_DIR + ARCHIVE_ROOT))
  {
  }

  /** A response the archive can be fetched and extracted from. */
  predicate Usable(r: Response) {
    r.Connected? && !NoLength(r.contentLength) && ParsesAsLong(r.contentLength.value) && r.transfer == Completed
  }

  /** Fetching never reports the whole upgrade as successful. */
  lemma {:induction false} DownloadNeverSignalsSuccess(tries: nat, pending: seq<Response>, currentDir: Path,
                                                       extractedRoot: Option<Path>)
    ensures UpdateSuccessful !in Download(tries, pending, currentDir, extractedRoot).events
    decreases if tries == 0 then 1 else 0
  {
    var contacting := if tries == 0 then [StatusUpdate(ContactingGitHub)] else [];
    var f := Download(tries, pending, currentDir, extractedRoot);
    match NextResponse(pending)
    case Unreachable =>
    case Connected(header, transfer) =>
      if NoLength(header) && tries == 0 {
        DownloadNeverSignalsSuccess(1, RestResponses(pending), currentDir, extractedRoot);
        assert f.events == contacting + Download(1, RestResponses(pending), currentDir, extractedRoot).events;
      } else if !NoLength(header) && ParsesAsLong(header.value) {
        assert f.events == contacting + Receive(transfer, currentDir, extractedRoot).events;
      }
  }

  /** The network: the responses the next connections to the archive URL will get. */
  class Network {
    var pending: seq<Response>

    constructor (responses: seq<Response>)
      ensures pending == responses
    {
      pending := responses;
    }

    /** Opening a connection to the archive URL. */
    method Connect() returns (r: Response)
      modifies this
      ensures r == NextResponse(old(pending)) && pending == RestResponses(old(pending))
    {
      r := NextResponse(pending);
      pending := RestResponses(pending);
    }
  }
}
