/** The host's "My Elections" page: for each listed election a share link, the
    buttons that depend on whether it is closed, and the spreadsheet download
    with its file name. */
module MyElectionsPage {
  import opened Base
  import opened Text
  import opened Tally

  // ---------------------------------------------------------------------------
  // The download file name

  /** A character the class `[a-z0-9]` matches under the `i` flag. */
  predicate IsAsciiAlnum(c: char)
  {
    ('a' <= c <= 'z') || ('A' <= c <= 'Z') || ('0' <= c <= '9')
  }

  /** `title.replace(/[^a-z0-9]/gi, '_')`: every character other than an ASCII
      letter or digit becomes `_`, one for one. */
  function Sanitize(title: string): (r: string)
    ensures |r| == |title|
    ensures forall i :: 0 <= i < |r| ==> IsAsciiAlnum(r[i]) || r[i] == '_'
  {
    seq(|title|, i requires 0 <= i < |title| => if IsAsciiAlnum(title[i]) then title[i] else '_')
  }

  /** Letters and digits stay where they were; everything else is `_`. */
  lemma SanitizeKeepsAlnum(title: string, i: nat)
    requires i < |title|
    ensures IsAsciiAlnum(title[i]) ==> Sanitize(title)[i] == title[i]
    ensures !IsAsciiAlnum(title[i]) ==> Sanitize(title)[i] == '_'
  {
  }

  /** Sanitising a sanitised name changes nothing. */
  lemma SanitizeIdempotent(title: string)
    ensures Sanitize(Sanitize(title)) == Sanitize(title)
  {
  }

  /** A title made of letters and digits only is its own file-name stem. */
  lemma SanitizeKeepsPlainTitles(title: string)
    requires forall i :: 0 <= i < |title| ==> IsAsciiAlnum(title[i])
    ensures Sanitize(title) == title
  {
  }

  const ResultsSuffix: string := "_results.xlsx"

  /** `` `${title.replace(...)}_results.xlsx` ``. */
  function DownloadName(title: string): string
  {
    Sanitize(title) + ResultsSuffix
  }

  /** Whatever the title, the file name is the sanitised title followed by
      `_results.xlsx`, and every character of it is an ASCII letter or digit,
      `_` or `.`. */
  lemma DownloadNameShape(title: string)
    ensures var name := DownloadName(title);
      && |name| == |title| + |ResultsSuffix|
      && name[..|title|] == Sanitize(title)
      && name[|title|..] == ResultsSuffix
      && forall i :: 0 <= i < |name| ==> IsAsciiAlnum(name[i]) || name[i] == '_' || name[i] == '.'
  {
    var name := DownloadName(title);
    forall i | 0 <= i < |name|
      ensures IsAsciiAlnum(name[i]) || name[i] == '_' || name[i] == '.'
    {
      if i >= |title| {
        assert name[i] == ResultsSuffix[i - |title|];
      }
    }
  }

  // ---------------------------------------------------------------------------
  // The share link

  const ElectionPath: string := "/election/"

  /** `` `${(NEXT_PUBLIC_APP_BASE_URL || '').trim()}/election/${id}` ``, the same
      string in the read-only field and in the copy button. */
  function ShareLink(baseUrl: Option<string>, id: string): string
  {
    Trim(OrElse(baseUrl, "")) + ElectionPath + id
  }

  /** The link is the trimmed base URL, then `/election/`, then the id; the id
      is read back as what follows that prefix. */
  lemma ShareLinkParts(baseUrl: Option<string>, id: string)
    ensures var base := Trim(OrElse(baseUrl, ""));
      var link := ShareLink(baseUrl, id);
      && |link| == |base| + |ElectionPath| + |id|
      && link[..|base|] == base
      && link[|base|..|base| + |ElectionPath|] == ElectionPath
      && link[|base| + |ElectionPath|..] == id
  {
  }

  /** Without a base URL, or with a blank one, the link is the bare path. */
  lemma ShareLinkWithoutBase(baseUrl: Option<string>, id: string)
    requires baseUrl.None? || IsBlank(baseUrl.value)
    ensures ShareLink(baseUrl, id) == ElectionPath + id
  {
    var base := OrElse(baseUrl, "");
    assert AllWhitespace(base);
    BlankIsTrimmedEmpty(base);
    assert Trim(base) == [];
    assert [] + (ElectionPath + id) == ElectionPath + id;
  }

  /** Different elections get different links. */
  lemma ShareLinkInjective(baseUrl: Option<string>, id1: string, id2: string)
    requires ShareLink(baseUrl, id1) == ShareLink(baseUrl, id2)
    ensures id1 == id2
  {
    ShareLinkParts(baseUrl, id1);
    ShareLinkParts(baseUrl, id2);
  }

  // ---------------------------------------------------------------------------
  // The buttons of one election

  /** The state of the "Close Election" button. */
  datatype CloseButton = NoCloseButton | CloseEnabled | Closing

  /** The buttons of one listed election: closing is offered only while it is
      open, and greyed out as "Closing..." while its own close request runs;
      the download is offered only once it is closed. */
  datatype Buttons = Buttons(close: CloseButton, download: bool)

  function ButtonsFor(closed: bool, id: string, closingId: Option<string>): (r: Buttons)
    ensures r.close.NoCloseButton? <==> closed
    ensures r.download <==> closed
    ensures r.close.Closing? <==> !closed && closingId == Some(id)
  {
    Buttons(if closed then NoCloseButton
            else if closingId == Some(id) then Closing
            else CloseEnabled,
            closed)
  }

  /** Exactly one of "Close Election" and "Download Excel" is shown. */
  lemma CloseOrDownload(closed: bool, id: string, closingId: Option<string>)
    ensures var b := ButtonsFor(closed, id, closingId);
      b.download != !b.close.NoCloseButton?
  {
  }

  // ---------------------------------------------------------------------------
  // What the buttons lead to

  /** What `downloadResults` ends in. */
  datatype Outcome = Download(fileName: string, rows: seq<ReportRow>) | Alert(message: string)

  /** `downloadResults` once the response is in (lines 91-95): the file is
      written only when the response is ok and carries `results`; otherwise the
      alert shows the server's error, or "No results available" without one. */
  function DownloadOutcome(ok: bool, results: Option<seq<ReportRow>>, error: Option<string>, title: string)
    : (r: Outcome)
    ensures r.Download? <==> ok && results.Some?
    ensures r.Download? ==> r.fileName == DownloadName(title) && r.rows == results.value
    ensures r.Alert? ==> r.message == "Failed to download results: " + OrElse(error, "No results available")
  {
    if ok && results.Some? then Download(DownloadName(title), results.value)
    else Alert("Failed to download results: " + OrElse(error, "No results available"))
  }

  /** The answer of the results route as the page reads it: status 200 with
      `results`, or an error status with `error`. A body-less answer (`Ended`)
      would make `response.json()` throw on the page; the results route never
      gives one (`Database.Db.ElectionResults` answers `Rejected` or `Ok`), so
      that path is read here as a failure without an error text. */
  function Fields(response: Response<seq<ReportRow>>): (bool, Option<seq<ReportRow>>, Option<string>)
  {
    match response
    case Ok(rows) => (true, Some(rows), None)
    case Rejected(_, error) => (false, None, Some(error))
    case Ended(_) => (false, None, None)
  }

  /** Downloading an election's results writes the whole report to the file
      named after the title exactly when the results route answers 200; any
      error the route reports reaches the alert. */
  lemma DownloadOfResponse(response: Response<seq<ReportRow>>, title: string)
    ensures var (ok, results, error) := Fields(response);
      var r := DownloadOutcome(ok, results, error, title);
      && (r.Download? <==> response.Ok?)
      && (response.Ok? ==> r == Download(DownloadName(title), response.body))
      && (response.Rejected? && response.error != "" ==>
            r == Alert("Failed to download results: " + response.error))
  {
  }

  /** `closeElection` once the response is in (lines 69-77): a success alert
      and a reload of the list, or the server's error ("Unknown error" without
      one). */
  datatype CloseOutcome = Closed | CloseFailed(message: string)

  function CloseResult(ok: bool, error: Option<string>): (r: CloseOutcome)
    ensures r.Closed? <==> ok
    ensures !ok ==> r.message == "Failed to close election: " + OrElse(error, "Unknown error")
  {
    if ok then Closed else CloseFailed("Failed to close election: " + OrElse(error, "Unknown error"))
  }
}
