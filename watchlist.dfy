/**
 * The watch-list reader `get_urls`: a CSV file whose first column holds a
 * repository URL. The header row is skipped; every other row is split on `/`,
 * pieces 3 and 4 become owner and repository, and the row is tagged `gitlab`
 * or `github` by a substring test on the whole URL (`gitlab` is looked for first).
 * Rows naming neither host are dropped. A row without a first column, or
 * whose URL has fewer than five pieces, raises IndexError and ends the run.
 * The CSV tokenizer itself is not modelled: its rows are the input.
 */
module WatchList {
  import opened Common

  datatype Host = GitHub | GitLab

  /** The tag written to the `website` column. */
  function HostName(h: Host): string {
    match h
    case GitHub => "github"
    case GitLab => "gitlab"
  }

  datatype Entry = Entry(owner: string, repo: string, host: Host)

  /** One row as produced by the CSV reader: its columns. */
  type CsvRow = seq<string>

  /** The host tag of a URL; `gitlab` wins when both substrings occur. */
  function Classify(url: string): Option<Host> {
    if Contains(url, "gitlab") then Some(GitLab)
    else if Contains(url, "github") then Some(GitHub)
    else None
  }

  /** A data row that `components[3]` and `components[4]` can be read from. */
  predicate WellFormed(row: CsvRow) {
    |row| >= 1 && |Split(row[0], '/')| >= 5
  }

  /** The entry one data row contributes (None: the row is dropped). */
  function ParseRow(row: CsvRow): (r: PyResult<Option<Entry>>)
    ensures r.Raised? <==> !WellFormed(row)
    ensures r.Raised? ==> r.error == IndexError
    ensures r.Ok? ==> (r.value.None? <==> Classify(row[0]).None?)
    ensures r.Ok? && r.value.Some? ==>
      (r.value.value.host == GitLab <==> Contains(row[0], "gitlab"))
  {
    if |row| == 0 then Raised(IndexError)
    else
      var components := Split(row[0], '/');
      if |components| < 5 then Raised(IndexError)
      else
        match Classify(row[0])
        case None => Ok(None)
        case Some(h) => Ok(Some(Entry(components[3], components[4], h)))
  }

  function Entries(o: Option<Entry>): seq<Entry> {
    match o
    case None => []
    case Some(e) => [e]
  }

  /** Sequencing of two parses: the first exception wins, otherwise the results concatenate. */
  function Then(a: PyResult<seq<Entry>>, b: PyResult<seq<Entry>>): PyResult<seq<Entry>> {
    match a
    case Raised(e) => Raised(e)
    case Ok(x) =>
      match b
      case Raised(e) => Raised(e)
      case Ok(y) => Ok(x + y)
  }

  /** The entries of a run of data rows, in row order. */
  function ParseRows(rows: seq<CsvRow>): PyResult<seq<Entry>>
    decreases |rows|
  {
    if rows == [] then Ok([])
    else
      match ParseRow(rows[0])
      case Raised(e) => Raised(e)
      case Ok(o) => Then(Ok(Entries(o)), ParseRows(rows[1..]))
  }

  /** What `get_urls` returns for the rows of the file: the first row is a header. */
  function ParseWatchList(rows: seq<CsvRow>): PyResult<seq<Entry>> {
    if rows == [] then Ok([]) else ParseRows(rows[1..])
  }

  /** The reading loop of `get_urls`, with its `line_count` counter. */
  method GetUrls(rows: seq<CsvRow>) returns (result: PyResult<seq<Entry>>, lineCount: nat)
    ensures result == ParseWatchList(rows)
    ensures result.Ok? ==> lineCount == |rows|
  {
    var repositories: seq<Entry> := [];
    lineCount := 0;
    var i := 0;
    while i < |rows|
      invariant 0 <= i <= |rows|
      invariant lineCount == i
      invariant i == 0 ==> repositories == []
      invariant i > 0 ==> ParseRows(rows[1..i]) == Ok(repositories)
    {
      var row := rows[i];
      if lineCount == 0 {
        lineCount := lineCount + 1;
        assert rows[1..i + 1] == [];
      } else {
        assert rows[1..i + 1] == rows[1..i] + [row];
        ParseRowsAppend(rows[1..i], [row]);
        ParseRowsSingle(row);
        if |row| == 0 || |Split(row[0], '/')| < 5 {
          FirstFailureDecides(rows, i);
          return Raised(IndexError), lineCount;
        }
        var components := Split(row[0], '/');
        var owner := components[3];
        var repo := components[4];
        if Contains(row[0], "gitlab") {
          assert ParseRow(row) == Ok(Some(Entry(owner, repo, GitLab)));
          repositories := repositories + [Entry(owner, repo, GitLab)];
          lineCount := lineCount + 1;
        } else if Contains(row[0], "github") {
          assert ParseRow(row) == Ok(Some(Entry(owner, repo, GitHub)));
          repositories := repositories + [Entry(owner, repo, GitHub)];
          lineCount := lineCount + 1;
        } else {
          assert ParseRow(row) == Ok(None);
          assert repositories + [] == repositories;
          lineCount := lineCount + 1;
        }
      }
      i := i + 1;
    }
    assert i > 0 ==> rows[1..i] == rows[1..];
    result := Ok(repositories);
  }

  /** The first data row that raises decides the result of the whole file. */
  lemma FirstFailureDecides(rows: seq<CsvRow>, i: nat)
    requires 1 <= i < |rows| && ParseRows(rows[1..i]).Ok? && ParseRow(rows[i]).Raised?
    ensures ParseWatchList(rows) == Raised(ParseRow(rows[i]).error)
  {
    assert rows[1..] == rows[1..i] + rows[i..];
    assert rows[i..][0] == rows[i];
    ParseRowsAppend(rows[1..i], rows[i..]);
  }

  // ---------------------------------------------------------------------------
  // Properties of the reader

  /** Parsing a file in two pieces: entries keep row order, and the first failure wins. */
  lemma {:induction false} ParseRowsAppend(a: seq<CsvRow>, b: seq<CsvRow>)
    ensures ParseRows(a + b) == Then(ParseRows(a), ParseRows(b))
    decreases |a|
  {
    if a == [] {
      assert a + b == b;
      match ParseRows(b)
      case Raised(e) =>
      case Ok(y) => assert [] + y == y;
    } else {
      assert (a + b)[0] == a[0];
      assert (a + b)[1..] == a[1..] + b;
      ParseRowsAppend(a[1..], b);
      match ParseRow(a[0])
      case Raised(e) =>
      case Ok(o) =>
        match ParseRows(a[1..])
        case Raised(e) =>
        case Ok(x) =>
          match ParseRows(b)
          case Raised(e) =>
          case Ok(y) => assert Entries(o) + (x + y) == (Entries(o) + x) + y;
    }
  }

  lemma ParseRowsSingle(row: CsvRow)
    ensures ParseRows([row]) == match ParseRow(row) { case Raised(e) => Raised(e) case Ok(o) => Ok(Entries(o)) }
  {
    assert [row][1..] == [];
    match ParseRow(row)
    case Raised(e) =>
    case Ok(o) => assert Entries(o) + [] == Entries(o);
  }

  /** The reader succeeds exactly when every data row has a URL with at least five pieces. */
  lemma {:induction false} ParseRowsSucceedsIff(rows: seq<CsvRow>)
    ensures ParseRows(rows).Ok? <==> forall k :: 0 <= k < |rows| ==> WellFormed(rows[k])
    decreases |rows|
  {
    if rows != [] {
      ParseRowsSucceedsIff(rows[1..]);
      assert forall k :: 1 <= k < |rows| ==> rows[k] == rows[1..][k - 1];
    }
  }

  /** The header row never contributes, whatever it holds. */
  lemma HeaderIgnored(header: CsvRow, other: CsvRow, rest: seq<CsvRow>)
    ensures ParseWatchList([header] + rest) == ParseWatchList([other] + rest)
    ensures ParseWatchList([header] + rest) == ParseRows(rest)
  {
    assert ([header] + rest)[1..] == rest;
    assert ([other] + rest)[1..] == rest;
  }

  /**
   * Owner and repository are the fourth and fifth `/`-separated pieces of the
   * URL: the URL is those pieces joined by `/`, and no piece contains `/`.
   */
  lemma ParseRowShape(row: CsvRow, e: Entry)
    requires ParseRow(row) == Ok(Some(e))
    ensures e.owner == Split(row[0], '/')[3] && e.repo == Split(row[0], '/')[4]
    ensures exists head: seq<string>, tail: seq<string> ::
      |head| == 3 && (forall p :: p in head + tail ==> '/' !in p) &&
      row[0] == Join(head + [e.owner, e.repo] + tail, '/')
  {
    var parts := Split(row[0], '/');
    JoinSplit(row[0], '/');
    var head, tail := parts[..3], parts[5..];
    assert parts == head + [parts[3], parts[4]] + tail;
    assert forall p :: p in head + tail ==> p in parts;
  }

  /**
   * The pieces around owner and repository cannot be chosen otherwise: for any
   * way of writing the URL as three slash-free pieces, then two more, then
   * slash-free pieces, those two are the row's owner and repository.
   */
  lemma OwnerRepoDetermined(row: CsvRow, e: Entry, head: seq<string>, owner: string, repo: string, tail: seq<string>)
    requires ParseRow(row) == Ok(Some(e))
    requires |head| == 3 && '/' !in owner && '/' !in repo
    requires forall p :: p in head + tail ==> '/' !in p
    requires row[0] == Join(head + [owner, repo] + tail, '/')
    ensures e.owner == owner && e.repo == repo
  {
    var parts := head + [owner, repo] + tail;
    forall k | 0 <= k < |parts| ensures '/' !in parts[k] {
      if k < 3 {
        assert parts[k] in head + tail;
      } else if k >= 5 {
        assert parts[k] == tail[k - 5];
        assert parts[k] in head + tail;
      }
    }
    SplitJoin(parts, '/');
  }

  /** A github.com URL whose repository name mentions gitlab is tagged `gitlab`: that test comes first. */
  lemma GitLabCheckedFirst(owner: string, repo: string, url: string)
    requires '/' !in owner && '/' !in repo && Contains(repo, "gitlab")
    requires url == "https://github.com/" + owner + "/" + repo
    ensures ParseRow([url]) == Ok(Some(Entry(owner, repo, GitLab)))
  {
    assert "https://github.com/" == "https:" + "/" + "" + "/" + "github.com" + "/";
    SplitOfFive("https:", "", "github.com", owner, repo, url);
    ContainsInSuffix("https://github.com/" + owner + "/", repo, "gitlab");
    ParseUrl(url, ["https:", "", "github.com", owner, repo], Some(GitLab));
  }

  /** A row on a host whose URL mentions neither github nor gitlab is dropped without an error. */
  lemma OtherHostDropped(owner: string, repo: string, url: string)
    requires '/' !in owner && '/' !in repo
    requires url == "https://bitbucket.org/" + owner + "/" + repo
    requires !Contains(url, "gitlab") && !Contains(url, "github")
    ensures ParseRow([url]) == Ok(None)
  {
    assert "https://bitbucket.org/" == "https:" + "/" + "" + "/" + "bitbucket.org" + "/";
    SplitOfFive("https:", "", "bitbucket.org", owner, repo, url);
    ParseUrl(url, ["https:", "", "bitbucket.org", owner, repo], None);
  }

  /** A URL built from five slash-free pieces splits back into them. */
  lemma SplitOfFive(scheme: string, empty: string, host: string, owner: string, repo: string, url: string)
    requires '/' !in scheme && '/' !in empty && '/' !in host && '/' !in owner && '/' !in repo
    requires url == scheme + "/" + empty + "/" + host + "/" + owner + "/" + repo
    ensures Split(url, '/') == [scheme, empty, host, owner, repo]
  {
    var parts := [scheme, empty, host, owner, repo];
    assert Join(parts[4..], '/') == repo;
    assert Join(parts[3..], '/') == owner + "/" + repo;
    assert Join(parts[2..], '/') == host + "/" + owner + "/" + repo;
    assert Join(parts[1..], '/') == empty + "/" + host + "/" + owner + "/" + repo;
    assert Join(parts, '/') == url;
    SplitJoin(parts, '/');
  }

  lemma ParseUrl(url: string, parts: seq<string>, h: Option<Host>)
    requires Split(url, '/') == parts && |parts| >= 5 && Classify(url) == h
    ensures ParseRow([url]) == Ok(if h.None? then None else Some(Entry(parts[3], parts[4], h.value)))
  {
    assert [url][0] == url;
  }
}
