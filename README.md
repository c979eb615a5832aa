# ratatoskr, modelled in Dafny

ratatoskr watches a list of GitHub and GitLab repositories. It records the
latest release and commit of each in a SQLite tracker, and posts a chat
notification (Rocket.Chat, Discord, Microsoft Teams or Slack) whenever either
one changes. This project models the part of the checker that makes decisions,
and proves properties of that model:

- the watch-list reader `get_urls` (module `WatchList`, file `watchlist.dfy`);
- the `repo` tracker table and its SQL statements, as a class over the sequence
  of rows (`Tracker`, `tracker.dfy`). The load loop's effect and its
  idempotence are proved there;
- the provider classifiers that turn an API response into a release or commit
  reference, and the rate-limit reader (`Providers`, `providers.dfy`);
- change detection for one tracked repository (`Detector`, `detector.dfy`);
- webhook payloads, the POST with its single retry after a 429 (RFC 6585,
  section 4), and the spool file of undelivered messages (`Notify`,
  `notify.dfy`);
- start-up decisions, the load and check loops of `main`, and the rate-limit
  wait (`Orchestrator`, `orchestrator.dfy`).

The repository holds three generations of the checker. `src/ratatoskr/ratatoskr.py`
is the current one. `ratatoskr/ratatoskr.py` is the middle one, with several
providers and an older Rocket.Chat payload. The root `ratatoskr.py` is the
original, Rocket.Chat only, with a `--prep` mode and a rate-limit wait. The
model covers all three: `Notify.Version` selects the delivery behaviour, and
`CurrentPlan`, `MiddlePlan` and `OriginalPlan` model the three start-ups. The
table operations, the watch-list reader and the check loop are the same in
all three.

Python exceptions that the code does not catch are modelled as values
(`PyResult.Raised`), except where "## Left out" names a precondition instead
(a missing tracker table, a reported reference that is not a JSON string).
Among them are:
- an IndexError for a watch-list URL with fewer than five `/`-separated pieces,
  or for an empty list of releases or commits;
- a KeyError for a missing rate-limit header, a missing field, or an error
  object where the code indexes a list (a GitLab commit answer, for instance);
- a TypeError for a missing `Content-Type` header, whose substring test then
  runs on None, or for indexing a body that is neither a list nor an object;
- a ValueError for an undecodable body;
- an AttributeError for a body that is not an object where the code calls
  `.get`, and for a spool file holding the wrong kind of JSON document;
- an UnboundLocalError for a GitLab release answer that is not JSON;
- a ZeroDivisionError for an empty table at the Original rate-limit wait, and
  a ValueError for a negative sleep there.

HTTP responses, the webhook's status codes, environment variables and
timestamps are inputs of the model.

Some behaviours of the code are easy to misread, and the model states them:

- An observed null does overwrite a stored reference. Both updates of the
  check loop write the observed `(commit, release)` pair, so a new release
  seen together with no commit erases the stored commit
  (`Detector.NoCommitObservedErasesStoredCommit`).
- An update that matches no row is a silent no-op, not an error
  (`Tracker.UpdateWithoutMatch`).
- A provider fault can abort the whole run. An exception raised by a
  classifier or by `save_messages` ends the check loop
  (`Orchestrator.CheckLoop`).
- Success of a webhook POST is requests' `response.ok`. That is false only for
  statuses 400 to 599; it is not "status below 400".

## Model

| member | source | states |
|---|---|---|
| WatchList.ParseRow | src/ratatoskr/ratatoskr.py:158-171 | a data row raises IndexError exactly when it has no first column or its URL splits into fewer than five `/` pieces; it is dropped exactly when the URL mentions neither host; it is tagged gitlab exactly when "gitlab" occurs in the URL |
| WatchList.GetUrls | src/ratatoskr/ratatoskr.py:144-173 | the reading loop returns the entries of every row after the first, in row order, or the first row's IndexError; on success the line count is the number of rows; the middle version's reader is the same loop (ratatoskr/ratatoskr.py, lines 67-96); the original version's reader is the same loop (ratatoskr.py, lines 71-100) |
| WatchList.ParseRowsAppend | src/ratatoskr/ratatoskr.py:155-171 | reading a file in two parts concatenates the entries in order, and the first failing row decides the exception |
| WatchList.ParseRowsSucceedsIff | src/ratatoskr/ratatoskr.py:158-160 | the reader succeeds exactly when every data row has a URL with at least five pieces |
| WatchList.HeaderIgnored | src/ratatoskr/ratatoskr.py:155-157 | whatever the first row holds, the result is that of the remaining rows |
| WatchList.ParseRowShape | src/ratatoskr/ratatoskr.py:158-160 | owner and repository are pieces 3 and 4 (counting from 0) of the URL split on `/`; the URL is three slash-free pieces, owner, repository and more slash-free pieces, joined by `/` |
| WatchList.OwnerRepoDetermined | src/ratatoskr/ratatoskr.py:158-160 | whichever way the URL is written as three slash-free pieces, two slash-free pieces and further slash-free pieces, those two are the owner and repository |
| WatchList.GitLabCheckedFirst | src/ratatoskr/ratatoskr.py:161-167 | a github.com URL whose repository name contains "gitlab" is tagged gitlab |
| WatchList.OtherHostDropped | src/ratatoskr/ratatoskr.py:169-171 | a URL naming neither host yields no entry and no error |
| Tracker.Select | src/ratatoskr/ratatoskr.py:388-396 | a row value is selected exactly when it is in the table and names the owner and repository; nothing is selected exactly when no row names them |
| Tracker.SelectAppend | src/ratatoskr/ratatoskr.py:388-396 | the lookup goes row by row in storage order: on a table stored in two parts it returns the parts' matches concatenated, so every match appears, in order, as often as it is stored |
| Tracker.Without | src/ratatoskr/ratatoskr.py:358-376 | a row survives the delete exactly when it does not name the owner and repository; survivors and deleted rows add up to the table |
| Tracker.WithoutAppend | src/ratatoskr/ratatoskr.py:358-376 | the delete keeps the surviving rows in storage order: on a table stored in two parts it keeps each part's survivors, concatenated |
| Tracker.Updated | src/ratatoskr/ratatoskr.py:293-315 | every row matching owner, repo and website gets the new commit, release and timestamp; keys never change; every other row is unchanged |
| Tracker.TrackerDb.ConfirmTable | src/ratatoskr/ratatoskr.py:341-355 | reports whether the table exists |
| Tracker.TrackerDb.BootstrapDb | src/ratatoskr/ratatoskr.py:399-414 | creates the table, succeeding exactly when it did not exist, and keeps the rows |
| Tracker.TrackerDb.PrepareDatabase | src/ratatoskr/ratatoskr.py:608-670 | whether or not the file existed, the table exists afterwards, the result is success, and the rows are kept |
| Tracker.TrackerDb.InsertRepo | src/ratatoskr/ratatoskr.py:318-338 | appends one row with NULL release and commit |
| Tracker.TrackerDb.UpdateTracker | src/ratatoskr/ratatoskr.py:293-315 | the table becomes `Updated` of the old table; the middle version's update is the same statement (ratatoskr/ratatoskr.py, lines 205-223) |
| Tracker.TrackerDb.DeleteRepo | src/ratatoskr/ratatoskr.py:358-376 | the table becomes `Without` of the old table |
| Tracker.TrackerDb.ConfirmRepo | src/ratatoskr/ratatoskr.py:379-396 | true exactly when some row has this owner and repository, whatever its website; the original version's lookup is the same query (ratatoskr.py, lines 280-293) |
| Tracker.TrackerDb.ReadRepositories | src/ratatoskr/ratatoskr.py:430-443 | returns every row in storage order |
| Tracker.InsertConfirms | src/ratatoskr/ratatoskr.py:318-338 | after an insert the pair is confirmed, and every other pair keeps its status |
| Tracker.DeleteUnconfirms | src/ratatoskr/ratatoskr.py:358-376 | after a delete the pair is no longer confirmed, and every other pair keeps its status |
| Tracker.UpdateWithoutMatch | src/ratatoskr/ratatoskr.py:303 | an update matching no row leaves the table unchanged |
| Tracker.UpdateIdempotent | src/ratatoskr/ratatoskr.py:303 | repeating an update changes nothing more |
| Tracker.UpdateKeepsConfirmed | src/ratatoskr/ratatoskr.py:303 | an update never changes which pairs are confirmed |
| Tracker.InsertThenUpdate | src/ratatoskr/ratatoskr.py:293-338 | insert then update gives a row holding exactly the updated references, and earlier rows are untouched |
| Tracker.LoadKeepsExisting | src/ratatoskr/ratatoskr.py:776-789 | loading only appends: every earlier row keeps its place and contents |
| Tracker.LoadConfirmsAll | src/ratatoskr/ratatoskr.py:776-789 | after loading, every watch-list entry is confirmed by owner and repository |
| Tracker.LoadConfirmedIsNoop | src/ratatoskr/ratatoskr.py:776-789 | loading entries that are all confirmed inserts nothing |
| Tracker.LoadIdempotent | src/ratatoskr/ratatoskr.py:776-789 | loading the same watch list twice adds no rows the second time; the middle version's load loop is the same, so the same holds (ratatoskr/ratatoskr.py, lines 614-624) |
| Tracker.LoadAddsOnlyNew | src/ratatoskr/ratatoskr.py:779-787 | every added row has NULL release and commit, comes from an entry, and names a pair that was not confirmed before; the original version's load loop inserts only unconfirmed pairs, with NULL references (ratatoskr.py, lines 495-509) |
| Tracker.LoadKeepsDistinct | src/ratatoskr/ratatoskr.py:776-789 | loading never creates a second row for an owner and repository |
| Providers.GitHubLatestRelease | src/ratatoskr/ratatoskr.py:253-272 | a truthy `html_url` of a JSON object body is reported; a non-JSON content type gives None; a missing header, an undecodable body or a non-object body raise TypeError, ValueError or AttributeError |
| Providers.GitHubLatestCommit | src/ratatoskr/ratatoskr.py:275-290 | a 4xx/5xx status gives None before the body is read; otherwise the first listed commit's truthy `html_url` is reported; an empty list raises IndexError; the middle version's commit classifier is the same (ratatoskr/ratatoskr.py, lines 187-202) |
| Providers.GitLabLatestRelease | src/ratatoskr/ratatoskr.py:176-210 | `[0]["_links"]["self"]` is reported when truthy; a KeyError gives None; an empty list is None only with status 200 and an IndexError otherwise; a non-JSON content type reads an unbound local; the middle version's release classifier is the same (ratatoskr/ratatoskr.py, lines 116-144) |
| Providers.GitLabLatestCommit | src/ratatoskr/ratatoskr.py:213-250 | the first listed commit's truthy `web_url` is reported; a JSON 401 gives None in the current version; a JSON object body otherwise raises KeyError; the middle version has no 401 test (ratatoskr/ratatoskr.py, lines 147-166) |
| Providers.RateLimitStatus | src/ratatoskr/ratatoskr.py:129-141 | status 200 gives (remaining, reset); any other status gives None; a missing header raises KeyError |
| Providers.GitHubReleaseIgnoresStatus | src/ratatoskr/ratatoskr.py:253-272 | the GitHub release classifier's answer does not depend on the status code |
| Providers.ExpiredTokenNowHandled | src/ratatoskr/ratatoskr.py:237-242 | a JSON 401 response crashed the older GitLab commit classifier with KeyError; the current one answers None |
| Providers.CommitVersionsAgree | ratatoskr/ratatoskr.py:147-166 | outside a JSON 401 response the two GitLab commit classifiers agree |
| Providers.ReportedReferencesAreTruthy | src/ratatoskr/ratatoskr.py:266-268 | no classifier reports a falsy value such as an empty string |
| Detector.Transition | src/ratatoskr/ratatoskr.py:815-853 | at most two texts; none exactly when neither reference changed, and then the row is untouched; otherwise the row holds exactly the observed pair and the run's timestamp; keys never change |
| Detector.ReleaseAnnouncedIff | src/ratatoskr/ratatoskr.py:815 | a release text for v is announced exactly when the observed release is v and differs from the stored one |
| Detector.CommitAnnouncedIff | src/ratatoskr/ratatoskr.py:842 | a commit text for v is announced exactly when the observed commit is v and differs from the stored one |
| Detector.ReleaseAndCommitTextsDiffer | src/ratatoskr/ratatoskr.py:826 | a release text never equals a commit text |
| Detector.ReleaseAnnouncedFirst | src/ratatoskr/ratatoskr.py:815-853 | when both change, the release text comes before the commit text |
| Detector.TransitionSettles | src/ratatoskr/ratatoskr.py:815-850 | checking the updated row again with the same observations announces nothing and changes nothing |
| Detector.NoCommitObservedErasesStoredCommit | src/ratatoskr/ratatoskr.py:822-823 | a new release observed together with no commit sets the stored commit to NULL |
| Detector.NothingObservedNothingChanges | src/ratatoskr/ratatoskr.py:815 | observing no release and no commit changes nothing and announces nothing |
| Detector.FirstCheckAnnouncesBoth | ratatoskr.py:551-580 | the first check of a freshly loaded row announces both its release and its commit |
| Notify.PayloadCarriesMessage | src/ratatoskr/ratatoskr.py:492-510 | every provider's payload carries the message where that provider reads it; the older Rocket.Chat payload carries the message in its attachment (ratatoskr/ratatoskr.py, lines 378-383) |
| Notify.PayloadsDistinguishMessages | src/ratatoskr/ratatoskr.py:492-510 | distinct messages give distinct payloads |
| Notify.SpoolAppend | src/ratatoskr/ratatoskr.py:453-473 | a missing or unreadable file counts as an empty list; invalid JSON raises ValueError, a non-list raises AttributeError; otherwise the new list is the old one plus the message |
| Notify.SpoolMerge | ratatoskr.py:334-350 | a missing or unreadable file counts as an empty object; the result has the payload's values for its keys and the old values for other keys |
| Notify.Dispatcher.SaveMessages | src/ratatoskr/ratatoskr.py:446-479 | the spool becomes the version's spooled document, or the exception is returned and the spool is kept |
| Notify.Dispatcher.SendWebhook | src/ratatoskr/ratatoskr.py:482-529 | one POST of the payload; a delivered answer returns true and keeps the spool; otherwise the message is spooled and false returned; in the original version only status 200 counts as delivered, and the whole payload dict is spooled (ratatoskr.py, lines 353-379) |
| Notify.Dispatcher.Notify | src/ratatoskr/ratatoskr.py:826-840 | the state after a notification is that of `Deliver`: one POST, and after a 429 a 60-second sleep and a second POST |
| Notify.DeliverAttempts | src/ratatoskr/ratatoskr.py:832-840 | one POST, or two exactly when the first answer is 429 and spooling it did not raise; the only sleep is the 60-second back-off between them; never a third attempt; the middle version retries once only, in the same way (ratatoskr/ratatoskr.py, lines 670-678) |
| Notify.DeliverResult | src/ratatoskr/ratatoskr.py:517-529 | the notification reports delivery exactly when its last POST was answered with success |
| Notify.DeliverSpoolsEachFailure | src/ratatoskr/ratatoskr.py:517-524 | the spool gains one copy of the message per undelivered attempt, so a 429 followed by success leaves it both delivered and spooled |
| Notify.DeliverOnUsableSpool | src/ratatoskr/ratatoskr.py:446-479 | with a spool file the version can extend (absent, unreadable, or holding a list; a dict in the original version), a notification never raises and the file stays extendable |
| Notify.OriginalSpoolKeepsOnlyLast | ratatoskr.py:337-345 | merging a second payload into the spool overwrites the first, because all payloads have the same keys |
| Notify.UnreadableSpoolIsReplaced | src/ratatoskr/ratatoskr.py:462-467 | an unreadable spool file is rewritten as a one-message list |
| Orchestrator.Verify | src/ratatoskr/ratatoskr.py:64-75 | a variable that is unset or empty reads as missing |
| Orchestrator.CurrentPlan | src/ratatoskr/ratatoskr.py:673-792 | every outcome is characterised: exit 2 exactly on a usage error, 0 exactly for version or examples, 1 exactly when a check lacks a provider, a token or the provider's webhook variable is missing, or the rate limit could not be confirmed; a crash exactly when the rate-limit read raises after those checks pass; then load when requested, else check when requested (with the provider's webhook URL), else the run ends |
| Orchestrator.MiddlePlan | ratatoskr/ratatoskr.py:522-628 | every outcome is characterised: exit 2 exactly when not exactly one mode is given, 0 exactly for version; without a provider, exit 1 whatever the mode, load included; exit 1 also for a missing token or webhook variable or an unconfirmed rate limit; a crash exactly when the rate-limit read raises after those checks; then the chosen mode runs, and examples does nothing |
| Orchestrator.OriginalPlan | ratatoskr.py:382-511 | every outcome is characterised: anything but exactly one of prep, load, check and version exits 2; version exits 0; otherwise a missing token or `ROCKETCHAT_WEBHOOK` exits 1; prep exits 1 on an existing table and 0 after creating it, without reading the rate limit; load and check run exactly when the rate limit is confirmed, crash exactly when its read raises, and exit 1 when it is unconfirmed; a check always notifies Rocket.Chat |
| Orchestrator.WebhookVariables | src/ratatoskr/ratatoskr.py:703-707 | each provider reads `<PROVIDER>_WEBHOOK`, e.g. `MSTEAMS_WEBHOOK` |
| Orchestrator.LoadNoLongerNeedsProvider | ratatoskr/ratatoskr.py:450-455 | a load without a provider exits 1 in the middle version but runs in the current one |
| Orchestrator.LoadWinsOverCheck | src/ratatoskr/ratatoskr.py:762-792 | with both switches, the load runs and the run ends before checking |
| Orchestrator.CheckNeedsProvider | src/ratatoskr/ratatoskr.py:598-603 | a check without a provider exits 1 whatever the environment |
| Orchestrator.OriginalPrep | ratatoskr.py:460-481 | exits 1 without changes when the table exists; otherwise creates it and exits 0 |
| Orchestrator.LoadRepositories | src/ratatoskr/ratatoskr.py:762-789 | the table becomes `LoadAll` of the old table over the watch list; the original version's load loop is the same (ratatoskr.py, lines 490-509) |
| Orchestrator.Observe | src/ratatoskr/ratatoskr.py:803-812 | the loop asks the classifiers of the row's host: a non-JSON release answer is None from GitHub but an unbound local from GitLab; a GitHub commit answer with an error status is None; a JSON 401 from GitLab is None in the current version and a KeyError before it; a GitHub release's `html_url` is what the loop compares |
| Orchestrator.CheckLoop | src/ratatoskr/ratatoskr.py:796-867 | rows, outbox, announced texts and failure are those of `CheckAll` over the snapshot; the middle version's check loop is the same (ratatoskr/ratatoskr.py, lines 632-705) |
| Orchestrator.CheckRepositories | src/ratatoskr/ratatoskr.py:792-867 | the check path reads the table and runs the loop over that snapshot |
| Orchestrator.RateGate | ratatoskr.py:515-528 | an empty table raises ZeroDivisionError; it sleeps exactly when 0 <= remaining < count, for reset − now seconds; a reset time in the past raises ValueError; those are its only exceptions, and otherwise it goes on without sleeping |
| Orchestrator.FloorDivisionIsZero | ratatoskr.py:515 | for a positive divisor, `x // n == 0` exactly when 0 <= x < n |
| Orchestrator.OriginalCheckRepositories | ratatoskr.py:511-593 | a raising wait ends the run with nothing changed; otherwise the recorded sleep is the wait's, and the loop runs as `CheckAll` says |
| Orchestrator.CheckKeepsKeys | src/ratatoskr/ratatoskr.py:822-823 | the check loop never adds or removes rows, and never changes a row's key |
| Orchestrator.CheckRowEffect | src/ratatoskr/ratatoskr.py:815-853 | one row step without failure announces `Transition`'s texts, rewrites the checked row as `Transition` says, and leaves rows with other keys untouched |
| Orchestrator.CheckRowAsWritten | src/ratatoskr/ratatoskr.py:815-867 | the loop body as written (the release test with its update and notification, then the commit test against the snapshot row with its own update and notification, skipped once a notification raised) announces `Transition`'s texts in order |
| Orchestrator.AnnounceAllEffect | src/ratatoskr/ratatoskr.py:822-853 | announcing a row's texts without an exception records every text in order and leaves the table as one update with the observed pair; no text means no update, and the commit step's second update changes nothing further |
| Orchestrator.AnnounceAllKeepsKeys | src/ratatoskr/ratatoskr.py:822-853 | the updates of one row step keep the table's length and every row's owner, repository and website |
| Orchestrator.AnnounceAllUsable | src/ratatoskr/ratatoskr.py:826-867 | with a usable spool file, the notifications of one row step never raise and the spool file stays usable |
| Orchestrator.CheckAllIsPointwise | src/ratatoskr/ratatoskr.py:796-867 | with no repeated owner/repo and no failure, every row ends as its `Transition` row, and the texts are `Transition`'s, row after row |
| Orchestrator.CheckCompletes | src/ratatoskr/ratatoskr.py:796-867 | with every classifier answering and a usable spool file, the loop runs to the end |
| Orchestrator.SettledTransitionsAreQuiet | src/ratatoskr/ratatoskr.py:815-853 | applying the row transitions again to the rows they produced, with the same observations, announces nothing and changes no row |
| Orchestrator.AllRowsKeepDistinct | src/ratatoskr/ratatoskr.py:822-853 | the rows a check leaves name the same owner/repo pairs, so a table without repeated pairs keeps none |
| Orchestrator.SecondCheckIsQuiet | src/ratatoskr/ratatoskr.py:796-867 | with a usable spool file and no repeated pairs, a second check loop over the table the first left, with the same observations, raises nothing, announces nothing and leaves the table as it was |
| Orchestrator.LoadThenCheck | src/ratatoskr/ratatoskr.py:762-853 | from an empty table, loading one entry and checking it stores the observed release and commit and announces exactly two texts |

## Left out

- HTTP: the GET and POST requests, `verify_github_token` and `verify_gitlab_token`, and the page scraping of `get_gitlab_projectid` in the older versions. API responses and the webhook's status codes are inputs.
- `verify_github_token` and `verify_gitlab_token`: their results are never used, but both run after the rate-limit read and before the load/check decision (src/ratatoskr/ratatoskr.py lines 752-755), and both can raise: `response.json()` on a body that is not JSON, and a KeyError on a GitLab error body without `message`. The start-up plans assume both return, so "the load runs exactly when …" holds only for runs where they do.
- URL construction: `urllib.parse.quote_plus` and the API URLs are not modelled, because responses are given directly.
- SQLite: the engine, cursors and transactions. The table is a sequence of rows in storage order. The `IntegrityError` branches cannot fire on a table without constraints and are not modelled. An operation on a missing table raises an SQLite error; the model requires the table instead. This can only happen in the original version, when loading or checking before `--prep`.
- `dump_table`: it only prints the table, and `main` never calls it.
- Filesystem: opening the CSV file and writing the spool file (a failed write is not modelled), the JSON encoding of the spool, and the spool's file name.
- The CSV tokenizer: the model's input is the rows it produces.
- Orchestrator.Observe: requires every reported reference to be a JSON string. The code would also compare and store a number or another JSON value, and that case is not modelled.
- Providers.RateLimitStatus: the headers are given as integers. A header that `int()` cannot parse (ValueError) is not modelled.
- argparse: usage errors are modelled as exit status 2. `--version` is argparse's version action, which exits 0 as soon as it is parsed. Not modelled are the argument order this makes matter: a conflicting switch before `--version` exits 2, one after it is never seen. Also not modelled is that `--version` wins over an unknown switch reported at the end of parsing. So `--prep --version` exits 0 in the source but `CurrentPlan` and `MiddlePlan` give 2, and the same holds for `--examples --version` under `OriginalPlan`. The help and version output, and unknown arguments other than the switches of the other versions, are not modelled either.
- Console output, logging, progress bars and dotenv. Environment lookups are a map.
- Timestamps are opaque strings, and the epoch time of the original rate-limit wait is an input. `time.sleep` is recorded as its duration.
- A `website` column other than github or gitlab: the only writer is the watch-list reader, so the column is typed by `Host`. The stale-variable path of the check loop for any other value therefore cannot be represented.
- `src/ratatoskr/convert_to_csv.py`, `src/ratatoskr/__init__.py` and `src/tests/ratatoskr_test.py` are not part of this model.
